/**
 * The question flow: the fixed fifteen-question catalog and the page state
 * (`currentQuestion`, `answers`, `currentAnswer`) that the Next and Previous
 * buttons and the reload effect update.
 *
 * React state setters are sequential assignments, the effect that reloads the
 * selected option runs right after a handler that changed its dependencies,
 * and navigating to the results page is the ledger a handler returns.
 */
module Assessment {
  import opened Ledger
  import Results

  // ---------------------------------------------------------------------------
  // Question catalog
  // ---------------------------------------------------------------------------

  datatype Section = Psychometric | Technical | Wiscar

  datatype Question = Question(id: string, text: string, options: seq<string>, section: Section)

  const AgreementScale: seq<string> := ["Strongly Disagree", "Disagree", "Neutral", "Agree", "Strongly Agree"]
  const FrequencyScale: seq<string> := ["Never", "Rarely", "Sometimes", "Often", "Always"]
  const ProficiencyScale: seq<string> := ["Not at all", "Somewhat", "Moderately", "Well", "Very well"]

  /** `questions`: five psychometric, five technical and five WISCAR questions, in that order. */
  const Questions: seq<Question> := [
    Question("psych1", "I often imagine how cars could be designed better.", AgreementScale, Psychometric),
    Question("psych2", "I enjoy solving structured engineering problems.", AgreementScale, Psychometric),
    Question("psych3", "I prefer working with clear constraints and guidelines.", AgreementScale, Psychometric),
    Question("psych4", "I stay committed to tasks even when they become challenging or boring.", AgreementScale, Psychometric),
    Question("psych5", "I am naturally curious about how mechanical systems work.", AgreementScale, Psychometric),
    Question("tech1", "What is the primary force acting on a car when it turns around a corner?",
      ["Gravitational force", "Centripetal force", "Friction force", "Normal force"], Technical),
    Question("tech2", "Which CAD software is most commonly used in automotive design?",
      ["AutoCAD", "SolidWorks", "SketchUp", "Blender"], Technical),
    Question("tech3", "What does aerodynamics primarily affect in vehicle design?",
      ["Interior comfort", "Fuel efficiency and stability", "Engine power", "Brake performance"], Technical),
    Question("tech4", "In the automotive design process, what comes after concept sketching?",
      ["Manufacturing", "3D modeling", "Market research", "Testing"], Technical),
    Question("tech5", "What is the main purpose of a crumple zone in vehicle design?",
      ["Reduce weight", "Improve aerodynamics", "Absorb impact energy", "Enhance aesthetics"], Technical),
    Question("wiscar1", "I complete tasks even when they take longer than expected.", FrequencyScale, Wiscar),
    Question("wiscar2", "I enjoy designing and building mechanical objects.", AgreementScale, Wiscar),
    Question("wiscar3", "I can identify basic tools used in automotive manufacturing.", ProficiencyScale, Wiscar),
    Question("wiscar4", "When I encounter a complex problem, I break it down into smaller parts.", FrequencyScale, Wiscar),
    Question("wiscar5", "Mistakes help me learn better than getting things right the first time.", AgreementScale, Wiscar)
  ]

  /** The ids of a list of questions, in order. */
  function Ids(qs: seq<Question>): (ids: seq<string>)
    ensures |ids| == |qs|
    ensures forall i :: 0 <= i < |qs| ==> ids[i] == qs[i].id
  {
    seq(|qs|, i requires 0 <= i < |qs| => qs[i].id)
  }

  /** `questions.filter(q => q.section === section)`. */
  function SectionQuestions(qs: seq<Question>, section: Section): (r: seq<Question>)
    ensures |r| <= |qs|
    ensures forall i :: 0 <= i < |r| ==> r[i].section == section
    decreases |qs|
  {
    if qs == [] then []
    else
      var rest := SectionQuestions(qs[..|qs| - 1], section);
      var last := qs[|qs| - 1];
      if last.section == section then rest + [last] else rest
  }

  /** The filter keeps exactly the questions of the section. */
  lemma {:induction false} SectionQuestionsMembers(qs: seq<Question>, section: Section)
    ensures forall q :: q in SectionQuestions(qs, section) <==> q in qs && q.section == section
    decreases |qs|
  {
    if qs != [] {
      var rest, last := qs[..|qs| - 1], qs[|qs| - 1];
      SectionQuestionsMembers(rest, section);
      assert qs == rest + [last];
    }
  }

  /** Filtering distributes over concatenation. */
  lemma {:induction false} SectionQuestionsAppend(a: seq<Question>, b: seq<Question>, section: Section)
    ensures SectionQuestions(a + b, section) == SectionQuestions(a, section) + SectionQuestions(b, section)
    decreases |b|
  {
    if b == [] {
      assert a + b == a;
    } else {
      var b' := b[..|b| - 1];
      assert (a + b)[..|a + b| - 1] == a + b';
      assert (a + b)[|a + b| - 1] == b[|b| - 1];
      SectionQuestionsAppend(a, b', section);
    }
  }

  /** A list wholly in one section is its own filter, and filters to nothing for any other. */
  lemma {:induction false} SectionQuestionsUniform(qs: seq<Question>, s: Section, section: Section)
    requires forall i :: 0 <= i < |qs| ==> qs[i].section == s
    ensures SectionQuestions(qs, section) == if s == section then qs else []
    decreases |qs|
  {
    if qs != [] {
      var rest := qs[..|qs| - 1];
      var last := qs[|qs| - 1];
      assert forall i :: 0 <= i < |rest| ==> rest[i] == qs[i];
      SectionQuestionsUniform(rest, s, section);
      assert SectionQuestions(qs, section)
        == if last.section == section then SectionQuestions(rest, section) + [last] else SectionQuestions(rest, section);
      if s == section {
        assert rest + [last] == qs;
      }
    }
  }

  /** The catalog has fifteen questions, five per section in section order, each with at least four options. */
  lemma CatalogShape()
    ensures |Questions| == 15
    ensures forall i :: 0 <= i < 5 ==> Questions[i].section == Psychometric
    ensures forall i :: 5 <= i < 10 ==> Questions[i].section == Technical
    ensures forall i :: 10 <= i < 15 ==> Questions[i].section == Wiscar
    ensures forall i :: 0 <= i < |Questions| ==> |Questions[i].options| >= 4
  {
  }

  /** The catalog's ids, in order, are the scorer's three id lists one after the other. */
  lemma CatalogIds()
    ensures Ids(Questions) == Results.PsychometricIds + Results.TechnicalIds + Results.WiscarIds
  {
  }

  /** No two questions of the catalog share an id. */
  lemma CatalogIdsDistinct()
    ensures forall i, j :: 0 <= i < j < |Questions| ==> Questions[i].id != Questions[j].id
  {
    CatalogIds();
    var ids := Results.PsychometricIds + Results.TechnicalIds + Results.WiscarIds;
    assert forall i, j :: 0 <= i < j < |ids| ==> ids[i] != ids[j];
  }

  /** Three single-section blocks filter to the block of the section asked for. */
  lemma SectionsOfBlocks(p: seq<Question>, t: seq<Question>, w: seq<Question>, section: Section)
    requires forall i :: 0 <= i < |p| ==> p[i].section == Psychometric
    requires forall i :: 0 <= i < |t| ==> t[i].section == Technical
    requires forall i :: 0 <= i < |w| ==> w[i].section == Wiscar
    ensures SectionQuestions(p + t + w, section)
              == if section == Psychometric then p else if section == Technical then t else w
  {
    SectionQuestionsAppend(p + t, w, section);
    SectionQuestionsAppend(p, t, section);
    SectionQuestionsUniform(p, Psychometric, section);
    SectionQuestionsUniform(t, Technical, section);
    SectionQuestionsUniform(w, Wiscar, section);
    if section == Psychometric {
      assert p + [] + [] == p;
    } else if section == Technical {
      assert [] + t + [] == t;
    } else {
      assert [] + [] + w == w;
    }
  }

  /**
   * Fifteen questions laid out as five per section, in section order, filter
   * to the ids of the matching five-id block.
   */
  lemma SectionIdsOfLayout(qs: seq<Question>, pIds: seq<string>, tIds: seq<string>, wIds: seq<string>)
    requires |qs| == 15 && |pIds| == 5 && |tIds| == 5 && |wIds| == 5
    requires forall i :: 0 <= i < 5 ==> qs[i].section == Psychometric
    requires forall i :: 5 <= i < 10 ==> qs[i].section == Technical
    requires forall i :: 10 <= i < 15 ==> qs[i].section == Wiscar
    requires Ids(qs) == pIds + tIds + wIds
    ensures Ids(SectionQuestions(qs, Psychometric)) == pIds
    ensures Ids(SectionQuestions(qs, Technical)) == tIds
    ensures Ids(SectionQuestions(qs, Wiscar)) == wIds
  {
    var p, t, w := qs[..5], qs[5..10], qs[10..];
    assert qs == p + t + w;
    var all := Ids(qs);
    assert Ids(p) == all[..5] && Ids(t) == all[5..10] && Ids(w) == all[10..];
    SectionsOfBlocks(p, t, w, Psychometric);
    SectionsOfBlocks(p, t, w, Technical);
    SectionsOfBlocks(p, t, w, Wiscar);
  }

  /** Each section of the catalog lists exactly the ids its section scorer reads. */
  lemma SectionIdsMatchScorer()
    ensures Ids(SectionQuestions(Questions, Psychometric)) == Results.PsychometricIds
    ensures Ids(SectionQuestions(Questions, Technical)) == Results.TechnicalIds
    ensures Ids(SectionQuestions(Questions, Wiscar)) == Results.WiscarIds
  {
    CatalogShape();
    CatalogIds();
    SectionIdsOfLayout(Questions, Results.PsychometricIds, Results.TechnicalIds, Results.WiscarIds);
  }

  /** Every technical question offers its canonical correct answer among its options. */
  lemma AnswerKeyAmongOptions()
    ensures forall i :: 0 <= i < |Questions| && Questions[i].section == Technical ==>
              Questions[i].id in Results.CorrectAnswers
              && Results.CorrectAnswers[Questions[i].id] in Questions[i].options
  {
    CatalogShape();
  }

  /** Points of the agreement scale: the two lowest options both earn 8. */
  lemma AgreementOptionPoints()
    ensures forall k :: 0 <= k < 5 ==> Results.LikertPoints(AgreementScale[k]) == [8, 8, 12, 16, 20][k]
  {
    Results.AgreementScalePoints();
  }

  /** Points of the frequency scale: option k earns 4 * (k + 1). */
  lemma FrequencyOptionPoints()
    ensures forall k :: 0 <= k < 5 ==> Results.LikertPoints(FrequencyScale[k]) == 4 * (k + 1)
  {
    Results.FrequencyScalePoints();
  }

  /** Points of the proficiency scale: every option earns the fallback 4. */
  lemma ProficiencyOptionPoints()
    ensures forall k :: 0 <= k < 5 ==> Results.LikertPoints(ProficiencyScale[k]) == 4
  {
    Results.ProficiencyScalePoints();
  }

  /** Every psychometric and WISCAR question offers one of the three Likert scales. */
  lemma CatalogLikertScales()
    ensures forall i :: 0 <= i < |Questions| && Questions[i].section != Technical ==>
              Questions[i].options == AgreementScale
              || Questions[i].options == FrequencyScale
              || Questions[i].options == ProficiencyScale
  {
  }

  /** Whatever option `wiscar3` is given, it earns 4 points. */
  lemma ProficiencyQuestionEarnsFour()
    ensures Questions[12].id == "wiscar3" && Questions[12].section == Wiscar
    ensures forall o :: o in Questions[12].options ==> Results.LikertPoints(o) == 4
  {
    ProficiencyOptionPoints();
    assert Questions[12].options == ProficiencyScale;
  }

  // ---------------------------------------------------------------------------
  // Section answered count
  // ---------------------------------------------------------------------------

  /** `sectionQuestions.filter(q => answers[q.id]).length`. */
  function AnsweredCount(qs: seq<Question>, answers: Ledger): (n: nat)
    ensures n <= |qs|
    ensures n == |qs| <==> forall i :: 0 <= i < |qs| ==> Answered(answers, qs[i].id)
    decreases |qs|
  {
    if qs == [] then 0
    else
      var rest := qs[..|qs| - 1];
      AnsweredCount(rest, answers) + (if Answered(answers, qs[|qs| - 1].id) then 1 else 0)
  }

  /** The answered count of a list of questions is the scorer's `validAnswers` over their ids. */
  lemma {:induction false} AnsweredCountIsSectionCount(qs: seq<Question>, answers: Ledger)
    ensures AnsweredCount(qs, answers) == Results.SectionCount(Ids(qs), answers)
    decreases |qs|
  {
    if qs != [] {
      var rest := qs[..|qs| - 1];
      assert Ids(qs)[..|qs| - 1] == Ids(rest);
      AnsweredCountIsSectionCount(rest, answers);
    }
  }

  /** Each section of the catalog holds five questions. */
  lemma CatalogSectionSize(section: Section)
    ensures |SectionQuestions(Questions, section)| == 5
  {
    SectionIdsMatchScorer();
    assert |Ids(SectionQuestions(Questions, section))| == 5;
  }

  /** Every question of a list is answered iff every index of it is. */
  lemma AllAnsweredByIndex(qs: seq<Question>, answers: Ledger)
    ensures (forall i :: 0 <= i < |qs| ==> Answered(answers, qs[i].id))
            <==> (forall q :: q in qs ==> Answered(answers, q.id))
  {
  }

  /** The "answered" figure shown under each section. */
  function SectionAnsweredCount(section: Section, answers: Ledger): (n: nat)
    ensures n <= 5
    ensures n == 5 <==> forall q :: q in Questions && q.section == section ==> Answered(answers, q.id)
  {
    var qs := SectionQuestions(Questions, section);
    CatalogSectionSize(section);
    SectionQuestionsMembers(Questions, section);
    AllAnsweredByIndex(qs, answers);
    AnsweredCount(qs, answers)
  }

  /**
   * The count shown under a section equals the number of answers its section
   * scorer averages over.
   */
  lemma AnsweredCountMatchesScorer(answers: Ledger)
    ensures SectionAnsweredCount(Psychometric, answers) == Results.SectionCount(Results.PsychometricIds, answers)
    ensures SectionAnsweredCount(Technical, answers) == Results.SectionCount(Results.TechnicalIds, answers)
    ensures SectionAnsweredCount(Wiscar, answers) == Results.SectionCount(Results.WiscarIds, answers)
  {
    SectionIdsMatchScorer();
    AnsweredCountIsSectionCount(SectionQuestions(Questions, Psychometric), answers);
    AnsweredCountIsSectionCount(SectionQuestions(Questions, Technical), answers);
    AnsweredCountIsSectionCount(SectionQuestions(Questions, Wiscar), answers);
  }

  // ---------------------------------------------------------------------------
  // The question-flow state machine
  // ---------------------------------------------------------------------------

  class AssessmentState {
    var currentQuestion: nat
    var answers: Ledger
    var currentAnswer: string

    /** The index always names a question of the catalog. */
    ghost predicate Valid()
      reads this
    {
      currentQuestion < |Questions|
    }

    /** `question`, the question on screen. */
    function CurrentQuestion(): Question
      reads this
      requires Valid()
    {
      Questions[currentQuestion]
    }

    /** The first render: first question, empty ledger, nothing selected. */
    constructor ()
      ensures Valid()
      ensures currentQuestion == 0 && answers == map[] && currentAnswer == ""
    {
      currentQuestion := 0;
      answers := map[];
      currentAnswer := "";
    }

    /** `onValueChange={setCurrentAnswer}` of the option radio group. */
    method SelectOption(option: string)
      modifies this
      ensures currentAnswer == option
      ensures currentQuestion == old(currentQuestion) && answers == old(answers)
    {
      currentAnswer := option;
    }

    /** The effect on `[currentQuestion, answers]`: reload the selection from the ledger. */
    method ReloadAnswer()
      requires Valid()
      modifies this
      ensures Valid()
      ensures currentAnswer == AnswerOr(answers, CurrentQuestion().id)
      ensures currentQuestion == old(currentQuestion) && answers == old(answers)
    {
      currentAnswer := AnswerOr(answers, Questions[currentQuestion].id);
    }

    /**
     * `handleNext`: with a selection, record it and move on, or on the last
     * question hand the ledger over to the results page. The ledger handed
     * over is the one read before this call's update.
     */
    method HandleNext() returns (handedOver: Option<Ledger>)
      requires Valid()
      modifies this
      ensures Valid()
      ensures old(currentAnswer) == "" ==>
                handedOver == None
                && currentQuestion == old(currentQuestion) && answers == old(answers)
                && currentAnswer == old(currentAnswer)
      ensures old(currentAnswer) != "" ==>
                answers == old(answers)[Questions[old(currentQuestion)].id := old(currentAnswer)]
                && currentAnswer == AnswerOr(answers, CurrentQuestion().id)
      ensures old(currentAnswer) != "" && old(currentQuestion) < |Questions| - 1 ==>
                currentQuestion == old(currentQuestion) + 1 && handedOver == None
      ensures old(currentAnswer) != "" && old(currentQuestion) == |Questions| - 1 ==>
                currentQuestion == old(currentQuestion) && handedOver == Some(old(answers))
      ensures old(answers).Keys <= answers.Keys
    {
      handedOver := None;
      if currentAnswer != "" {
        var id := Questions[currentQuestion].id;
        var before := answers;
        answers := answers[id := currentAnswer];
        if currentQuestion < |Questions| - 1 {
          currentQuestion := currentQuestion + 1;
          currentAnswer := "";
        } else {
          handedOver := Some(before);
        }
        ReloadAnswer();
      }
    }

    /**
     * `handlePrevious`: step back one question and restore the selection
     * recorded for it.
     */
    method HandlePrevious()
      requires Valid()
      modifies this
      ensures Valid()
      ensures answers == old(answers)
      ensures old(currentQuestion) == 0 ==>
                currentQuestion == 0 && currentAnswer == old(currentAnswer)
      ensures old(currentQuestion) > 0 ==>
                currentQuestion == old(currentQuestion) - 1
                && currentAnswer == AnswerOr(answers, CurrentQuestion().id)
    {
      if currentQuestion > 0 {
        currentAnswer := AnswerOr(answers, Questions[currentQuestion - 1].id);
        currentQuestion := currentQuestion - 1;
        ReloadAnswer();
      }
    }
  }

  /**
   * A finish from a first pass hands over a ledger without the last question's
   * answer, so the WISCAR section is averaged over at most four answers.
   */
  lemma LastAnswerMissingFromHandOver(handedOver: Ledger)
    requires Questions[|Questions| - 1].id !in handedOver
    ensures Results.SectionCount(Results.WiscarIds, handedOver) <= 4
  {
    var ids := Results.WiscarIds;
    assert ids[..4][..3] == ids[..3];
    assert ids[..4] == ids[..|ids| - 1];
  }
}
