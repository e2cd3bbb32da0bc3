/**
 * The scoring and recommendation engine of the results page: three section
 * scores and an overall score computed from the answer ledger, the
 * recommendation tier chosen from the overall score, the six-facet WISCAR
 * breakdown and the three career matches.
 *
 * `Math.round` of a non-negative quotient is exact integer arithmetic here
 * (`RoundDiv`), and each `Math.floor(Math.random() * 10) - 5` of the facet
 * breakdown is an integer parameter in [-5, 4].
 */
module Results {
  import opened Ledger
  import Strings

  // ---------------------------------------------------------------------------
  // Section id lists and the technical answer key
  // ---------------------------------------------------------------------------

  const PsychometricIds: seq<string> := ["psych1", "psych2", "psych3", "psych4", "psych5"]
  const TechnicalIds: seq<string> := ["tech1", "tech2", "tech3", "tech4", "tech5"]
  const WiscarIds: seq<string> := ["wiscar1", "wiscar2", "wiscar3", "wiscar4", "wiscar5"]

  /** `correctAnswers`: the one canonical correct label of each technical question. */
  const CorrectAnswers: map<string, string> := map[
    "tech1" := "Centripetal force",
    "tech2" := "SolidWorks",
    "tech3" := "Fuel efficiency and stability",
    "tech4" := "3D modeling",
    "tech5" := "Absorb impact energy"
  ]

  /** `isCorrectTechnical`: an exact, case-sensitive match against the key. */
  function IsCorrectTechnical(id: string, answer: string): (r: bool)
    ensures r ==> id in TechnicalIds && answer != ""
  {
    id in CorrectAnswers && CorrectAnswers[id] == answer
  }

  // ---------------------------------------------------------------------------
  // Per-question points
  // ---------------------------------------------------------------------------

  /**
   * The scoring policy of `getScoreForSection`: without a callback the Likert
   * markers are used; with one, the callback decides correctness.
   */
  datatype Policy = Likert | Correctness(isCorrect: (string, string) -> bool)

  /**
   * Likert points of one label: marker phrases are looked for as substrings,
   * highest band first, and the first band that matches wins.
   */
  function LikertPoints(answer: string): (r: int)
    ensures r % 4 == 0 && 4 <= r <= 20
  {
    if Strings.Includes(answer, "Strongly Agree") || Strings.Includes(answer, "Always") then 20
    else if Strings.Includes(answer, "Agree") || Strings.Includes(answer, "Often") then 16
    else if Strings.Includes(answer, "Neutral") || Strings.Includes(answer, "Sometimes") then 12
    else if Strings.Includes(answer, "Disagree") || Strings.Includes(answer, "Rarely") then 8
    else 4
  }

  /** Points one answered question adds to its section's total. */
  function QuestionPoints(policy: Policy, id: string, answer: string): (r: int)
    ensures 0 <= r <= 20
    ensures policy.Likert? ==> 4 <= r
  {
    match policy
    case Correctness(isCorrect) => if isCorrect(id, answer) then 20 else 0
    case Likert => LikertPoints(answer)
  }

  // ---------------------------------------------------------------------------
  // Section scorer
  // ---------------------------------------------------------------------------

  /** What the loop of `getScoreForSection` adds to `validAnswers` over `ids`. */
  function SectionCount(ids: seq<string>, answers: Ledger): (n: nat)
    ensures n <= |ids|
    ensures n == 0 <==> forall i :: 0 <= i < |ids| ==> !Answered(answers, ids[i])
    decreases |ids|
  {
    if ids == [] then 0
    else
      var rest := ids[..|ids| - 1];
      SectionCount(rest, answers) + (if Answered(answers, ids[|ids| - 1]) then 1 else 0)
  }

  /** What the loop of `getScoreForSection` adds to `totalScore` over `ids`. */
  function SectionTotal(ids: seq<string>, answers: Ledger, policy: Policy): (t: int)
    ensures 0 <= t <= 20 * SectionCount(ids, answers)
    decreases |ids|
  {
    if ids == [] then 0
    else
      var rest, id := ids[..|ids| - 1], ids[|ids| - 1];
      SectionTotal(rest, answers, policy)
        + (if Answered(answers, id) then QuestionPoints(policy, id, answers[id]) else 0)
  }

  /**
   * `Math.round(n / d)` for `n >= 0` and `d > 0`: the integer nearest to the
   * quotient, halves rounded up.
   */
  function RoundDiv(n: int, d: int): (r: int)
    requires 0 <= n && 0 < d
    ensures 0 <= r
    ensures (2 * r - 1) * d <= 2 * n < (2 * r + 1) * d
  {
    var q := (2 * n + d) / (2 * d);
    assert 2 * n + d == 2 * d * q + (2 * n + d) % (2 * d);
    assert (2 * q - 1) * d == 2 * d * q - d && (2 * q + 1) * d == 2 * d * q + d;
    q
  }

  /** Multiplying by a positive number keeps the order. */
  lemma MulLe(a: int, b: int, d: int)
    requires a <= b && 0 < d
    ensures a * d <= b * d
  {
  }

  /** Any integer nearest to a quotient in [lo, hi] lies in [lo, hi]. */
  lemma NearestBetween(n: int, d: int, r: int, lo: int, hi: int)
    requires 0 < d && (2 * r - 1) * d <= 2 * n < (2 * r + 1) * d
    requires lo * d <= n <= hi * d
    ensures lo <= r <= hi
  {
    assert (2 * hi + 1) * d == 2 * (hi * d) + d && (2 * lo) * d == 2 * (lo * d);
    if r > hi {
      MulLe(2 * hi + 1, 2 * r - 1, d);
    }
    if r < lo {
      MulLe(2 * r + 1, 2 * lo, d);
    }
  }

  /** A quotient that lies in [lo, hi] still lies there after rounding. */
  lemma RoundDivBetween(n: int, d: int, lo: int, hi: int)
    requires 0 <= n && 0 < d
    requires lo * d <= n <= hi * d
    ensures lo <= RoundDiv(n, d) <= hi
  {
    NearestBetween(n, d, RoundDiv(n, d), lo, hi);
  }

  /** The value `getScoreForSection` returns, as a function of its inputs. */
  function SectionScore(ids: seq<string>, answers: Ledger, policy: Policy): (r: int)
    ensures 0 <= r <= 20
    ensures SectionCount(ids, answers) == 0 ==> r == 0
  {
    var count := SectionCount(ids, answers);
    if count > 0 then
      RoundDivBetween(SectionTotal(ids, answers, policy), count, 0, 20);
      RoundDiv(SectionTotal(ids, answers, policy), count)
    else 0
  }

  /** `getScoreForSection`: one pass over `ids`, skipping falsy ledger entries. */
  method GetScoreForSection(ids: seq<string>, answers: Ledger, policy: Policy) returns (score: int)
    ensures score == SectionScore(ids, answers, policy)
  {
    var totalScore := 0;
    var validAnswers := 0;
    for i := 0 to |ids|
      invariant totalScore == SectionTotal(ids[..i], answers, policy)
      invariant validAnswers == SectionCount(ids[..i], answers)
    {
      var id := ids[i];
      assert ids[..i + 1][..i] == ids[..i];
      if Answered(answers, id) {
        validAnswers := validAnswers + 1;
        totalScore := totalScore + QuestionPoints(policy, id, answers[id]);
      }
    }
    assert ids[..|ids|] == ids;
    score := if validAnswers > 0 then RoundDiv(totalScore, validAnswers) else 0;
  }

  /**
   * The section total lies between `lo` and `hi` points per answered question
   * when every answered question scores between them.
   */
  lemma {:induction false} SectionTotalBetween(ids: seq<string>, answers: Ledger, policy: Policy, lo: int, hi: int)
    requires forall i :: 0 <= i < |ids| && Answered(answers, ids[i]) ==>
               lo <= QuestionPoints(policy, ids[i], answers[ids[i]]) <= hi
    ensures lo * SectionCount(ids, answers) <= SectionTotal(ids, answers, policy) <= hi * SectionCount(ids, answers)
    decreases |ids|
  {
    if ids != [] {
      var rest, id := ids[..|ids| - 1], ids[|ids| - 1];
      assert forall i :: 0 <= i < |rest| ==> rest[i] == ids[i];
      SectionTotalBetween(rest, answers, policy, lo, hi);
      var c, t := SectionCount(rest, answers), SectionTotal(rest, answers, policy);
      if Answered(answers, id) {
        var p := QuestionPoints(policy, id, answers[id]);
        assert lo <= p <= hi;
        BetweenStep(lo, hi, c, t, p);
      }
    }
  }

  /** Adding one more score between `lo` and `hi` keeps a total between `lo` and `hi` per item. */
  lemma BetweenStep(lo: int, hi: int, c: int, t: int, p: int)
    requires lo * c <= t <= hi * c && lo <= p <= hi
    ensures lo * (c + 1) <= t + p <= hi * (c + 1)
  {
    assert lo * (c + 1) == lo * c + lo && hi * (c + 1) == hi * c + hi;
  }

  /** Missing ids and empty labels are skipped: such a section scores 0. */
  lemma UnansweredSectionScoresZero(ids: seq<string>, answers: Ledger, policy: Policy)
    requires forall i :: 0 <= i < |ids| ==> ids[i] !in answers || answers[ids[i]] == ""
    ensures SectionCount(ids, answers) == 0
    ensures SectionScore(ids, answers, policy) == 0
  {
  }

  /** A Likert section with at least one answer scores in [4, 20]. */
  lemma LikertSectionBounds(ids: seq<string>, answers: Ledger)
    requires SectionCount(ids, answers) > 0
    ensures 4 <= SectionScore(ids, answers, Likert) <= 20
  {
    SectionTotalBetween(ids, answers, Likert, 4, 20);
    RoundDivBetween(SectionTotal(ids, answers, Likert), SectionCount(ids, answers), 4, 20);
  }

  /** When every answered question earns the same `v` points, the section score is `v`. */
  lemma UniformSectionScore(ids: seq<string>, answers: Ledger, policy: Policy, v: int)
    requires SectionCount(ids, answers) > 0
    requires forall i :: 0 <= i < |ids| && Answered(answers, ids[i]) ==>
               QuestionPoints(policy, ids[i], answers[ids[i]]) == v
    ensures SectionScore(ids, answers, policy) == v
  {
    SectionTotalBetween(ids, answers, policy, v, v);
    RoundDivBetween(SectionTotal(ids, answers, policy), SectionCount(ids, answers), v, v);
  }

  // ---------------------------------------------------------------------------
  // Likert labels and technical answers
  // ---------------------------------------------------------------------------

  /** "Strongly Disagree" contains "Disagree" and no earlier marker, so it earns 8. */
  lemma StronglyDisagreePoints()
    ensures LikertPoints("Strongly Disagree") == 8
  {
    var sd := "Strongly Disagree";
    Strings.NotIncludesCharAbsent(sd, "Strongly Agree", 9);
    Strings.NotIncludesFirstAbsent(sd, "Always");
    Strings.NotIncludesFirstAbsent(sd, "Agree");
    Strings.NotIncludesFirstAbsent(sd, "Often");
    Strings.NotIncludesFirstAbsent(sd, "Neutral");
    Strings.NotIncludesCharAbsent(sd, "Sometimes", 2);
    assert sd == "Strongly " + "Disagree" + "";
    Strings.IncludesInfix("Strongly ", "Disagree", "");
  }

  /** "Disagree" reaches its own marker and earns 8. */
  lemma DisagreePoints()
    ensures LikertPoints("Disagree") == 8
  {
    Strings.NotIncludesLonger("Disagree", "Strongly Agree");
    Strings.NotIncludesFirstAbsent("Disagree", "Always");
    Strings.NotIncludesFirstAbsent("Disagree", "Agree");
    Strings.NotIncludesFirstAbsent("Disagree", "Often");
    Strings.NotIncludesFirstAbsent("Disagree", "Neutral");
    Strings.NotIncludesFirstAbsent("Disagree", "Sometimes");
    Strings.IncludesSelf("Disagree");
  }

  /**
   * Points of the agreement scale: "Strongly Disagree" contains "Disagree" and
   * so earns 8, the same as "Disagree".
   */
  lemma AgreementScalePoints()
    ensures LikertPoints("Strongly Disagree") == 8
    ensures LikertPoints("Disagree") == 8
    ensures LikertPoints("Neutral") == 12
    ensures LikertPoints("Agree") == 16
    ensures LikertPoints("Strongly Agree") == 20
  {
    StronglyDisagreePoints();
    DisagreePoints();

    Strings.NotIncludesLonger("Neutral", "Strongly Agree");
    Strings.NotIncludesFirstAbsent("Neutral", "Always");
    Strings.NotIncludesFirstAbsent("Neutral", "Agree");
    Strings.NotIncludesFirstAbsent("Neutral", "Often");
    Strings.IncludesSelf("Neutral");

    Strings.NotIncludesLonger("Agree", "Strongly Agree");
    Strings.NotIncludesLonger("Agree", "Always");
    Strings.IncludesSelf("Agree");

    Strings.IncludesSelf("Strongly Agree");
  }

  /** Points of the frequency scale: "Never" matches no marker and earns 4. */
  lemma FrequencyScalePoints()
    ensures LikertPoints("Never") == 4
    ensures LikertPoints("Rarely") == 8
    ensures LikertPoints("Sometimes") == 12
    ensures LikertPoints("Often") == 16
    ensures LikertPoints("Always") == 20
  {
    Strings.NotIncludesFirstAbsent("Never", "Strongly Agree");
    Strings.NotIncludesFirstAbsent("Never", "Always");
    Strings.NotIncludesFirstAbsent("Never", "Agree");
    Strings.NotIncludesFirstAbsent("Never", "Often");
    Strings.NotIncludesLonger("Never", "Neutral");
    Strings.NotIncludesFirstAbsent("Never", "Sometimes");
    Strings.NotIncludesFirstAbsent("Never", "Disagree");
    Strings.NotIncludesFirstAbsent("Never", "Rarely");

    Strings.NotIncludesFirstAbsent("Rarely", "Strongly Agree");
    Strings.NotIncludesFirstAbsent("Rarely", "Always");
    Strings.NotIncludesFirstAbsent("Rarely", "Agree");
    Strings.NotIncludesFirstAbsent("Rarely", "Often");
    Strings.NotIncludesFirstAbsent("Rarely", "Neutral");
    Strings.NotIncludesFirstAbsent("Rarely", "Sometimes");
    Strings.NotIncludesFirstAbsent("Rarely", "Disagree");
    Strings.IncludesSelf("Rarely");

    Strings.NotIncludesLonger("Sometimes", "Strongly Agree");
    Strings.NotIncludesFirstAbsent("Sometimes", "Always");
    Strings.NotIncludesFirstAbsent("Sometimes", "Agree");
    Strings.NotIncludesFirstAbsent("Sometimes", "Often");
    Strings.NotIncludesFirstAbsent("Sometimes", "Neutral");
    Strings.IncludesSelf("Sometimes");

    Strings.NotIncludesLonger("Often", "Strongly Agree");
    Strings.NotIncludesFirstAbsent("Often", "Always");
    Strings.IncludesSelf("Often");

    Strings.IncludesSelf("Always");
  }

  /** Points of the proficiency scale: no label contains a marker, so every one earns 4. */
  lemma ProficiencyScalePoints()
    ensures LikertPoints("Not at all") == 4
    ensures LikertPoints("Somewhat") == 4
    ensures LikertPoints("Moderately") == 4
    ensures LikertPoints("Well") == 4
    ensures LikertPoints("Very well") == 4
  {
    NoMarkerIncluded("Not at all");
    NoMarkerIncluded("Somewhat");
    NoMarkerIncluded("Moderately");
    NoMarkerIncluded("Well");
    NoMarkerIncluded("Very well");
  }

  /** The eight marker phrases, in the order they are tried. */
  const Markers: seq<string> := ["Strongly Agree", "Always", "Agree", "Often", "Neutral", "Sometimes", "Disagree", "Rarely"]

  /** A label that includes none of the markers earns the fallback 4 points. */
  lemma NoMarkerFallback(answer: string)
    requires forall i :: 0 <= i < |Markers| ==> !Strings.Includes(answer, Markers[i])
    ensures LikertPoints(answer) == 4
  {
    assert !Strings.Includes(answer, Markers[0]) && !Strings.Includes(answer, Markers[1]);
    assert !Strings.Includes(answer, Markers[2]) && !Strings.Includes(answer, Markers[3]);
    assert !Strings.Includes(answer, Markers[4]) && !Strings.Includes(answer, Markers[5]);
    assert !Strings.Includes(answer, Markers[6]) && !Strings.Includes(answer, Markers[7]);
  }

  /** "Not at all": the only marker initial it holds is the "N" of "Neutral", which also needs an "e". */
  lemma NotAtAllPoints()
    ensures LikertPoints("Not at all") == 4
  {
    var answer := "Not at all";
    Strings.NotIncludesFirstAbsent(answer, "Strongly Agree");
    Strings.NotIncludesFirstAbsent(answer, "Always");
    Strings.NotIncludesFirstAbsent(answer, "Agree");
    Strings.NotIncludesFirstAbsent(answer, "Often");
    Strings.NotIncludesCharAbsent(answer, "Neutral", 1);
    Strings.NotIncludesFirstAbsent(answer, "Sometimes");
    Strings.NotIncludesFirstAbsent(answer, "Disagree");
    Strings.NotIncludesFirstAbsent(answer, "Rarely");
    NoMarkerFallback(answer);
  }

  /** "Somewhat" is shorter than the markers starting with its initial. */
  lemma SomewhatPoints()
    ensures LikertPoints("Somewhat") == 4
  {
    var answer := "Somewhat";
    Strings.NotIncludesLonger(answer, "Strongly Agree");
    Strings.NotIncludesFirstAbsent(answer, "Always");
    Strings.NotIncludesFirstAbsent(answer, "Agree");
    Strings.NotIncludesFirstAbsent(answer, "Often");
    Strings.NotIncludesFirstAbsent(answer, "Neutral");
    Strings.NotIncludesLonger(answer, "Sometimes");
    Strings.NotIncludesFirstAbsent(answer, "Disagree");
    Strings.NotIncludesFirstAbsent(answer, "Rarely");
    NoMarkerFallback(answer);
  }

  /** A label containing no marker's initial earns the fallback 4 points. */
  lemma NoMarkerInitialPoints(answer: string)
    requires forall i :: 0 <= i < |Markers| ==> Markers[i][0] !in answer
    ensures LikertPoints(answer) == 4
  {
    forall i | 0 <= i < |Markers|
      ensures !Strings.Includes(answer, Markers[i])
    {
      Strings.NotIncludesFirstAbsent(answer, Markers[i]);
    }
    NoMarkerFallback(answer);
  }

  /** No marker occurs in the five labels of the proficiency scale. */
  lemma NoMarkerIncluded(answer: string)
    requires answer in ["Not at all", "Somewhat", "Moderately", "Well", "Very well"]
    ensures LikertPoints(answer) == 4
  {
    if answer == "Not at all" {
      NotAtAllPoints();
    } else if answer == "Somewhat" {
      SomewhatPoints();
    } else {
      NoMarkerInitialPoints(answer);
    }
  }

  /** A technical answer earns 20 exactly when it equals the key's label, and 0 otherwise. */
  lemma TechnicalPoints(id: string, answer: string)
    ensures (QuestionPoints(Correctness(IsCorrectTechnical), id, answer) == 20)
              == (id in CorrectAnswers && answer == CorrectAnswers[id])
    ensures (QuestionPoints(Correctness(IsCorrectTechnical), id, answer) == 0)
              == !(id in CorrectAnswers && answer == CorrectAnswers[id])
  {
  }

  // ---------------------------------------------------------------------------
  // calculateScores
  // ---------------------------------------------------------------------------

  datatype Scores = Scores(psychometric: int, technical: int, wiscar: int, overall: int)

  /** `Math.round((p + t + w) / 3)`. */
  function OverallScore(p: int, t: int, w: int): (r: int)
    requires 0 <= p && 0 <= t && 0 <= w
    ensures 0 <= r
    ensures (2 * r - 1) * 3 <= 2 * (p + t + w) < (2 * r + 1) * 3
  {
    RoundDiv(p + t + w, 3)
  }

  /** The overall score lies between the smallest and the largest section score. */
  lemma OverallBetween(p: int, t: int, w: int, lo: int, hi: int)
    requires 0 <= p && 0 <= t && 0 <= w
    requires lo <= p <= hi && lo <= t <= hi && lo <= w <= hi
    ensures lo <= OverallScore(p, t, w) <= hi
  {
    RoundDivBetween(p + t + w, 3, lo, hi);
  }

  /** What `calculateScores` returns for a ledger. */
  function ScoresOf(answers: Ledger): (s: Scores)
    ensures 0 <= s.psychometric <= 20 && 0 <= s.technical <= 20 && 0 <= s.wiscar <= 20
    ensures s.overall == OverallScore(s.psychometric, s.technical, s.wiscar)
    ensures 0 <= s.overall <= 20
  {
    var p := SectionScore(PsychometricIds, answers, Likert);
    var t := SectionScore(TechnicalIds, answers, Correctness(IsCorrectTechnical));
    var w := SectionScore(WiscarIds, answers, Likert);
    OverallBetween(p, t, w, 0, 20);
    Scores(p, t, w, OverallScore(p, t, w))
  }

  /** `calculateScores`: three section passes, then the rounded mean of the three. */
  method CalculateScores(answers: Ledger) returns (s: Scores)
    ensures s == ScoresOf(answers)
  {
    var psychometricScore := GetScoreForSection(PsychometricIds, answers, Likert);
    var technicalScore := GetScoreForSection(TechnicalIds, answers, Correctness(IsCorrectTechnical));
    var wiscarScore := GetScoreForSection(WiscarIds, answers, Likert);
    var overallScore := RoundDiv(psychometricScore + technicalScore + wiscarScore, 3);
    s := Scores(psychometricScore, technicalScore, wiscarScore, overallScore);
  }

  /** The wiscar section of a ledger that answers only `wiscar3` scores 4, whatever the label. */
  lemma OnlyProficiencyAnswered(answers: Ledger)
    requires answers.Keys == {"wiscar3"}
    requires answers["wiscar3"] in ["Not at all", "Somewhat", "Moderately", "Well", "Very well"]
    ensures ScoresOf(answers).wiscar == 4
  {
    NoMarkerIncluded(answers["wiscar3"]);
    assert forall i :: 0 <= i < |WiscarIds| && Answered(answers, WiscarIds[i]) ==> i == 2;
    UniformSectionScore(WiscarIds, answers, Likert, 4);
  }

  /** Five "Strongly Agree" psychometric answers score 20. */
  lemma AllStronglyAgreeScoresTwenty(answers: Ledger)
    requires forall i :: 0 <= i < |PsychometricIds| ==>
               PsychometricIds[i] in answers && answers[PsychometricIds[i]] == "Strongly Agree"
    ensures ScoresOf(answers).psychometric == 20
  {
    AgreementScalePoints();
    assert Answered(answers, PsychometricIds[0]);
    UniformSectionScore(PsychometricIds, answers, Likert, 20);
  }

  /** Five correct technical answers score 20. */
  lemma AllCorrectScoresTwenty(answers: Ledger)
    requires forall i :: 0 <= i < |TechnicalIds| ==>
               TechnicalIds[i] in answers && answers[TechnicalIds[i]] == CorrectAnswers[TechnicalIds[i]]
    ensures ScoresOf(answers).technical == 20
  {
    assert Answered(answers, TechnicalIds[0]);
    UniformSectionScore(TechnicalIds, answers, Correctness(IsCorrectTechnical), 20);
  }

  /** The empty ledger scores 0 everywhere. */
  lemma EmptyLedgerScores()
    ensures ScoresOf(map[]) == Scores(0, 0, 0, 0)
  {
  }

  // ---------------------------------------------------------------------------
  // getRecommendation
  // ---------------------------------------------------------------------------

  datatype Tier = Ready | Develop | Explore

  datatype Recommendation = Recommendation(tier: Tier, title: string, description: string, nextSteps: seq<string>)

  /** The tier thresholds: 75 and above, 50 to 74, below 50. */
  function TierOf(overall: int): (t: Tier)
    ensures t == Ready <==> 75 <= overall
    ensures t == Develop <==> 50 <= overall < 75
    ensures t == Explore <==> overall < 50
  {
    if overall >= 75 then Ready else if overall >= 50 then Develop else Explore
  }

  /** Rank of a tier, from least to most ready. */
  function Rank(t: Tier): nat
  {
    match t
    case Explore => 0
    case Develop => 1
    case Ready => 2
  }

  /** A higher overall score never yields a lower tier. */
  lemma TierMonotone(a: int, b: int)
    requires a <= b
    ensures Rank(TierOf(a)) <= Rank(TierOf(b))
  {
  }

  const ReadyRecommendation := Recommendation(Ready, "Ready to Start",
    "Excellent alignment across all dimensions. You're ready to begin your journey in automotive design engineering.",
    ["Enroll in Automotive Fundamentals course",
     "Learn CAD software (SolidWorks/CATIA)",
     "Join Formula SAE or similar projects",
     "Build a portfolio of design projects"])

  const DevelopRecommendation := Recommendation(Develop, "Needs Development",
    "Strong potential with some areas requiring development. Focus on building foundational skills.",
    ["Take foundation courses in math and physics",
     "Complete basic CAD training modules",
     "Gain exposure to automotive industry",
     "Retake assessment after 6 months"])

  const ExploreRecommendation := Recommendation(Explore, "Explore Alternatives",
    "Consider exploring related fields or reassessing your interests and goals.",
    ["Explore Industrial Design programs",
     "Consider general Mechanical Engineering",
     "Look into Product Development roles",
     "Speak with career counselors"])

  /** `getRecommendation`: the static record of the tier the overall score falls in. */
  function GetRecommendation(overall: int): (r: Recommendation)
    ensures r.tier == TierOf(overall)
    ensures |r.nextSteps| == 4
  {
    if overall >= 75 then ReadyRecommendation
    else if overall >= 50 then DevelopRecommendation
    else ExploreRecommendation
  }

  /**
   * Section scores are on a 0..20 scale while the thresholds are 50 and 75,
   * so every ledger is recommended the explore tier.
   */
  lemma EveryLedgerExplores(answers: Ledger)
    ensures GetRecommendation(ScoresOf(answers).overall).tier == Explore
  {
  }

  // ---------------------------------------------------------------------------
  // WISCAR breakdown
  // ---------------------------------------------------------------------------

  datatype Facet = Facet(name: string, score: int)

  const FacetNames: seq<string> := ["Will", "Interest", "Skill", "Cognitive", "Ability", "Real-World"]

  /** The section score each facet starts from, in the order of `FacetNames`. */
  function FacetSeeds(s: Scores): (seeds: seq<int>)
    ensures |seeds| == |FacetNames|
  {
    [s.wiscar, s.psychometric, s.technical, s.overall, s.wiscar, s.overall]
  }

  /** `Math.max(0, Math.min(100, x))`. */
  function Clamp(x: int): (r: int)
    ensures 0 <= r <= 100
    ensures 0 <= x <= 100 ==> r == x
    ensures x < 0 ==> r == 0
    ensures x > 100 ==> r == 100
  {
    if x < 0 then 0 else if x > 100 then 100 else x
  }

  /** Six draws of `Math.floor(Math.random() * 10) - 5`, one per facet. */
  predicate ValidJitter(jitter: seq<int>)
  {
    |jitter| == |FacetNames| && forall i :: 0 <= i < |jitter| ==> -5 <= jitter[i] <= 4
  }

  /** `wiscarBreakdown`: each facet's seed plus its jitter, clamped to [0, 100]. */
  function WiscarBreakdown(s: Scores, jitter: seq<int>): (facets: seq<Facet>)
    requires ValidJitter(jitter)
    ensures |facets| == |FacetNames|
    ensures forall i :: 0 <= i < |facets| ==> facets[i].name == FacetNames[i]
    ensures forall i :: 0 <= i < |facets| ==> 0 <= facets[i].score <= 100
    ensures forall i :: 0 <= i < |facets| && 0 <= FacetSeeds(s)[i] + jitter[i] <= 100 ==>
              facets[i].score == FacetSeeds(s)[i] + jitter[i]
    ensures forall i :: 0 <= i < |facets| && FacetSeeds(s)[i] + jitter[i] < 0 ==> facets[i].score == 0
    ensures forall i :: 0 <= i < |facets| && 100 < FacetSeeds(s)[i] + jitter[i] ==> facets[i].score == 100
    ensures forall i :: 0 <= i < |facets| && 0 <= FacetSeeds(s)[i] <= 100 ==>
              FacetSeeds(s)[i] - 5 <= facets[i].score <= FacetSeeds(s)[i] + 4
  {
    var seeds := FacetSeeds(s);
    seq(|FacetNames|, i requires 0 <= i < |FacetNames| => Facet(FacetNames[i], Clamp(seeds[i] + jitter[i])))
  }

  /** With no jitter, every facet whose seed lies in [0, 100] is exactly its seed. */
  lemma ZeroJitterKeepsSeeds(s: Scores)
    requires forall i :: 0 <= i < |FacetNames| ==> 0 <= FacetSeeds(s)[i] <= 100
    ensures forall i :: 0 <= i < |FacetNames| ==>
              WiscarBreakdown(s, [0, 0, 0, 0, 0, 0])[i].score == FacetSeeds(s)[i]
  {
  }

  /** With no jitter, every facet of a ledger's scores is exactly its seed. */
  lemma BreakdownWithoutJitter(answers: Ledger)
    ensures forall i :: 0 <= i < |FacetNames| ==>
              WiscarBreakdown(ScoresOf(answers), [0, 0, 0, 0, 0, 0])[i].score == FacetSeeds(ScoresOf(answers))[i]
  {
    var s := ScoresOf(answers);
    assert FacetSeeds(s) == [s.wiscar, s.psychometric, s.technical, s.overall, s.wiscar, s.overall];
    ZeroJitterKeepsSeeds(s);
  }

  // ---------------------------------------------------------------------------
  // Career matches
  // ---------------------------------------------------------------------------

  datatype CareerMatch = CareerMatch(role: string, score: int)

  const CareerRoles: seq<string> := ["Automotive Designer", "CAD Engineer", "R&D Engineer"]
  const CareerOffsets: seq<int> := [10, 5, 8]

  /** The section score each career match starts from, in the order of `CareerRoles`. */
  function CareerSeeds(s: Scores): (seeds: seq<int>)
    ensures |seeds| == |CareerRoles|
  {
    [s.overall, s.technical, s.wiscar]
  }

  /** `careerMatches`: `Math.max(0, seed + offset)` for each role. */
  function CareerMatches(s: Scores): (matches: seq<CareerMatch>)
    ensures |matches| == |CareerRoles|
    ensures forall i :: 0 <= i < |matches| ==> matches[i].role == CareerRoles[i]
    ensures forall i :: 0 <= i < |matches| ==>
              0 <= matches[i].score && CareerSeeds(s)[i] + CareerOffsets[i] <= matches[i].score
    ensures forall i :: 0 <= i < |matches| && 0 <= CareerSeeds(s)[i] + CareerOffsets[i] ==>
              matches[i].score == CareerSeeds(s)[i] + CareerOffsets[i]
    ensures forall i :: 0 <= i < |matches| && CareerSeeds(s)[i] + CareerOffsets[i] < 0 ==> matches[i].score == 0
  {
    var seeds := CareerSeeds(s);
    seq(|CareerRoles|, i requires 0 <= i < |CareerRoles| =>
      CareerMatch(CareerRoles[i], if seeds[i] + CareerOffsets[i] < 0 then 0 else seeds[i] + CareerOffsets[i]))
  }

  /** `Math.min(100, m)`, the value drawn in the progress ring. */
  function DisplayedMatch(m: int): (r: int)
    requires 0 <= m
    ensures 0 <= r <= 100
    ensures r <= m
    ensures m <= 100 ==> r == m
    ensures 100 < m ==> r == 100
  {
    if m < 100 then m else 100
  }

  /**
   * For any ledger each career match is at least its seed, and the drawn value
   * is the seed plus the offset, never more than 30.
   */
  lemma LedgerCareerMatches(answers: Ledger)
    ensures forall i :: 0 <= i < |CareerRoles| ==>
              CareerSeeds(ScoresOf(answers))[i] <= CareerMatches(ScoresOf(answers))[i].score
    ensures forall i :: 0 <= i < |CareerRoles| ==>
              DisplayedMatch(CareerMatches(ScoresOf(answers))[i].score)
                == CareerSeeds(ScoresOf(answers))[i] + CareerOffsets[i] <= 30
  {
  }

  /** Section scores of 80 give an overall 80 and the ready tier. */
  lemma HighScoresAreReady()
    ensures OverallScore(80, 80, 80) == 80
    ensures GetRecommendation(80).tier == Ready
  {
  }

  /** An overall score of 80 gives a drawn designer match of 90. */
  lemma HighScoresDesignerMatch()
    ensures DisplayedMatch(CareerMatches(Scores(80, 80, 80, 80))[0].score) == 90
  {
    assert CareerMatches(Scores(80, 80, 80, 80))[0].score == 90;
  }
}
