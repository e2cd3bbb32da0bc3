# Career-readiness quiz: scoring engine and question flow

A model of the two pieces of logic in a career-readiness quiz web app for
automotive design engineering.

- **The scoring and recommendation engine** of the results page
  (`results.dfy`, module `Results`). The respondent's answer ledger maps a
  question id to the selected option label. From it the engine computes
  three section scores (psychometric, technical, WISCAR) and an overall
  score. The overall score selects a recommendation tier (ready, develop,
  explore). The engine also derives a six-facet WISCAR breakdown and three
  career-match values. The section scorer is a loop over the section's id
  list (`GetScoreForSection`), proved equal to a recursive specification
  (`SectionScore`). Psychometric and WISCAR answers use the Likert policy: a
  case-sensitive substring search for marker phrases. Technical answers use
  the correctness policy: an exact match against an answer key.
- **The question flow** of the assessment page (`assessment.dfy`, module
  `Assessment`). This covers the fifteen-question catalog, the per-section
  answered count, and a class `AssessmentState` holding the page state
  `currentQuestion`, `answers` and `currentAnswer`. That state is updated by
  the Next and Previous handlers and by the effect that reloads the selected
  option.
- `strings.dfy` (module `Strings`) models JavaScript's `String.prototype.includes`.
  `ledger.dfy` (module `Ledger`) holds the ledger type and JavaScript
  truthiness of `answers[id]`.

Modelling choices:

- `Math.round(n / d)` on the non-negative quotients that occur is exact
  integer arithmetic: `RoundDiv(n, d) = (2n + d) / (2d)`. Its contract is the
  meaning of rounding to nearest with halves up:
  `(2r - 1)d <= 2n < (2r + 1)d`.
- Each `Math.floor(Math.random() * 10) - 5` of the facet breakdown is an
  integer parameter in [-5, 4], one per facet (six separate draws).
- React state setters are sequential assignments. The effect on
  `[currentQuestion, answers]` runs right after a handler that changed one of
  them (`ReloadAnswer`). Navigating to the results page is modelled as the
  ledger `HandleNext` returns.
- The model follows the code as written, with these consequences:
  - Section scores are on a 0..20 scale, not 0..100, so the overall score
    never reaches the 50 and 75 thresholds and every ledger is recommended
    the explore tier (`EveryLedgerExplores`).
  - "Strongly Disagree" earns 8 points, not 4, because it contains
    "Disagree". Every option of `wiscar3` earns 4, because none contains a
    marker.
  - Facets carry the random jitter. The deterministic variant is the case of
    zero jitter (`BreakdownWithoutJitter`).
  - Career matches are clamped only from below. The upper clamp is the
    display's `Math.min(100, …)` (`DisplayedMatch`).
  - On the last question the ledger handed to the results page is the one
    read before that call's update. Previous never writes the ledger, and the
    Next that records the last answer is the one that navigates away, so in
    the app the last answer is missing from every finished assessment.
    `HandleNext` may be called again after the hand-over; the app never does
    this, because it has left the page.

## Model

| member | source | states |
|---|---|---|
| `Strings.Includes` | src/pages/Results.tsx:50-56 | a pattern is included only if it is no longer than the text, and the empty pattern is included in every text |
| `Ledger.Answered` | src/pages/Results.tsx:42 | a missing key is falsy, and a present label is truthy exactly when it is not empty |
| `Ledger.AnswerOr` | src/pages/Assessment.tsx:181 | the stored label when it is truthy, otherwise the empty string |
| `Results.IsCorrectTechnical` | src/pages/Results.tsx:69-78 | only a technical id with a non-empty label can be correct |
| `Results.LikertPoints` | src/pages/Results.tsx:49-60 | a Likert answer earns one of 4, 8, 12, 16, 20 |
| `Results.QuestionPoints` | src/pages/Results.tsx:44-61 | every answered question adds between 0 and 20 points, and at least 4 under the Likert policy |
| `Results.SectionCount` | src/pages/Results.tsx:41-43 | `validAnswers` is at most the number of ids, and is 0 exactly when no id has a truthy entry |
| `Results.SectionTotal` | src/pages/Results.tsx:38-63 | `totalScore` lies between 0 and 20 times `validAnswers` |
| `Results.RoundDiv` | src/pages/Results.tsx:65 | `Math.round(n / d)` is the integer nearest to the quotient, halves rounded up |
| `Results.RoundDivBetween` | src/pages/Results.tsx:65 | a quotient in [lo, hi] rounds into [lo, hi] |
| `Results.SectionScore` | src/pages/Results.tsx:37-66 | a section score lies in [0, 20], and is 0 when nothing in the section is answered |
| `Results.GetScoreForSection` | src/pages/Results.tsx:37-66 | the accumulating loop returns exactly the section score of the specification |
| `Results.SectionTotalBetween` | src/pages/Results.tsx:41-63 | if every answered question earns between lo and hi, the total lies between lo and hi times the count |
| `Results.UnansweredSectionScoresZero` | src/pages/Results.tsx:41-65 | missing ids and empty labels are skipped: such a section counts 0 answers and scores 0 |
| `Results.LikertSectionBounds` | src/pages/Results.tsx:50-65 | a Likert section with at least one answer scores in [4, 20] |
| `Results.UniformSectionScore` | src/pages/Results.tsx:37-66 | if every answered question earns the same v, the section scores v |
| `Results.StronglyDisagreePoints` | src/pages/Results.tsx:50-57 | "Strongly Disagree" misses the first three bands and lands on the "Disagree" band, earning 8 |
| `Results.AgreementScalePoints` | src/pages/Results.tsx:50-60 | Strongly Disagree 8, Disagree 8, Neutral 12, Agree 16, Strongly Agree 20 |
| `Results.FrequencyScalePoints` | src/pages/Results.tsx:50-60 | Never 4, Rarely 8, Sometimes 12, Often 16, Always 20 |
| `Results.ProficiencyScalePoints` | src/pages/Results.tsx:50-60 | Not at all, Somewhat, Moderately, Well and Very well all earn 4 |
| `Results.NoMarkerFallback` | src/pages/Results.tsx:58-60 | a label containing none of the eight markers earns the fallback 4 |
| `Results.NoMarkerInitialPoints` | src/pages/Results.tsx:50-60 | a label without the initial letter of any marker earns the fallback 4 |
| `Results.NoMarkerIncluded` | src/pages/Results.tsx:50-60 | every proficiency-scale label falls through to 4 |
| `Results.TechnicalPoints` | src/pages/Results.tsx:69-77 | a technical answer earns 20 iff it equals the key's label, and 0 otherwise |
| `Results.OverallScore` | src/pages/Results.tsx:83 | the overall score is the integer nearest to the mean of the three section scores, halves rounded up |
| `Results.OverallBetween` | src/pages/Results.tsx:83 | the overall score lies between the lowest and highest section score |
| `Results.ScoresOf` | src/pages/Results.tsx:80-90 | all three section scores lie in [0, 20], the overall is the rounded mean of the three, and it is at most 20 |
| `Results.CalculateScores` | src/pages/Results.tsx:32-91 | the three section passes and the rounding give exactly the specified scores |
| `Results.OnlyProficiencyAnswered` | src/pages/Results.tsx:82 | a ledger answering only `wiscar3` gives a WISCAR score of 4, whichever of its five options is chosen |
| `Results.AllStronglyAgreeScoresTwenty` | src/pages/Results.tsx:80 | five "Strongly Agree" psychometric answers score 20 |
| `Results.AllCorrectScoresTwenty` | src/pages/Results.tsx:81 | five correct technical answers score 20 |
| `Results.EmptyLedgerScores` | src/pages/Results.tsx:80-83 | the empty ledger scores 0 in every section and overall |
| `Results.TierOf` | src/pages/Results.tsx:95-141 | the three tiers partition the integers at 50 and 75, both directions of each band |
| `Results.TierMonotone` | src/pages/Results.tsx:96-126 | a higher overall score never yields a lower tier |
| `Results.GetRecommendation` | src/pages/Results.tsx:95-142 | the record carries the score's tier and four next steps |
| `Results.EveryLedgerExplores` | src/pages/Results.tsx:83-141 | every ledger is recommended the explore tier |
| `Results.HighScoresAreReady` | src/pages/Results.tsx:96-110 | section scores of 80 give an overall 80 and the ready tier |
| `Results.FacetSeeds` | src/pages/Results.tsx:147-153 | there is one seed per facet name |
| `Results.Clamp` | src/pages/Results.tsx:154 | the clamp lies in [0, 100], keeps values already there, and sends lower values to 0 and higher ones to 100 |
| `Results.WiscarBreakdown` | src/pages/Results.tsx:147-154 | six facets in order Will, Interest, Skill, Cognitive, Ability, Real-World, each in [0, 100]: seed plus jitter when that lies in [0, 100], else 0 below and 100 above; within -5..+4 of an in-range seed |
| `Results.ZeroJitterKeepsSeeds` | src/pages/Results.tsx:147-154 | with zero jitter each facet whose seed lies in [0, 100] equals its seed |
| `Results.BreakdownWithoutJitter` | src/pages/Results.tsx:147-154 | with zero jitter each facet of a ledger's scores equals its seed |
| `Results.CareerSeeds` | src/pages/Results.tsx:156-172 | there is one seed per career role |
| `Results.CareerMatches` | src/pages/Results.tsx:156-172 | three roles in order, each match at least 0 and at least seed plus offset, equal to seed plus offset when that is not negative and 0 when it is |
| `Results.DisplayedMatch` | src/pages/Results.tsx:345 | the drawn match lies in [0, 100], never exceeds the match, equals it up to 100, and is 100 above that |
| `Results.LedgerCareerMatches` | src/pages/Results.tsx:156-172 | for any ledger each match is at least its seed, and the drawn value is seed plus offset, at most 30 |
| `Results.HighScoresDesignerMatch` | src/pages/Results.tsx:159 | an overall score of 80 draws a designer match of 90 |
| `Assessment.SectionQuestions` | src/pages/Assessment.tsx:283 | the filter is no longer than the catalog and every question it keeps is of the section |
| `Assessment.SectionQuestionsMembers` | src/pages/Assessment.tsx:283 | the filter keeps exactly the questions of the section, and no others |
| `Assessment.CatalogShape` | src/pages/Assessment.tsx:18-114 | fifteen questions, five per section in the order psychometric, technical, WISCAR, each with at least four options |
| `Assessment.CatalogIds` | src/pages/Assessment.tsx:18-114 | the catalog's ids in order are the scorer's three id lists joined |
| `Assessment.CatalogIdsDistinct` | src/pages/Assessment.tsx:18-114 | no two questions share an id |
| `Assessment.SectionIdsMatchScorer` | src/pages/Results.tsx:33-35 | each section of the catalog lists exactly the ids that section's scorer reads |
| `Assessment.AnswerKeyAmongOptions` | src/pages/Results.tsx:70-76 | each technical question's canonical answer is one of its options |
| `Assessment.AgreementOptionPoints` | src/pages/Assessment.tsx:23 | the agreement scale's options earn 8, 8, 12, 16, 20 in order |
| `Assessment.FrequencyOptionPoints` | src/pages/Assessment.tsx:87 | option k of the frequency scale earns 4 * (k + 1) |
| `Assessment.ProficiencyOptionPoints` | src/pages/Assessment.tsx:99 | every option of the proficiency scale earns 4 |
| `Assessment.CatalogLikertScales` | src/pages/Assessment.tsx:18-112 | every psychometric and WISCAR question offers exactly one of the three Likert scales |
| `Assessment.CatalogSectionSize` | src/pages/Assessment.tsx:283 | each section of the catalog filters to five questions |
| `Assessment.ProficiencyQuestionEarnsFour` | src/pages/Assessment.tsx:96-101 | every option of `wiscar3` earns 4 points |
| `Assessment.AnsweredCount` | src/pages/Assessment.tsx:284 | the answered count is at most the number of questions, and equals it iff every one has a truthy entry |
| `Assessment.AnsweredCountIsSectionCount` | src/pages/Assessment.tsx:284 | the answered count equals the scorer's `validAnswers` over the same ids |
| `Assessment.SectionAnsweredCount` | src/pages/Assessment.tsx:282-285 | a section's answered count is at most 5, and equals 5 iff all its questions are answered |
| `Assessment.AnsweredCountMatchesScorer` | src/pages/Assessment.tsx:283-284 | the count shown under each section equals the number of answers its scorer averages |
| `Assessment.AssessmentState.constructor` | src/pages/Assessment.tsx:118-120 | the flow starts at question 0 with an empty ledger and no selection |
| `Assessment.AssessmentState.SelectOption` | src/pages/Assessment.tsx:231 | choosing an option sets only the selection |
| `Assessment.AssessmentState.ReloadAnswer` | src/pages/Assessment.tsx:180-182 | the effect sets the selection to the ledger entry of the current question, or the empty string |
| `Assessment.AssessmentState.HandleNext` | src/pages/Assessment.tsx:152-167 | no change without a selection; otherwise records it under the current id, leaves other entries alone and never drops a key, then either advances one question (below the last) or hands over the pre-update ledger (on the last); the index stays in range and the selection is reloaded |
| `Assessment.AssessmentState.HandlePrevious` | src/pages/Assessment.tsx:169-174 | at index 0 nothing changes; otherwise the index drops by one and the selection becomes the ledger entry for that question; the ledger is unchanged |
| `Assessment.LastAnswerMissingFromHandOver` | src/pages/Assessment.tsx:164 | a handed-over ledger without the last question's answer averages WISCAR over at most four answers |

## Left out

- Rendering: JSX, icons, colours, class strings, and the `Card`, `ProgressRing` and `Badge` components. These are presentation only.
- Routing with `useNavigate` and `useLocation`, including the `{ answers: {} }` default when the results page gets no state. The hand-over is the ledger `HandleNext` returns.
- React's asynchronous batching and re-render scheduling. Setters are sequential assignments, and the reload effect runs once after the handler.
- `Math.random`: each draw is an integer parameter in [-5, 4], not randomness.
- The floating-point progress percentages of the assessment page. They are display-only; the integer answered count is modelled.
- The description strings of the career roles. The recommendation records keep their titles, descriptions and next steps as constants.
- The landing-page sections, layout and sample data (`ResultsPreview`, `AssessmentOverview`, `IntroductionSection`, `HeroSection`, `Header`, `Footer`, `Index`). They hold no decision logic.
