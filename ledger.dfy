/**
 * The answer ledger shared by the question flow and the results page: a
 * `Record<string, string>` from question id to the selected option label.
 */
module Ledger {

  type Ledger = map<string, string>

  datatype Option<+T> = None | Some(value: T)

  /**
   * `answers[id]` is truthy in JavaScript: the key is present and its label is
   * not the empty string (a missing key reads as `undefined`, which is falsy).
   */
  predicate Answered(answers: Ledger, id: string)
    ensures id !in answers ==> !Answered(answers, id)
    ensures id in answers ==> (Answered(answers, id) <==> |answers[id]| > 0)
  {
    id in answers && answers[id] != ""
  }

  /** `answers[id] || ''`: the recorded label, or the empty string. */
  function AnswerOr(answers: Ledger, id: string): (r: string)
    ensures r != "" <==> Answered(answers, id)
    ensures r != "" ==> r == answers[id]
  {
    if id in answers then answers[id] else ""
  }
}
