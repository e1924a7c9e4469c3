/** A question with a fixed set of options, its validated answers, and how asking can fail. */
module Choice {
  import opened Wrappers

  datatype ClassifyError =
    | Transport
    | Timeout
    | Status(code: nat)
    | InvalidResponse
    | UnknownChoice(key: string)

  predicate IsRetryable(e: ClassifyError) {
    e.Transport? || e.Timeout? || (e.Status? && (e.code == 429 || 500 <= e.code <= 599))
  }

  datatype ChoiceOption = ChoiceOption(key: string, description: Option<string>)

  datatype Question = Question(id: string, options: seq<ChoiceOption>, none: Option<string>)

  datatype Answer =
    | Chosen(key: string, confidence: real, reason: string)
    | NoneFits(reason: string)

  predicate IsOption(question: Question, key: string) {
    exists k :: 0 <= k < |question.options| && question.options[k].key == key
  }

  /** The funnel every backend answer passes through: a real option, a confidence in [0, 1]. */
  function Validated(key: string, confidence: real, reason: string, question: Question): (r: Result<Answer, ClassifyError>)
    ensures r.Ok? <==> IsOption(question, key) && 0.0 <= confidence <= 1.0
    ensures r.Ok? ==> r.value == Chosen(key, confidence, reason)
    ensures r.Err? ==> r.error == if IsOption(question, key) then InvalidResponse else UnknownChoice(key)
  {
    if !IsOption(question, key) then Err(UnknownChoice(key))
    else if !(0.0 <= confidence <= 1.0) then Err(InvalidResponse)
    else Ok(Chosen(key, confidence, reason))
  }

  /** What callers rely on: a chosen answer names an option, with a confidence in range. */
  predicate Sound(answer: Answer, question: Question) {
    answer.Chosen? ==> IsOption(question, answer.key) && 0.0 <= answer.confidence <= 1.0
  }
}
