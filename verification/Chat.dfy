/** Reading a verdict out of a chat answer, and asking once more when it is unreadable. */
module Chat {
  import opened Wrappers
  import opened Choice
  import opened Json
  import opened Balanced
  import opened Retry

  /** What the model claims, unchecked. */
  datatype RawVerdict = RawVerdict(choice: string, confidence: real, reason: string)

  datatype Output = JsonSchema | Prose

  datatype Prompt = Prompt(system: string, user: string, correction: Option<string>)

  datatype Message = Message(role: string, content: string)

  datatype Settings = Settings(retry: RetryPolicy, output: Output)

  /** The JSON parser, left abstract. */
  type Parser = string -> Option<Value>

  /** Every schema field present, nothing around the object. */
  function StrictVerdict(parse: Parser, content: string, id: string): Option<RawVerdict> {
    match parse(content)
    case None => None
    case Some(v) =>
      var choice, confidence, reason := v.At(id).AsStr(), v.At("confidence").AsNumber(), v.At("reason").AsStr();
      if choice.None? || confidence.None? || reason.None? then None
      else Some(RawVerdict(choice.value, confidence.value, reason.value))
  }

  /** `reason` may be missing, but a present one is a string. */
  function LooseVerdict(parse: Parser, candidate: string, id: string): Option<RawVerdict> {
    match parse(candidate)
    case None => None
    case Some(v) =>
      var reason := if v.Object? && "reason" in v.members then v.members["reason"].AsStr() else Some("");
      var choice, confidence := v.At(id).AsStr(), v.At("confidence").AsNumber();
      if choice.None? || confidence.None? || reason.None? then None
      else Some(RawVerdict(choice.value, confidence.value, reason.value))
  }

  /** What the balanced prefix of `text` reads as. */
  function VerdictHere(parse: Parser, text: string, id: string): Option<RawVerdict> {
    if text == [] || text[0] != '{' then None
    else
      match Block(text)
      case None => None
      case Some(candidate) => LooseVerdict(parse, candidate, id)
  }

  /** Every `{` is tried as a start; the first block that reads as a verdict wins. */
  function ExtractVerdict(parse: Parser, text: string, id: string): Option<RawVerdict> {
    if text == [] then None
    else
      match VerdictHere(parse, text, id)
      case Some(v) => Some(v)
      case None => ExtractVerdict(parse, text[1..], id)
  }

  lemma {:induction false} ExtractSkips(parse: Parser, pre: string, text: string, id: string)
    ensures ExtractVerdict(parse, text, id).Some? ==> ExtractVerdict(parse, pre + text, id).Some?
  {
    if pre == [] {
      assert pre + text == text;
    } else {
      assert (pre + text)[1..] == pre[1..] + text;
      ExtractSkips(parse, pre[1..], text, id);
    }
  }

  /**
   * A verdict object printed anywhere in the answer is enough: whatever braces, quotes or
   * backslashes stand before it or after it, some verdict is read.
   */
  lemma VerdictNeverShadowed(parse: Parser, pre: string, open: string, members: Members, post: string, id: string)
    requires Valid(Braces(open, members))
    requires LooseVerdict(parse, Print(Braces(open, members)), id).Some?
    ensures ExtractVerdict(parse, pre + (Print(Braces(open, members)) + post), id).Some?
  {
    var block := Print(Braces(open, members));
    PrintedObjectFound(open, members, post);
    assert (block + post)[0] == '{';
    ExtractSkips(parse, pre, block + post, id);
  }

  /** With nothing brace-like before it, the object's own verdict is the one read. */
  lemma {:induction false} FirstVerdictWins(parse: Parser, pre: string, open: string, members: Members, post: string, id: string)
    requires Valid(Braces(open, members)) && '{' !in pre
    requires LooseVerdict(parse, Print(Braces(open, members)), id).Some?
    ensures ExtractVerdict(parse, pre + (Print(Braces(open, members)) + post), id)
         == LooseVerdict(parse, Print(Braces(open, members)), id)
  {
    var text := Print(Braces(open, members)) + post;
    PrintedObjectFound(open, members, post);
    if pre == [] {
      assert pre + text == text && text[0] == '{';
    } else {
      assert (pre + text)[1..] == pre[1..] + text;
      FirstVerdictWins(parse, pre[1..], open, members, post, id);
    }
  }

  lemma Shifted(text: string, i: nat)
    requires i < |text|
    ensures text[1..][i..] == text[i + 1..]
  {
  }

  /** What is extracted is what some balanced block of the answer reads as, and no earlier block reads as one. */
  lemma {:induction false} ExtractedFromABlock(parse: Parser, text: string, id: string)
    ensures match ExtractVerdict(parse, text, id)
      case Some(v) =>
        exists i :: 0 <= i < |text| && VerdictHere(parse, text[i..], id) == Some(v)
          && forall j :: 0 <= j < i ==> VerdictHere(parse, text[j..], id).None?
      case None => forall j :: 0 <= j < |text| ==> VerdictHere(parse, text[j..], id).None?
  {
    if text != [] {
      assert text[0..] == text;
      if VerdictHere(parse, text, id).None? {
        ExtractedFromABlock(parse, text[1..], id);
        var rest := text[1..];
        match ExtractVerdict(parse, rest, id)
        case Some(v) =>
          var i :| 0 <= i < |rest| && VerdictHere(parse, rest[i..], id) == Some(v)
            && forall j :: 0 <= j < i ==> VerdictHere(parse, rest[j..], id).None?;
          Shifted(text, i);
          forall j | 0 <= j < i + 1 ensures VerdictHere(parse, text[j..], id).None? {
            if j > 0 {
              Shifted(text, j - 1);
            }
          }
        case None =>
          forall j | 0 <= j < |text| ensures VerdictHere(parse, text[j..], id).None? {
            if j > 0 {
              Shifted(text, j - 1);
            }
          }
      }
    }
  }

  // ---- the correction protocol ----------------------------------------------------

  /** `choices[0].message.content`, when it is a string. */
  function Content(response: Value): Option<string> {
    var choices := response.At("choices");
    var first := if choices.Array? && choices.items != [] then choices.items[0] else Null;
    first.At("message").At("content").AsStr()
  }

  /** The verdict in a response, as the output mode reads it. */
  function Read(parse: Parser, output: Output, response: Value, id: string): Option<RawVerdict> {
    match Content(response)
    case None => None
    case Some(content) =>
      match output
      case JsonSchema => StrictVerdict(parse, content, id)
      case Prose => ExtractVerdict(parse, content, id)
  }

  /** The gateway: what it was sent, and the answer it gives to each request in turn. */
  class Gateway {
    var sent: seq<seq<Message>>
    const answers: nat -> Result<Value, ClassifyError>

    constructor (answers: nat -> Result<Value, ClassifyError>)
      ensures sent == [] && this.answers == answers
    {
      sent := [];
      this.answers := answers;
    }
  }

  function From<R>(f: nat -> R, n: nat): nat -> R {
    (i: nat) => f(n + i)
  }

  function Repeat<T>(x: T, n: nat): seq<T> {
    seq(n, _ => x)
  }

  class ChatClassifier {
    const gateway: Gateway
    const settings: Settings
    const parse: Parser

    constructor (gateway: Gateway, settings: Settings, parse: Parser)
      ensures this.gateway == gateway && this.settings == settings && this.parse == parse
    {
      this.gateway := gateway;
      this.settings := settings;
      this.parse := parse;
    }

    /** One POST of `body`, with transport retries. */
    method Complete(body: seq<Message>) returns (outcome: Result<Value, ClassifyError>, ghost posts: nat)
      modifies gateway
      ensures gateway.sent == old(gateway.sent) + Repeat(body, posts)
      ensures StopsAfter(settings.retry, From(gateway.answers, old(|gateway.sent|)), posts)
      ensures outcome == gateway.answers(old(|gateway.sent|) + posts - 1)
    {
      var start := |gateway.sent|;
      var attempts, slept;
      outcome, attempts, slept := Run(settings.retry, From(gateway.answers, start));
      gateway.sent := gateway.sent + Repeat(body, attempts);
      posts := attempts;
    }

    function Body(prompt: Prompt): seq<Message> {
      [Message("system", prompt.system), Message("user", prompt.user)]
    }

    /** Whether a second round follows the first round's `outcome`. */
    predicate AsksAgain(prompt: Prompt, question: Question, outcome: Result<Value, ClassifyError>) {
      && prompt.correction.Some?
      && outcome.Ok?
      && Read(parse, settings.output, outcome.value, question.id).None?
    }

    /** What the caller gets from the round whose outcome is final. */
    function Settle(question: Question, outcome: Result<Value, ClassifyError>): Result<Answer, ClassifyError> {
      match outcome
      case Err(e) => Err(e)
      case Ok(response) =>
        match Read(parse, settings.output, response, question.id)
        case None => Err(InvalidResponse)
        case Some(raw) => Validated(raw.choice, raw.confidence, raw.reason, question)
    }

    /** Ask once; ask a second time, with a correction, exactly when the first answer cannot be read. */
    method Choose(prompt: Prompt, question: Question)
      returns (answer: Result<Answer, ClassifyError>, ghost first: nat, ghost second: nat)
      modifies gateway
      ensures first >= 1
      ensures var n := old(|gateway.sent|);
        var outcome := gateway.answers(n + first - 1);
        && StopsAfter(settings.retry, From(gateway.answers, n), first)
        && (second > 0 <==> AsksAgain(prompt, question, outcome))
        && (second > 0 ==>
              && StopsAfter(settings.retry, From(gateway.answers, n + first), second)
              && answer == Settle(question, gateway.answers(n + first + second - 1))
              && gateway.sent == old(gateway.sent)
                 + seq(first, _ => [Message("system", prompt.system), Message("user", prompt.user)])
                 + seq(second, _ => [Message("system", prompt.system), Message("user", prompt.user),
                                     Message("assistant", Content(outcome.value).GetOr("")),
                                     Message("user", prompt.correction.value)]))
        && (second == 0 ==>
              && answer == Settle(question, outcome)
              && gateway.sent == old(gateway.sent)
                 + seq(first, _ => [Message("system", prompt.system), Message("user", prompt.user)]))
      ensures old(|gateway.sent|) < |gateway.sent| <= old(|gateway.sent|) + 2 * (settings.retry.maxRetries + 1)
      ensures answer.Ok? ==> answer.value.Chosen? && Sound(answer.value, question)
    {
      var body := Body(prompt);
      var outcome;
      outcome, first := Complete(body);
      second := 0;
      if outcome.Err? {
        return Err(outcome.error), first, second;
      }
      var raw := Read(parse, settings.output, outcome.value, question.id);
      if raw.None? {
        if prompt.correction.None? {
          return Err(InvalidResponse), first, second;
        }
        ghost var malformed := outcome.value;
        body := body + [Message("assistant", Content(outcome.value).GetOr("")), Message("user", prompt.correction.value)];
        assert body == [Message("system", prompt.system), Message("user", prompt.user),
                        Message("assistant", Content(malformed).GetOr("")), Message("user", prompt.correction.value)];
        outcome, second := Complete(body);
        if outcome.Err? {
          return Err(outcome.error), first, second;
        }
        raw := Read(parse, settings.output, outcome.value, question.id);
        if raw.None? {
          return Err(InvalidResponse), first, second;
        }
      }
      answer := Validated(raw.value.choice, raw.value.confidence, raw.value.reason, question);
    }
  }

  // ---- what a round reads, spelled out -----------------------------------------------------

  /** A chat-completions response whose first choice says `content`. */
  predicate Says(response: Value, content: string) {
    && response.Object? && "choices" in response.members
    && var choices := response.members["choices"];
    && choices.Array? && choices.items != [] && choices.items[0].Object? && "message" in choices.items[0].members
    && var message := choices.items[0].members["message"];
    && message.Object? && "content" in message.members && message.members["content"] == Str(content)
  }

  lemma ContentIsSaid(response: Value, content: string)
    ensures Content(response) == Some(content) <==> Says(response, content)
  {
  }

  /** An object that answers question `id`; the rationale is `reason`. */
  predicate Answers(v: Value, id: string, choice: string, confidence: real, reason: string) {
    && v.Object?
    && id in v.members && v.members[id] == Str(choice)
    && "confidence" in v.members && v.members["confidence"] == Number(confidence)
    && "reason" in v.members && v.members["reason"] == Str(reason)
  }

  /** Or one that leaves the rationale out. */
  predicate AnswersBriefly(v: Value, id: string, choice: string, confidence: real) {
    && v.Object?
    && id in v.members && v.members[id] == Str(choice)
    && "confidence" in v.members && v.members["confidence"] == Number(confidence)
    && "reason" !in v.members
  }

  ghost predicate AnswersInFull(v: Value, id: string) {
    exists choice: string, confidence: real, reason: string :: Answers(v, id, choice, confidence, reason)
  }

  ghost predicate AnswersAtAll(v: Value, id: string) {
    AnswersInFull(v, id) || exists choice: string, confidence: real :: AnswersBriefly(v, id, choice, confidence)
  }

  lemma LooseReads(parse: Parser, text: string, id: string, choice: string, confidence: real, reason: string)
    ensures parse(text).Some? && Answers(parse(text).value, id, choice, confidence, reason) ==>
              LooseVerdict(parse, text, id) == Some(RawVerdict(choice, confidence, reason))
    ensures parse(text).Some? && AnswersBriefly(parse(text).value, id, choice, confidence) && id != "reason" ==>
              LooseVerdict(parse, text, id) == Some(RawVerdict(choice, confidence, ""))
    ensures parse(text).Some? && Answers(parse(text).value, id, choice, confidence, reason) ==>
              StrictVerdict(parse, text, id) == Some(RawVerdict(choice, confidence, reason))
  {
  }

  lemma LooseReadsOnlyAnswers(parse: Parser, text: string, id: string)
    ensures LooseVerdict(parse, text, id).Some? ==> parse(text).Some? && AnswersAtAll(parse(text).value, id)
    ensures StrictVerdict(parse, text, id).Some? ==> parse(text).Some? && AnswersInFull(parse(text).value, id)
  {
    if LooseVerdict(parse, text, id).Some? {
      var raw, v := LooseVerdict(parse, text, id).value, parse(text).value;
      assert "reason" in v.members ==> Answers(v, id, raw.choice, raw.confidence, raw.reason);
      assert "reason" !in v.members ==> AnswersBriefly(v, id, raw.choice, raw.confidence);
    }
    if StrictVerdict(parse, text, id).Some? {
      var raw := StrictVerdict(parse, text, id).value;
      assert Answers(parse(text).value, id, raw.choice, raw.confidence, raw.reason);
    }
  }

  /** An answer that could be read is final: nothing more is asked, and it is checked against the question. */
  ghost predicate Final(c: ChatClassifier, prompt: Prompt, question: Question, response: Value,
                        choice: string, confidence: real, reason: string)
  {
    && !c.AsksAgain(prompt, question, Ok(response))
    && c.Settle(question, Ok(response)) ==
       if !IsOption(question, choice) then Err(UnknownChoice(choice))
       else if !(0.0 <= confidence <= 1.0) then Err(InvalidResponse)
       else Ok(Chosen(choice, confidence, reason))
  }

  /** One that could not be is asked for again, if the prompt has a correction, and is an error if it is the last. */
  ghost predicate Unreadable(c: ChatClassifier, prompt: Prompt, question: Question, response: Value) {
    && (c.AsksAgain(prompt, question, Ok(response)) <==> prompt.correction.Some?)
    && c.Settle(question, Ok(response)) == Err(InvalidResponse)
  }

  /** A schema answer is its own whole parse: an object with all three fields, or nothing, whatever stands in it. */
  lemma SchemaRound(c: ChatClassifier, prompt: Prompt, question: Question, response: Value, content: string)
    requires c.settings.output == JsonSchema && Says(response, content)
    ensures c.parse(content).Some? ==>
              forall choice: string, confidence: real, reason: string ::
                Answers(c.parse(content).value, question.id, choice, confidence, reason) ==>
                  Final(c, prompt, question, response, choice, confidence, reason)
    ensures c.parse(content).None? || !AnswersInFull(c.parse(content).value, question.id) ==>
              Unreadable(c, prompt, question, response)
  {
    ContentIsSaid(response, content);
    LooseReadsOnlyAnswers(c.parse, content, question.id);
    forall choice: string, confidence: real, reason: string |
      c.parse(content).Some? && Answers(c.parse(content).value, question.id, choice, confidence, reason)
      ensures Final(c, prompt, question, response, choice, confidence, reason)
    {
      LooseReads(c.parse, content, question.id, choice, confidence, reason);
    }
  }

  /** A prose answer with no brace before an object that answers: that object's answer, whatever surrounds it. */
  lemma ProseRound(c: ChatClassifier, prompt: Prompt, question: Question, response: Value,
                   pre: string, open: string, members: Members, post: string,
                   choice: string, confidence: real, reason: string)
    requires c.settings.output == Prose && Valid(Braces(open, members)) && '{' !in pre
    requires Says(response, pre + (Print(Braces(open, members)) + post))
    requires c.parse(Print(Braces(open, members))).Some?
    requires var v := c.parse(Print(Braces(open, members))).value;
      || Answers(v, question.id, choice, confidence, reason)
      || (AnswersBriefly(v, question.id, choice, confidence) && question.id != "reason" && reason == "")
    ensures Final(c, prompt, question, response, choice, confidence, reason)
  {
    var block := Print(Braces(open, members));
    ContentIsSaid(response, pre + (block + post));
    LooseReads(c.parse, block, question.id, choice, confidence, reason);
    FirstVerdictWins(c.parse, pre, open, members, post, question.id);
  }

  /** Whatever stands before such an object, no second round is needed. */
  lemma ProseNeverAsksAgain(c: ChatClassifier, prompt: Prompt, question: Question, response: Value,
                            pre: string, open: string, members: Members, post: string)
    requires c.settings.output == Prose && Valid(Braces(open, members)) && question.id != "reason"
    requires Says(response, pre + (Print(Braces(open, members)) + post))
    requires c.parse(Print(Braces(open, members))).Some?
    requires AnswersAtAll(c.parse(Print(Braces(open, members))).value, question.id)
    ensures !c.AsksAgain(prompt, question, Ok(response))
  {
    var block := Print(Braces(open, members));
    var v := c.parse(block).value;
    ContentIsSaid(response, pre + (block + post));
    if AnswersInFull(v, question.id) {
      var choice: string, confidence: real, reason: string :| Answers(v, question.id, choice, confidence, reason);
      LooseReads(c.parse, block, question.id, choice, confidence, reason);
    } else {
      var choice: string, confidence: real :| AnswersBriefly(v, question.id, choice, confidence);
      LooseReads(c.parse, block, question.id, choice, confidence, "");
    }
    VerdictNeverShadowed(c.parse, pre, open, members, post, question.id);
  }

  /** Prose of which no balanced block answers is unreadable; text without a brace is. */
  lemma ProseWithoutAnswer(c: ChatClassifier, prompt: Prompt, question: Question, response: Value, content: string)
    requires c.settings.output == Prose && Says(response, content)
    requires forall i :: 0 <= i < |content| && content[i] == '{' && Block(content[i..]).Some? ==>
               var v := c.parse(Block(content[i..]).value);
               v.None? || !AnswersAtAll(v.value, question.id)
    ensures Unreadable(c, prompt, question, response)
  {
    ContentIsSaid(response, content);
    ExtractedFromABlock(c.parse, content, question.id);
    if v :| ExtractVerdict(c.parse, content, question.id) == Some(v) {
      var i :| 0 <= i < |content| && VerdictHere(c.parse, content[i..], question.id) == Some(v);
      assert content[i..][0] == content[i];
      LooseReadsOnlyAnswers(c.parse, Block(content[i..]).value, question.id);
    }
  }

  /** A response that says nothing is unreadable in either mode; a failed request is final. */
  lemma SilentRound(c: ChatClassifier, prompt: Prompt, question: Question, response: Value, e: ClassifyError)
    ensures (forall content: string :: !Says(response, content)) ==> Unreadable(c, prompt, question, response)
    ensures !c.AsksAgain(prompt, question, Err(e)) && c.Settle(question, Err(e)) == Err(e)
  {
    if Content(response).Some? {
      ContentIsSaid(response, Content(response).value);
    }
  }
}
