/** Asking a decisions model: the key of the "nothing fits" option, the criteria, the verdict. */
module Decisions {
  import opened Wrappers
  import opened Choice
  import opened Json

  /** `none` with `k` underscores before it. */
  function Underscored(k: nat): string {
    if k == 0 then "none" else ['_'] + Underscored(k - 1)
  }

  /** The set of option keys. */
  function OptionKeys(options: seq<ChoiceOption>): set<string> {
    set k | 0 <= k < |options| :: options[k].key
  }

  lemma {:induction false} UnderscoredLength(k: nat)
    ensures |Underscored(k)| == k + 4
  {
    if k > 0 {
      UnderscoredLength(k - 1);
    }
  }

  lemma {:induction false} OptionKeysBound(options: seq<ChoiceOption>)
    ensures |OptionKeys(options)| <= |options|
  {
    if |options| == 0 {
      assert OptionKeys(options) == {};
    } else {
      var init := options[..|options| - 1];
      OptionKeysBound(init);
      assert OptionKeys(options) == OptionKeys(init) + {options[|options| - 1].key};
    }
  }

  /** The first `n` candidates. */
  function Candidates(n: nat): set<string> {
    set k | 0 <= k < n :: Underscored(k)
  }

  lemma CandidatesAreShort(n: nat)
    ensures Underscored(n) !in Candidates(n)
  {
    UnderscoredLength(n);
    forall k | 0 <= k < n ensures Underscored(k) != Underscored(n) {
      UnderscoredLength(k);
    }
  }

  lemma {:induction false} CandidatesCount(n: nat)
    ensures |Candidates(n)| == n
  {
    if n == 0 {
      assert Candidates(0) == {};
    } else {
      CandidatesCount(n - 1);
      CandidatesAreShort(n - 1);
      assert Candidates(n) == Candidates(n - 1) + {Underscored(n - 1)};
    }
  }

  lemma {:induction false} SubsetSize<T>(a: set<T>, b: set<T>)
    requires a <= b
    ensures |a| <= |b|
  {
    if a != {} {
      var x :| x in a;
      SubsetSize(a - {x}, b - {x});
    }
  }

  /** Pigeonhole: as many taken candidates as tries, and no more than there are options. */
  lemma TriesBounded(question: Question, n: nat)
    requires forall k :: 0 <= k < n ==> IsOption(question, Underscored(k))
    ensures n <= |question.options|
  {
    forall key | key in Candidates(n) ensures key in OptionKeys(question.options) {
      var k :| 0 <= k < n && Underscored(k) == key;
      var j :| 0 <= j < |question.options| && question.options[j].key == Underscored(k);
    }
    SubsetSize(Candidates(n), OptionKeys(question.options));
    CandidatesCount(n);
    OptionKeysBound(question.options);
  }

  /** `key` is `none` behind the fewest underscores that make it no option's key. */
  predicate IsNoneKey(question: Question, key: string) {
    && !IsOption(question, key)
    && exists n :: 0 <= n <= |question.options| && key == Underscored(n)
                   && forall k :: 0 <= k < n ==> IsOption(question, Underscored(k))
  }

  /** Prepend underscores until the key collides with no option. */
  method NoneKey(question: Question) returns (key: string)
    ensures IsNoneKey(question, key)
  {
    key := "none";
    ghost var n := 0;
    while exists k :: 0 <= k < |question.options| && question.options[k].key == key
      invariant key == Underscored(n)
      invariant forall k :: 0 <= k < n ==> IsOption(question, Underscored(k))
      decreases |question.options| - n
    {
      assert IsOption(question, Underscored(n));
      TriesBounded(question, n + 1);
      key := ['_'] + key;
      n := n + 1;
    }
    TriesBounded(question, n);
  }

  /** There is one such key: the protocol's two uses of it agree. */
  lemma NoneKeyUnique(question: Question, a: string, b: string)
    requires IsNoneKey(question, a) && IsNoneKey(question, b)
    ensures a == b
  {
    var n: nat :| n <= |question.options| && a == Underscored(n)
      && forall k :: 0 <= k < n ==> IsOption(question, Underscored(k));
    var m: nat :| m <= |question.options| && b == Underscored(m)
      && forall k :: 0 <= k < m ==> IsOption(question, Underscored(k));
    assert n >= m && m >= n;
  }

  function Described(description: Option<string>): Value {
    if description.Some? then Str(description.value) else Null
  }

  /** One entry per option, the last of equal keys winning. */
  function OptionCriteria(options: seq<ChoiceOption>): map<string, Value> {
    if |options| == 0 then map[]
    else
      var last := options[|options| - 1];
      OptionCriteria(options[..|options| - 1])[last.key := Described(last.description)]
  }

  /** The answer set a question is sent with. */
  function Criteria(question: Question, none: Option<string>): map<string, Value> {
    var options := OptionCriteria(question.options);
    if none.Some? && question.none.Some? then options[none.value := Str(question.none.value)] else options
  }

  lemma {:induction false} CriteriaKeys(options: seq<ChoiceOption>)
    ensures OptionCriteria(options).Keys == OptionKeys(options)
  {
    if |options| == 0 {
      assert OptionKeys(options) == {};
    } else {
      var init := options[..|options| - 1];
      CriteriaKeys(init);
      assert OptionKeys(options) == OptionKeys(init) + {options[|options| - 1].key};
    }
  }

  /** Each option is described by its own description, unless a later option has the same key. */
  lemma {:induction false} CriteriaDescribe(options: seq<ChoiceOption>, k: nat)
    requires k < |options| && forall j :: k < j < |options| ==> options[j].key != options[k].key
    ensures options[k].key in OptionCriteria(options)
    ensures OptionCriteria(options)[options[k].key] == Described(options[k].description)
  {
    var init := options[..|options| - 1];
    if k < |init| {
      CriteriaDescribe(init, k);
    }
  }

  /** Offering "nothing fits" adds one entry and leaves every option's description alone. */
  lemma NoneOverwritesNothing(question: Question, key: string)
    requires IsNoneKey(question, key) && question.none.Some?
    ensures var offered := Criteria(question, Some(key));
      && offered.Keys == OptionKeys(question.options) + {key}
      && |offered| == |OptionKeys(question.options)| + 1
      && offered[key] == Str(question.none.value)
      && forall o :: o in OptionKeys(question.options) ==> offered[o] == Criteria(question, None)[o]
  {
    CriteriaKeys(question.options);
    assert key !in OptionKeys(question.options);
    var offered := Criteria(question, Some(key));
    assert |offered| == |offered.Keys|;
    assert offered.Keys == OptionKeys(question.options) + {key};
  }

  /** The chosen option's own probability, else the distribution's confidence. */
  function Confidence(answer: Value, choice: string): Option<real> {
    var p := answer.At("probabilities").At(choice).AsNumber();
    if p.Some? then p else answer.At("confidence").AsNumber()
  }

  /** Read the answer to `question`; `reason` words the distribution. */
  function Verdict(response: Value, none: Option<string>, question: Question, reason: string): Result<Answer, ClassifyError> {
    var answer := response.At("answers").At(question.id);
    var kind, choice := answer.At("type").AsStr(), answer.At("choice").AsStr();
    if kind.Some? && kind.value != "choice" then Err(InvalidResponse)
    else if choice.None? then Err(InvalidResponse)
    else if choice == none then Ok(NoneFits(reason))
    else
      match Confidence(answer, choice.value)
      case None => Err(InvalidResponse)
      case Some(confidence) => Validated(choice.value, confidence, reason, question)
  }

  /** An option is chosen with a confidence in [0, 1], or the answer is unusable. */
  function Judged(response: Value, question: Question, choice: string, reason: string): Result<Answer, ClassifyError> {
    match Confidence(response.At("answers").At(question.id), choice)
    case Some(confidence) => if 0.0 <= confidence <= 1.0 then Ok(Chosen(choice, confidence, reason)) else Err(InvalidResponse)
    case None => Err(InvalidResponse)
  }

  /** The choice an answer of the right type names. */
  function ChoiceOf(response: Value, id: string): Option<string> {
    var answer := response.At("answers").At(id);
    var kind := answer.At("type").AsStr();
    if kind.Some? && kind.value != "choice" then None else answer.At("choice").AsStr()
  }

  /** How an answer is read, by what it chooses from what was offered. */
  function Reading(response: Value, offered: set<string>, question: Question, reason: string): Result<Answer, ClassifyError> {
    var choice := ChoiceOf(response, question.id);
    if choice.None? || choice.value !in offered then Unoffered(response, question, reason)
    else if !IsOption(question, choice.value) then Ok(NoneFits(reason))
    else Judged(response, question, choice.value, reason)
  }

  /** An answer that chooses nothing offered: an error, and which one. */
  function Unoffered(response: Value, question: Question, reason: string): (r: Result<Answer, ClassifyError>)
    ensures r.Err?
  {
    var choice := ChoiceOf(response, question.id);
    if choice.None? || Confidence(response.At("answers").At(question.id), choice.value).None? then Err(InvalidResponse)
    else Err(UnknownChoice(choice.value))
  }

  /** Reading by keys and reading by meaning agree when the none key is no option and the offer is complete. */
  lemma VerdictReads(response: Value, none: Option<string>, question: Question, reason: string)
    requires none.Some? ==> !IsOption(question, none.value)
    ensures Verdict(response, none, question, reason)
         == Reading(response, OptionKeys(question.options) + (if none.Some? then {none.value} else {}), question, reason)
  {
  }

  /** Every option under its own description, and one fresh key more exactly when "nothing fits" is offered. */
  predicate IsOffer(question: Question, none: Option<string>, offered: map<string, Value>) {
    && none.Some? == question.none.Some?
    && (none.Some? ==> IsNoneKey(question, none.value) && none.value in offered && offered[none.value] == Str(question.none.value))
    && offered.Keys == OptionKeys(question.options) + (if none.Some? then {none.value} else {})
    && forall o :: o in OptionCriteria(question.options) ==> o in offered && offered[o] == OptionCriteria(question.options)[o]
  }

  method Offer(question: Question) returns (none: Option<string>, offered: map<string, Value>)
    ensures IsOffer(question, none, offered)
  {
    none := None;
    CriteriaKeys(question.options);
    if question.none.Some? {
      var key := NoneKey(question);
      none := Some(key);
      NoneOverwritesNothing(question, key);
    }
    offered := Criteria(question, none);
  }

  /**
   * One question, asked and read back: an answer from the offered set that names no option is read as
   * "nothing fits", and any other is judged by its confidence.
   */
  method Ask(question: Question, respond: map<string, Value> -> Result<Value, ClassifyError>, reason: string)
    returns (none: Option<string>, offered: map<string, Value>, answer: Result<Answer, ClassifyError>)
    ensures IsOffer(question, none, offered)
    ensures answer == match respond(offered)
      case Err(e) => Err(e)
      case Ok(response) => Reading(response, offered.Keys, question, reason)
  {
    none, offered := Offer(question);
    match respond(offered) {
      case Err(e) => answer := Err(e);
      case Ok(response) =>
        VerdictReads(response, none, question, reason);
        answer := Verdict(response, none, question, reason);
    }
  }

  /** What is read is sound, and "nothing fits" is only ever read where it was offered. */
  lemma ReadingIsSound(response: Value, none: Option<string>, offered: map<string, Value>, question: Question, reason: string)
    requires IsOffer(question, none, offered)
    ensures var answer := Reading(response, offered.Keys, question, reason);
      answer.Ok? ==> Sound(answer.value, question) && (answer.value.NoneFits? ==> question.none.Some?)
  {
  }

  // ---- an answer, spelled out ----------------------------------------------------------------

  /** The answer a response gives to question `id`, and what it chooses. */
  predicate Decides(response: Value, id: string, answer: Value, choice: string) {
    && response.Object? && "answers" in response.members
    && response.members["answers"].Object? && id in response.members["answers"].members
    && answer == response.members["answers"].members[id]
    && answer.Object? && "choice" in answer.members && answer.members["choice"] == Str(choice)
    && ("type" in answer.members && answer.members["type"].Str? ==> answer.members["type"].s == "choice")
  }

  lemma ChoiceIsDecided(response: Value, id: string, choice: string)
    ensures ChoiceOf(response, id) == Some(choice) <==> exists answer: Value :: Decides(response, id, answer, choice)
  {
    if ChoiceOf(response, id) == Some(choice) {
      assert Decides(response, id, response.At("answers").At(id), choice);
    }
  }

  /** The chosen option's own probability. */
  predicate HasProbability(answer: Value, choice: string, p: real) {
    && answer.Object? && "probabilities" in answer.members && answer.members["probabilities"].Object?
    && choice in answer.members["probabilities"].members
    && answer.members["probabilities"].members[choice] == Number(p)
  }

  predicate HasConfidence(answer: Value, c: real) {
    answer.Object? && "confidence" in answer.members && answer.members["confidence"] == Number(c)
  }

  /**
   * How an answer is read. An option counts with its own probability, or with the answer's confidence if it has
   * none; a key that was offered and is no option says that nothing fits; whatever else is an error.
   */
  lemma AnswerByMembers(response: Value, none: Option<string>, offered: map<string, Value>, question: Question, reason: string,
                        answer: Value, choice: string, n: real)
    requires IsOffer(question, none, offered) && Decides(response, question.id, answer, choice)
    ensures none == Some(choice) ==> Reading(response, offered.Keys, question, reason) == Ok(NoneFits(reason))
    ensures IsOption(question, choice) && HasProbability(answer, choice, n) ==>
              Reading(response, offered.Keys, question, reason)
              == if 0.0 <= n <= 1.0 then Ok(Chosen(choice, n, reason)) else Err(InvalidResponse)
    ensures IsOption(question, choice) && (forall p: real :: !HasProbability(answer, choice, p)) && HasConfidence(answer, n) ==>
              Reading(response, offered.Keys, question, reason)
              == if 0.0 <= n <= 1.0 then Ok(Chosen(choice, n, reason)) else Err(InvalidResponse)
    ensures IsOption(question, choice) && (forall p: real :: !HasProbability(answer, choice, p) && !HasConfidence(answer, p)) ==>
              Reading(response, offered.Keys, question, reason) == Err(InvalidResponse)
    ensures choice !in offered ==> Reading(response, offered.Keys, question, reason).Err?
  {
    ChoiceIsDecided(response, question.id, choice);
    CriteriaKeys(question.options);
    var p := answer.At("probabilities").At(choice).AsNumber();
    assert p.Some? ==> HasProbability(answer, choice, p.value);
    var c := answer.At("confidence").AsNumber();
    assert c.Some? ==> HasConfidence(answer, c.value);
  }

  /** A response that decides nothing is an error. */
  lemma NothingDecided(response: Value, offered: set<string>, question: Question, reason: string)
    requires forall answer: Value, choice: string :: !Decides(response, question.id, answer, choice)
    ensures Reading(response, offered, question, reason) == Err(InvalidResponse)
  {
    if ChoiceOf(response, question.id).Some? {
      ChoiceIsDecided(response, question.id, ChoiceOf(response, question.id).value);
    }
  }

  /** The keys in the order they are tried. */
  lemma FirstKeys()
    ensures Underscored(0) == "none" && Underscored(1) == "_none" && Underscored(2) == "__none"
  {
  }

  lemma NextKey(k: nat)
    ensures Underscored(k + 1) == "_" + Underscored(k)
  {
  }
}
