/**
 * The state stream of an agent_ide plugin: a `state/subscribe` request is acknowledged through the
 * shared writer before its forwarder task is spawned. Server, forwarders, streams, writer task and
 * host interleave freely; one action below is one atomic step of one of them.
 */
module AgentIde {
  import opened Wrappers
  import opened Runtime

  /** What a handler puts on a subscription's stream. */
  type Notification = string

  /** The line of a notification, unless it cannot be spelled as one. */
  type Encoder = Notification -> Option<string>

  datatype Stage =
    | Opened      // the handler returned the stream; nothing sent yet
    | Acked       // the ACK is queued, the forwarder not yet spawned
    | Forwarding
    | Drained     // the stream closed and everything on it was forwarded
    | Cut         // the writer refused a line
    | Refused     // the ACK could not be queued

  /** `received` notifications were taken off the stream; the last of them may still be `held`. */
  datatype Sub = Sub(stage: Stage, stream: seq<Notification>, closed: bool, received: nat, held: bool)

  datatype State = State(lines: seq<Wire>, written: nat, open: bool, serving: bool, busy: Option<nat>, subs: seq<Sub>)

  datatype Action =
    | Subscribe                           // the server asks the handler, which opens a stream
    | Answer(text: string)                // any other reply of the server
    | Acknowledge(spelled: bool)          // the server queues the ACK, if it could be spelled
    | Spawn                               // the server starts the forwarder
    | Produce(sub: nat, note: Notification)
    | Close(sub: nat)
    | Receive(sub: nat)                   // a forwarder takes the next notification, or sees the end
    | Send(sub: nat)                      // a forwarder queues the line it holds
    | Write                               // the writer task puts one line on stdout
    | HostGone

  const INITIAL: State := State([], 0, true, true, None, [])

  function Queue(s: State, line: Wire): State {
    s.(lines := s.lines + [line])
  }

  function SetSub(s: State, k: nat, sub: Sub): State
    requires k < |s.subs|
  {
    s.(subs := s.subs[k := sub])
  }

  /** The line a forwarder holds. */
  predicate Holds(s: State, k: nat) {
    k < |s.subs| && s.subs[k].stage == Forwarding && s.subs[k].held && 0 < s.subs[k].received <= |s.subs[k].stream|
  }

  /** Queued if it has a line and the writer takes it; a forwarder the writer refuses stops. */
  function SendStep(encode: Encoder, s: State, k: nat): State {
    if !Holds(s, k) then s
    else
      match encode(s.subs[k].stream[s.subs[k].received - 1])
      case None => SetSub(s, k, s.subs[k].(held := false))
      case Some(body) =>
        if s.open then Queue(SetSub(s, k, s.subs[k].(held := false)), Note(k, body))
        else SetSub(s, k, s.subs[k].(stage := Cut))
  }

  /** One step; an action that is not enabled leaves the state as it is. */
  function Step(encode: Encoder, s: State, a: Action): State {
    match a
    case Subscribe =>
      if s.serving && s.busy.None? then
        s.(busy := Some(|s.subs|), subs := s.subs + [Sub(Opened, [], false, 0, false)])
      else s
    case Answer(text) =>
      if s.serving && s.busy.None? then (if s.open then Queue(s, Reply(text)) else s.(serving := false)) else s
    case Acknowledge(spelled) =>
      if s.busy.Some? && s.busy.value < |s.subs| && s.subs[s.busy.value].stage == Opened then
        var k := s.busy.value;
        if spelled && s.open then Queue(SetSub(s, k, s.subs[k].(stage := Acked)), Ack(k))
        else SetSub(s, k, s.subs[k].(stage := Refused)).(busy := None, serving := false)
      else s
    case Spawn =>
      if s.busy.Some? && s.busy.value < |s.subs| && s.subs[s.busy.value].stage == Acked then
        SetSub(s, s.busy.value, s.subs[s.busy.value].(stage := Forwarding)).(busy := None)
      else s
    case Produce(k, note) =>
      if k < |s.subs| && !s.subs[k].closed then SetSub(s, k, s.subs[k].(stream := s.subs[k].stream + [note])) else s
    case Close(k) =>
      if k < |s.subs| then SetSub(s, k, s.subs[k].(closed := true)) else s
    case Receive(k) =>
      if k < |s.subs| && s.subs[k].stage == Forwarding && !s.subs[k].held then
        if s.subs[k].received < |s.subs[k].stream| then
          SetSub(s, k, s.subs[k].(received := s.subs[k].received + 1, held := true))
        else if s.subs[k].closed then SetSub(s, k, s.subs[k].(stage := Drained))
        else s
      else s
    case Send(k) => SendStep(encode, s, k)
    case Write =>
      if s.open && s.written < |s.lines| then s.(written := s.written + 1) else s
    case HostGone => s.(open := false)
  }

  function Run(encode: Encoder, actions: seq<Action>): State {
    if |actions| == 0 then INITIAL
    else Step(encode, Run(encode, actions[..|actions| - 1]), actions[|actions| - 1])
  }

  /** The bodies of subscription `k`'s notification lines, in order. */
  function NotesOf(lines: seq<Wire>, k: nat): seq<string> {
    if |lines| == 0 then []
    else
      var last := lines[|lines| - 1];
      NotesOf(lines[..|lines| - 1], k) + if last.Note? && last.sub == k then [last.body] else []
  }

  /** The lines of a stream: each notification that has one, in order. */
  function Spelled(encode: Encoder, stream: seq<Notification>): seq<string> {
    if |stream| == 0 then []
    else
      Spelled(encode, stream[..|stream| - 1])
      + match encode(stream[|stream| - 1]) case None => [] case Some(body) => [body]
  }

  /** How many notifications of a subscription are done with: sent, or skipped as unspellable. */
  function Handled(sub: Sub): int {
    sub.received - if sub.held then 1 else 0
  }

  predicate AckedBeforeNotes(lines: seq<Wire>, k: nat) {
    forall i :: 0 <= i < |lines| && lines[i].Note? && lines[i].sub == k ==> Ack(k) in lines[..i]
  }

  /** Whether the subscription's ACK is out. */
  predicate Live(stage: Stage) {
    stage != Opened && stage != Refused
  }

  predicate SubInv(encode: Encoder, s: State, k: nat)
    requires k < |s.subs|
  {
    var sub := s.subs[k];
    && sub.received <= |sub.stream| && (sub.held ==> sub.received > 0)
    && NotesOf(s.lines, k) == Spelled(encode, sub.stream[..Handled(sub)])
    && AckedBeforeNotes(s.lines, k)
    && (Ack(k) in s.lines <==> Live(sub.stage))
    && (!Live(sub.stage) || sub.stage == Acked ==> sub.received == 0 && !sub.held)
    && (sub.stage == Drained ==> sub.closed && !sub.held && sub.received == |sub.stream|)
    && (sub.stage == Opened || sub.stage == Acked ==> s.busy == Some(k))
  }

  predicate Inv(encode: Encoder, s: State) {
    && s.written <= |s.lines|
    && (s.busy.Some? ==> s.busy.value < |s.subs| && s.subs[s.busy.value].stage in {Opened, Acked})
    && (forall k :: 0 <= k < |s.subs| ==> SubInv(encode, s, k))
    && (forall i :: 0 <= i < |s.lines| ==> (s.lines[i].Ack? || s.lines[i].Note? ==> s.lines[i].sub < |s.subs|))
  }

  lemma {:induction false} NoNotes(lines: seq<Wire>, k: nat)
    requires forall i :: 0 <= i < |lines| && lines[i].Note? ==> lines[i].sub != k
    ensures NotesOf(lines, k) == []
  {
    if |lines| > 0 {
      NoNotes(lines[..|lines| - 1], k);
    }
  }

  /** A line queued leaves every subscription it is not a note of where it was. */
  lemma QueuedLine(lines: seq<Wire>, line: Wire, k: nat)
    ensures NotesOf(lines + [line], k) == NotesOf(lines, k) + if line.Note? && line.sub == k then [line.body] else []
    ensures AckedBeforeNotes(lines, k) && (line.Note? && line.sub == k ==> Ack(k) in lines) ==>
              AckedBeforeNotes(lines + [line], k)
    ensures Ack(k) in lines + [line] <==> Ack(k) in lines || line == Ack(k)
  {
    var all := lines + [line];
    assert all[..|lines|] == lines;
    if AckedBeforeNotes(lines, k) && (line.Note? && line.sub == k ==> Ack(k) in lines) {
      forall i | 0 <= i < |all| && all[i].Note? && all[i].sub == k ensures Ack(k) in all[..i] {
        if i < |lines| {
          assert all[..i] == lines[..i] && all[i] == lines[i];
        }
      }
    }
  }

  lemma HandledOne(encode: Encoder, stream: seq<Notification>, n: nat)
    requires n < |stream|
    ensures Spelled(encode, stream[..n + 1]) == Spelled(encode, stream[..n])
              + match encode(stream[n]) case None => [] case Some(body) => [body]
  {
    assert stream[..n + 1][..n] == stream[..n];
  }

  lemma OthersKeep(encode: Encoder, s: State, t: State, k: nat)
    requires k < |s.subs| <= |t.subs| && SubInv(encode, s, k)
    requires t.subs[k] == s.subs[k] && (s.busy == Some(k) ==> t.busy == s.busy)
    requires t.lines == s.lines || exists line :: t.lines == s.lines + [line] && !(line.Note? && line.sub == k) && line != Ack(k)
    ensures SubInv(encode, t, k)
  {
    if t.lines != s.lines {
      var line :| t.lines == s.lines + [line] && !(line.Note? && line.sub == k) && line != Ack(k);
      QueuedLine(s.lines, line, k);
    }
  }

  lemma SubscribeKeeps(encode: Encoder, s: State)
    requires Inv(encode, s)
    ensures Inv(encode, Step(encode, s, Subscribe))
  {
    var t := Step(encode, s, Subscribe);
    if t != s {
      var n := |s.subs|;
      NoNotes(s.lines, n);
      assert t.subs[n].stream[..0] == [];
      assert SubInv(encode, t, n);
      forall k | 0 <= k < n ensures SubInv(encode, t, k) { OthersKeep(encode, s, t, k); }
    }
  }

  lemma AcknowledgeKeeps(encode: Encoder, s: State, spelled: bool)
    requires Inv(encode, s)
    ensures Inv(encode, Step(encode, s, Acknowledge(spelled)))
  {
    var t := Step(encode, s, Acknowledge(spelled));
    if t != s {
      var k := s.busy.value;
      assert SubInv(encode, s, k);
      QueuedLine(s.lines, Ack(k), k);
      assert SubInv(encode, t, k);
      forall j | 0 <= j < |s.subs| && j != k ensures SubInv(encode, t, j) { OthersKeep(encode, s, t, j); }
    }
  }

  lemma SendMoves(encode: Encoder, s: State, k: nat)
    requires Holds(s, k) && SubInv(encode, s, k)
    ensures SubInv(encode, SendStep(encode, s, k), k)
  {
    var sub := s.subs[k];
    var n := sub.received - 1;
    HandledOne(encode, sub.stream, n);
    match encode(sub.stream[n])
    case None =>
      assert Handled(SendStep(encode, s, k).subs[k]) == n + 1;
    case Some(body) =>
      if s.open {
        QueuedLine(s.lines, Note(k, body), k);
        assert Handled(SendStep(encode, s, k).subs[k]) == n + 1;
      }
  }

  lemma SendSpares(encode: Encoder, s: State, k: nat, j: nat)
    requires Holds(s, k) && j < |s.subs| && j != k && SubInv(encode, s, j)
    ensures SubInv(encode, SendStep(encode, s, k), j)
  {
    OthersKeep(encode, s, SendStep(encode, s, k), j);
  }

  lemma SendKeeps(encode: Encoder, s: State, k: nat)
    requires Inv(encode, s)
    ensures Inv(encode, SendStep(encode, s, k))
  {
    if Holds(s, k) {
      var t := SendStep(encode, s, k);
      assert SubInv(encode, s, k);
      SendMoves(encode, s, k);
      forall j | 0 <= j < |s.subs| && j != k ensures SubInv(encode, t, j) {
        SendSpares(encode, s, k, j);
      }
    }
  }

  /** Steps that queue nothing and touch one subscription's stream or stage. */
  predicate Quiet(a: Action) {
    a.Spawn? || a.Produce? || a.Close? || a.Receive?
  }

  function Touched(s: State, a: Action): nat
    requires Quiet(a) && (a.Spawn? ==> s.busy.Some?)
  {
    if a.Spawn? then s.busy.value else a.sub
  }

  /** With the handled part of the stream and the standing of the ACK unchanged, the invariant is too. */
  lemma SameStanding(encode: Encoder, s: State, t: State, k: nat)
    requires k < |s.subs| == |t.subs| && SubInv(encode, s, k) && t.lines == s.lines
    requires var u, v := s.subs[k], t.subs[k];
      && Live(u.stage) == Live(v.stage)
      && v.received <= |v.stream| && (v.held ==> v.received > 0)
      && v.stream[..Handled(v)] == u.stream[..Handled(u)]
      && (!Live(v.stage) || v.stage == Acked ==> v.received == 0 && !v.held)
      && (v.stage == Drained ==> v.closed && !v.held && v.received == |v.stream|)
      && (v.stage == Opened || v.stage == Acked ==> t.busy == Some(k))
    ensures SubInv(encode, t, k)
  {
  }

  lemma QuietMoves(encode: Encoder, s: State, a: Action)
    requires Quiet(a) && Step(encode, s, a) != s
    requires Touched(s, a) < |s.subs| && SubInv(encode, s, Touched(s, a))
    ensures SubInv(encode, Step(encode, s, a), Touched(s, a))
  {
    var k, t := Touched(s, a), Step(encode, s, a);
    var sub := s.subs[k];
    match a {
      case Produce(_, note) =>
        StillThere(sub.stream, note, Handled(sub));
        SameStanding(encode, s, t, k);
      case Close(_) => SameStanding(encode, s, t, k);
      case Receive(_) => SameStanding(encode, s, t, k);
      case Spawn => SameStanding(encode, s, t, k);
    }
  }

  lemma StillThere(stream: seq<Notification>, note: Notification, n: nat)
    requires n <= |stream|
    ensures (stream + [note])[..n] == stream[..n]
  {
  }

  lemma QuietSpares(encode: Encoder, s: State, a: Action, j: nat)
    requires Quiet(a) && Step(encode, s, a) != s
    requires j < |s.subs| && j != Touched(s, a) && SubInv(encode, s, j)
    ensures SubInv(encode, Step(encode, s, a), j)
  {
    OthersKeep(encode, s, Step(encode, s, a), j);
  }

  lemma QuietKeeps(encode: Encoder, s: State, a: Action)
    requires Inv(encode, s) && Quiet(a)
    ensures Inv(encode, Step(encode, s, a))
  {
    var t := Step(encode, s, a);
    if t != s {
      var k := Touched(s, a);
      assert SubInv(encode, s, k);
      QuietMoves(encode, s, a);
      forall j | 0 <= j < |s.subs| && j != k ensures SubInv(encode, t, j) {
        assert SubInv(encode, s, j);
        QuietSpares(encode, s, a, j);
      }
    }
  }

  lemma RestKeeps(encode: Encoder, s: State, a: Action)
    requires Inv(encode, s)
    requires a.Answer? || a.Write? || a.HostGone?
    ensures Inv(encode, Step(encode, s, a))
  {
    var t := Step(encode, s, a);
    forall k | 0 <= k < |s.subs| ensures SubInv(encode, t, k) { OthersKeep(encode, s, t, k); }
  }

  lemma {:induction false} RunKeeps(encode: Encoder, actions: seq<Action>)
    ensures Inv(encode, Run(encode, actions))
  {
    if |actions| > 0 {
      var s, a := Run(encode, actions[..|actions| - 1]), actions[|actions| - 1];
      RunKeeps(encode, actions[..|actions| - 1]);
      match a
      case Subscribe => SubscribeKeeps(encode, s);
      case Acknowledge(spelled) => AcknowledgeKeeps(encode, s, spelled);
      case Send(k) => SendKeeps(encode, s, k);
      case Spawn => QuietKeeps(encode, s, a);
      case Produce(_, _) => QuietKeeps(encode, s, a);
      case Close(_) => QuietKeeps(encode, s, a);
      case Receive(_) => QuietKeeps(encode, s, a);
      case Answer(_) => RestKeeps(encode, s, a);
      case Write => RestKeeps(encode, s, a);
      case HostGone => RestKeeps(encode, s, a);
    }
  }

  // ---- what the host sees -----------------------------------------------------------

  /** The lines that reached stdout. */
  function HostView(s: State): seq<Wire>
    requires s.written <= |s.lines|
  {
    s.lines[..s.written]
  }

  lemma {:induction false} NotesOfPrefix(lines: seq<Wire>, n: nat, k: nat)
    requires n <= |lines|
    ensures NotesOf(lines[..n], k) <= NotesOf(lines, k)
  {
    if n < |lines| {
      NotesOfPrefix(lines[..|lines| - 1], n, k);
      assert lines[..|lines| - 1][..n] == lines[..n];
    } else {
      assert lines[..n] == lines;
    }
  }

  lemma {:induction false} SpelledPrefix(encode: Encoder, stream: seq<Notification>, n: nat)
    requires n <= |stream|
    ensures Spelled(encode, stream[..n]) <= Spelled(encode, stream)
  {
    if n < |stream| {
      SpelledPrefix(encode, stream[..|stream| - 1], n);
      assert stream[..|stream| - 1][..n] == stream[..n];
    } else {
      assert stream[..n] == stream;
    }
  }

  /**
   * In every interleaving, and at every moment: the host reads a subscription's ACK before any of its
   * notifications, the notifications in stream order and without a gap, and none at all from a
   * subscription whose ACK could not be queued.
   */
  lemma HostReadsInOrder(encode: Encoder, actions: seq<Action>, k: nat)
    requires k < |Run(encode, actions).subs|
    ensures var s := Run(encode, actions);
      && s.written <= |s.lines|
      && AckedBeforeNotes(HostView(s), k)
      && NotesOf(HostView(s), k) <= Spelled(encode, s.subs[k].stream)
      && (s.subs[k].stage == Refused ==> NotesOf(HostView(s), k) == [] && Ack(k) !in HostView(s))
  {
    var s := Run(encode, actions);
    RunKeeps(encode, actions);
    assert SubInv(encode, s, k);
    var view := HostView(s);
    forall i | 0 <= i < |view| && view[i].Note? && view[i].sub == k ensures Ack(k) in view[..i] {
      assert view[..i] == s.lines[..i];
    }
    NotesOfPrefix(s.lines, s.written, k);
    SpelledPrefix(encode, s.subs[k].stream, Handled(s.subs[k]));
    PrefixOfPrefix(NotesOf(view, k), NotesOf(s.lines, k), Spelled(encode, s.subs[k].stream));
    if s.subs[k].stage == Refused {
      assert s.subs[k].stream[..0] == [];
    }
  }

  lemma PrefixOfPrefix(a: seq<string>, b: seq<string>, c: seq<string>)
    requires a <= b && b <= c
    ensures a <= c
  {
  }

  /** A forwarder that saw its stream end lost nothing. */
  lemma DrainedIsComplete(encode: Encoder, actions: seq<Action>, k: nat)
    requires k < |Run(encode, actions).subs| && Run(encode, actions).subs[k].stage == Drained
    ensures var s := Run(encode, actions);
      NotesOf(s.lines, k) == Spelled(encode, s.subs[k].stream)
  {
    var s := Run(encode, actions);
    RunKeeps(encode, actions);
    assert SubInv(encode, s, k);
    assert s.subs[k].stream[..|s.subs[k].stream|] == s.subs[k].stream;
  }

  /** Once every notification has a line, a subscription's lines are a prefix of its stream, one for one. */
  lemma {:induction false} AllSpelled(encode: Encoder, stream: seq<Notification>)
    requires forall note :: note in stream ==> encode(note).Some?
    ensures |Spelled(encode, stream)| == |stream|
    ensures forall i :: 0 <= i < |stream| ==> Some(Spelled(encode, stream)[i]) == encode(stream[i])
  {
    if |stream| > 0 {
      AllSpelled(encode, stream[..|stream| - 1]);
      assert stream[|stream| - 1] in stream;
    }
  }

  /** Spawning first would not do: a forwarder running before the ACK breaks the order. */
  lemma SpawnFirstBreaks(encode: Encoder, note: Notification)
    requires encode(note).Some?
    ensures var early := State([], 0, true, true, Some(0), [Sub(Forwarding, [note], false, 0, false)]);
      !AckedBeforeNotes(Step(encode, Step(encode, early, Receive(0)), Send(0)).lines, 0)
  {
    var early := State([], 0, true, true, Some(0), [Sub(Forwarding, [note], false, 0, false)]);
    var lines := Step(encode, Step(encode, early, Receive(0)), Send(0)).lines;
    assert lines[0] == Note(0, encode(note).value) && Ack(0) !in lines[..0];
  }

  // ---- nothing is held back -------------------------------------------------------------

  /** A forwarder is cut off only by a closed writer, and a closed writer never opens again. */
  lemma {:induction false} CutMeansClosed(encode: Encoder, actions: seq<Action>, k: nat)
    requires k < |Run(encode, actions).subs| && Run(encode, actions).subs[k].stage == Cut
    ensures !Run(encode, actions).open
  {
    if |actions| > 0 {
      var s, a := Run(encode, actions[..|actions| - 1]), actions[|actions| - 1];
      CutStep(encode, s, a, k);
      if k < |s.subs| && s.subs[k].stage == Cut {
        CutMeansClosed(encode, actions[..|actions| - 1], k);
      }
    }
  }

  lemma CutStep(encode: Encoder, s: State, a: Action, k: nat)
    requires k < |Step(encode, s, a).subs| && Step(encode, s, a).subs[k].stage == Cut
    ensures !s.open || (k < |s.subs| && s.subs[k].stage == Cut)
    ensures !s.open ==> !Step(encode, s, a).open
  {
  }

  /** Only a closed ACK, or one that cannot be spelled, refuses a subscription. */
  lemma SubscribeProceeds(encode: Encoder, s: State)
    requires Inv(encode, s) && s.serving && s.busy.None? && s.open
    ensures var t := Step(encode, Step(encode, Step(encode, s, Subscribe), Acknowledge(true)), Spawn);
      && t.lines == s.lines + [Ack(|s.subs|)] && t.serving && t.busy.None? && t.open
      && t.subs == s.subs + [Sub(Forwarding, [], false, 0, false)]
  {
  }

  /** A subscription whose ACK cannot be sent leaves nothing behind but the end of serving. */
  lemma SubscribeRefused(encode: Encoder, s: State, spelled: bool)
    requires Inv(encode, s) && s.serving && s.busy.None? && !(spelled && s.open)
    ensures var t := Step(encode, Step(encode, Step(encode, s, Subscribe), Acknowledge(spelled)), Spawn);
      t == s.(serving := false, subs := s.subs + [Sub(Refused, [], false, 0, false)])
  {
  }

  /** A fresh server serves on an open writer, and has said nothing. */
  lemma StartsServing(encode: Encoder)
    ensures var s := Run(encode, []);
      s.open && s.serving && s.busy.None? && s.lines == [] && s.subs == [] && s.written == 0
  {
  }

  /** Every other answer is queued as it is; one that cannot be ends the serving. */
  lemma AnswerIsQueued(encode: Encoder, s: State, text: string)
    requires s.serving && s.busy.None?
    ensures Step(encode, s, Answer(text)) ==
            if s.open then s.(lines := s.lines + [Reply(text)]) else s.(serving := false)
  {
  }

  /** A server that stopped, or is in the middle of a subscription, takes no request. */
  lemma BusyTakesNothing(encode: Encoder, s: State, text: string)
    requires !s.serving || s.busy.Some?
    ensures Step(encode, s, Answer(text)) == s == Step(encode, s, Subscribe)
  {
  }

  /** The host leaves, and the writer writes, one line at a time while it is there. */
  lemma HostSteps(encode: Encoder, s: State)
    ensures Step(encode, s, HostGone) == s.(open := false)
    ensures s.open && s.written < |s.lines| ==> Step(encode, s, Write) == s.(written := s.written + 1)
    ensures !s.open || s.written >= |s.lines| ==> Step(encode, s, Write) == s
  {
  }

  /** A turn of a forwarder on an open writer handles exactly the next notification, and the forwarder goes on. */
  lemma TurnHandlesOne(encode: Encoder, s: State, k: nat)
    requires k < |s.subs| && s.subs[k].stage == Forwarding && !s.subs[k].held && s.subs[k].received < |s.subs[k].stream|
    requires s.open
    ensures var sub := s.subs[k];
      var spelled := encode(sub.stream[sub.received]);
      var t := Step(encode, Step(encode, s, Receive(k)), Send(k));
      && t.lines == (match spelled case None => s.lines case Some(body) => s.lines + [Note(k, body)])
      && t == s.(lines := t.lines, subs := s.subs[k := sub.(received := sub.received + 1)])
  {
  }

  /** What puts a notification on a stream, and what does not. */
  lemma StreamsAreProduced(encode: Encoder, s: State, a: Action, k: nat)
    requires k < |s.subs|
    ensures k < |Step(encode, s, a).subs|
    ensures Step(encode, s, a).subs[k].stream ==
            s.subs[k].stream + if a.Produce? && a.sub == k && !s.subs[k].closed then [a.note] else []
    ensures Step(encode, s, a).subs[k].closed == (s.subs[k].closed || a == Close(k))
  {
  }

  function RunFrom(encode: Encoder, s: State, actions: seq<Action>): State {
    if |actions| == 0 then s
    else Step(encode, RunFrom(encode, s, actions[..|actions| - 1]), actions[|actions| - 1])
  }

  lemma {:induction false} RunOn(encode: Encoder, actions: seq<Action>, more: seq<Action>)
    ensures Run(encode, actions + more) == RunFrom(encode, Run(encode, actions), more)
  {
    if |more| == 0 {
      assert actions + more == actions;
    } else {
      var all := actions + more;
      assert all[..|all| - 1] == actions + more[..|more| - 1];
      RunOn(encode, actions, more[..|more| - 1]);
    }
  }

  /** `n` turns of forwarder `k`. */
  function Turns(k: nat, n: nat): seq<Action> {
    if n == 0 then [] else Turns(k, n - 1) + [Receive(k), Send(k)]
  }

  lemma RunTwo(encode: Encoder, s: State, actions: seq<Action>, a: Action, b: Action)
    ensures RunFrom(encode, s, actions + [a, b]) == Step(encode, Step(encode, RunFrom(encode, s, actions), a), b)
  {
    var one, two := actions + [a], actions + [a, b];
    assert one[..|one| - 1] == actions && two[..|two| - 1] == one;
  }

  lemma {:induction false} TurnsCatchUp(encode: Encoder, s: State, k: nat, n: nat)
    requires k < |s.subs| && s.subs[k].stage == Forwarding && !s.subs[k].held && s.subs[k].received + n <= |s.subs[k].stream|
    requires s.open
    ensures var t := RunFrom(encode, s, Turns(k, n));
      && t.open && t.written == s.written && |t.lines| >= |s.lines| && |t.subs| == |s.subs|
      && t.subs[k] == s.subs[k].(received := s.subs[k].received + n)
  {
    if n > 0 {
      TurnsCatchUp(encode, s, k, n - 1);
      RunTwo(encode, s, Turns(k, n - 1), Receive(k), Send(k));
      TurnHandlesOne(encode, RunFrom(encode, s, Turns(k, n - 1)), k);
    }
  }

  lemma {:induction false} WritesCatchUp(encode: Encoder, s: State, n: nat)
    requires s.open && s.written + n <= |s.lines|
    ensures RunFrom(encode, s, seq(n, _ => Write)) == s.(written := s.written + n)
  {
    if n > 0 {
      WritesCatchUp(encode, s, n - 1);
      assert seq(n, _ => Write)[..n - 1] == seq(n - 1, _ => Write);
    }
  }

  /** Its own turns are all a forwarder needs to have handled everything on its stream. */
  lemma ForwarderCatchesUp(encode: Encoder, s: State, k: nat) returns (turns: seq<Action>)
    requires Inv(encode, s) && s.open && k < |s.subs| && s.subs[k].stage == Forwarding
    ensures forall a :: a in turns ==> a == Receive(k) || a == Send(k)
    ensures var t := RunFrom(encode, s, turns);
      && t.open && |t.subs| == |s.subs|
      && t.subs[k] == s.subs[k].(received := |s.subs[k].stream|, held := false)
  {
    assert SubInv(encode, s, k);
    var first := if s.subs[k].held then [Send(k)] else [];
    var s1 := RunFrom(encode, s, first);
    FinishHeld(encode, s, k);
    var n := |s.subs[k].stream| - s.subs[k].received;
    TurnsCatchUp(encode, s1, k, n);
    RunFromOn(encode, s, first, Turns(k, n));
    TurnsAreTurns(k, n);
    turns := first + Turns(k, n);
  }

  /**
   * At any moment of any run, a forwarder whose writer is open needs only its own turns and the writer's: then the
   * host has read every notification that was put on the stream so far and can be spelled, in order.
   */
  lemma HostCatchesUp(encode: Encoder, actions: seq<Action>, k: nat) returns (more: seq<Action>)
    requires var s := Run(encode, actions);
      s.open && k < |s.subs| && s.subs[k].stage == Forwarding
    ensures forall a :: a in more ==> a == Receive(k) || a == Send(k) || a == Write
    ensures var t := Run(encode, actions + more);
      && t.open && k < |t.subs| && t.written == |t.lines|
      && t.subs[k].stream == Run(encode, actions).subs[k].stream
      && NotesOf(HostView(t), k) == Spelled(encode, t.subs[k].stream)
  {
    RunKeeps(encode, actions);
    var turns := ForwarderCatchesUp(encode, Run(encode, actions), k);
    RunOn(encode, actions, turns);
    RunKeeps(encode, actions + turns);
    var t := Run(encode, actions + turns);
    var writes := seq(|t.lines| - t.written, _ => Write);
    WritesCatchUp(encode, t, |writes|);
    RunOn(encode, actions + turns, writes);
    more := turns + writes;
    assert actions + more == actions + turns + writes;
    AllHandled(encode, t, k);
    assert t.lines[..|t.lines|] == t.lines;
  }

  lemma AllHandled(encode: Encoder, s: State, k: nat)
    requires Inv(encode, s) && k < |s.subs| && !s.subs[k].held && s.subs[k].received == |s.subs[k].stream|
    ensures NotesOf(s.lines, k) == Spelled(encode, s.subs[k].stream)
  {
    assert SubInv(encode, s, k);
    assert s.subs[k].stream[..|s.subs[k].stream|] == s.subs[k].stream;
  }

  lemma FinishHeld(encode: Encoder, s: State, k: nat)
    requires Inv(encode, s) && s.open && k < |s.subs| && s.subs[k].stage == Forwarding
    ensures var t := RunFrom(encode, s, if s.subs[k].held then [Send(k)] else []);
      && t.open && |t.subs| == |s.subs| && t.written == s.written && |t.lines| >= |s.lines|
      && t.subs[k] == s.subs[k].(held := false)
  {
    assert SubInv(encode, s, k);
    assert [Send(k)][..0] == [];
    if s.subs[k].held {
      assert RunFrom(encode, s, [Send(k)]) == Step(encode, s, Send(k));
    }
  }

  lemma {:induction false} RunFromOn(encode: Encoder, s: State, first: seq<Action>, more: seq<Action>)
    ensures RunFrom(encode, s, first + more) == RunFrom(encode, RunFrom(encode, s, first), more)
  {
    if |more| == 0 {
      assert first + more == first;
    } else {
      var all := first + more;
      assert all[..|all| - 1] == first + more[..|more| - 1];
      RunFromOn(encode, s, first, more[..|more| - 1]);
    }
  }

  lemma {:induction false} TurnsAreTurns(k: nat, n: nat)
    ensures forall a :: a in Turns(k, n) ==> a == Receive(k) || a == Send(k)
  {
    if n > 0 {
      TurnsAreTurns(k, n - 1);
    }
  }

  // ---- the server ---------------------------------------------------------------------

  /** The plugin's side, its state in the fields the steps update. */
  class AgentIdeServer {
    const encode: Encoder
    const writer: Writer
    var serving: bool
    var busy: Option<nat>
    var subs: seq<Sub>
    var written: nat

    constructor (encode: Encoder)
      ensures fresh(writer) && this.encode == encode && Abs() == INITIAL
    {
      this.encode := encode;
      this.writer := new Writer();
      serving, busy, subs, written := true, None, [], 0;
    }

    ghost function Abs(): State
      reads this, writer
    {
      State(writer.lines, written, writer.open, serving, busy, subs)
    }

    /** `state/subscribe`, first half: the handler returns the receiving end of a stream. */
    method OpenStream()
      requires serving && busy.None?
      modifies this
      ensures Abs() == Step(encode, old(Abs()), Subscribe)
    {
      busy := Some(|subs|);
      subs := subs + [Sub(Opened, [], false, 0, false)];
    }

    /** The ACK step: queued on the spot, so that nothing of the stream can overtake it. */
    method SendAck(spelled: bool) returns (shutdown: bool)
      requires busy.Some? && busy.value < |subs| && subs[busy.value].stage == Opened
      modifies this, writer
      ensures Abs() == Step(encode, old(Abs()), Acknowledge(spelled))
      ensures shutdown <==> subs[old(busy.value)].stage == Refused
    {
      var k := busy.value;
      var acked := false;
      if spelled {
        acked := writer.SendLine(Ack(k));
      }
      if !acked {
        subs := subs[k := subs[k].(stage := Refused)];
        busy, serving := None, false;
        return true;
      }
      subs := subs[k := subs[k].(stage := Acked)];
      return false;
    }

    /** Only then is the forwarder spawned. */
    method SpawnForwarder()
      requires busy.Some? && busy.value < |subs| && subs[busy.value].stage == Acked
      modifies this
      ensures Abs() == Step(encode, old(Abs()), Spawn)
    {
      subs := subs[busy.value := subs[busy.value].(stage := Forwarding)];
      busy := None;
    }

    /** The subscribe arm of `handle_line`, with nothing in between. */
    method HandleSubscribe(spelled: bool) returns (shutdown: bool)
      requires serving && busy.None?
      modifies this, writer
      ensures var begun := Step(encode, old(Abs()), Subscribe);
        var acked := Step(encode, begun, Acknowledge(spelled));
        Abs() == Step(encode, acked, Spawn)
      ensures shutdown <==> !(spelled && old(writer.open))
      ensures |subs| == |old(subs)| + 1 && subs[..|old(subs)|] == old(subs) && busy.None?
      ensures shutdown ==> !serving && writer.lines == old(writer.lines) && subs[|old(subs)|].stage == Refused
      ensures !shutdown ==> serving && writer.lines == old(writer.lines) + [Ack(|old(subs)|)]
                            && subs[|old(subs)|].stage == Forwarding
    {
      OpenStream();
      shutdown := SendAck(spelled);
      if !shutdown {
        SpawnForwarder();
      }
    }

    /** One turn of a forwarder's loop: wait for the next notification, then queue its line. */
    method ForwardOne(k: nat) returns (more: bool)
      requires k < |subs| && subs[k].stage == Forwarding && !subs[k].held
      requires subs[k].received < |subs[k].stream| || (subs[k].closed && subs[k].received == |subs[k].stream|)
      modifies this, writer
      ensures Abs() == Step(encode, Step(encode, old(Abs()), Receive(k)), Send(k))
      ensures more <==> old(subs[k].received < |subs[k].stream|
                            && (encode(subs[k].stream[subs[k].received]).None? || writer.open))
      ensures more ==> k < |subs| && subs[k] == old(subs[k]).(received := old(subs[k]).received + 1)
    {
      var sub := subs[k];
      if sub.received == |sub.stream| {
        subs := subs[k := sub.(stage := Drained)];
        return false;
      }
      sub := sub.(received := sub.received + 1, held := true);
      subs := subs[k := sub];
      match encode(sub.stream[sub.received - 1]) {
        case None =>
          subs := subs[k := sub.(held := false)];
          more := true;
        case Some(body) =>
          var sent := writer.SendLine(Note(k, body));
          if sent {
            subs := subs[k := sub.(held := false)];
            more := true;
          } else {
            subs := subs[k := sub.(stage := Cut)];
            more := false;
          }
      }
    }
  }
}
