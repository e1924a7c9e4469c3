/** Reporting degradations on change only, so that the host's entries stay the reporter's own. */
module Degradation {
  import opened Wrappers
  import opened Runtime

  type Entries = map<string, string>

  datatype Op = Report(key: string, message: string) | Clear(key: string)

  /** What happens around the reporters: an operation on some clone, a line of somebody else's, the host leaving. */
  datatype Event = Do(op: Op) | Other(line: Wire) | Gone

  /** The shared record, the queue, and whether the host still listens. */
  datatype State = State(sent: Entries, lines: seq<Wire>, open: bool)

  /** The host keeps one entry per key: replaced while active, removed when not. */
  function HostApply(entries: Entries, notice: Notice): Entries {
    if notice.active then entries[notice.key := notice.message] else entries - {notice.key}
  }

  /** The degradations among the lines, in order. */
  function Notices(lines: seq<Wire>): seq<Notice> {
    if |lines| == 0 then []
    else
      var last := lines[|lines| - 1];
      Notices(lines[..|lines| - 1]) + if last.Degraded? then [last.notice] else []
  }

  function Replay(notices: seq<Notice>): Entries {
    if |notices| == 0 then map[]
    else HostApply(Replay(notices[..|notices| - 1]), notices[|notices| - 1])
  }

  /** The change an operation makes to the record, if it makes one, as the line it sends. */
  function Change(sent: Entries, op: Op): Option<Notice> {
    match op
    case Report(key, message) =>
      if key in sent && sent[key] == message then None else Some(Notice(key, message, true))
    case Clear(key) =>
      if key in sent then Some(Notice(key, "", false)) else None
  }

  function Enqueue(s: State, line: Wire): State {
    if s.open then s.(lines := s.lines + [line]) else s
  }

  function Step(s: State, e: Event): State {
    match e
    case Gone => s.(open := false)
    case Other(line) => if line.Degraded? then s else Enqueue(s, line)
    case Do(op) =>
      match Change(s.sent, op)
      case None => s
      case Some(notice) => Enqueue(s.(sent := HostApply(s.sent, notice)), Degraded(notice))
  }

  function Run(s: State, events: seq<Event>): State {
    if |events| == 0 then s else Step(Run(s, events[..|events| - 1]), events[|events| - 1])
  }

  const FRESH: State := State(map[], [], true)

  /** Every line changes what the host holds. */
  predicate EachMatters(notices: seq<Notice>) {
    forall k {:trigger notices[k]} :: 0 <= k < |notices| ==>
      HostApply(Replay(notices[..k]), notices[k]) != Replay(notices[..k])
  }

  predicate Agrees(s: State) {
    && EachMatters(Notices(s.lines))
    && (s.open ==> Replay(Notices(s.lines)) == s.sent)
  }

  lemma MattersSnoc(notices: seq<Notice>, last: Notice)
    requires EachMatters(notices) && HostApply(Replay(notices), last) != Replay(notices)
    ensures EachMatters(notices + [last])
    ensures Replay(notices + [last]) == HostApply(Replay(notices), last)
  {
    var all := notices + [last];
    assert all[..|notices|] == notices;
    forall k | 0 <= k < |all| ensures HostApply(Replay(all[..k]), all[k]) != Replay(all[..k]) {
      if k < |notices| {
        assert all[..k] == notices[..k] && all[k] == notices[k];
      }
    }
  }

  lemma ChangeMatters(sent: Entries, op: Op)
    requires Change(sent, op).Some?
    ensures HostApply(sent, Change(sent, op).value) != sent
  {
    var notice := Change(sent, op).value;
    var next := HostApply(sent, notice);
    assert notice.key in next <==> notice.active;
  }

  lemma NoticesSnoc(lines: seq<Wire>, line: Wire)
    ensures Notices(lines + [line]) == if line.Degraded? then Notices(lines) + [line.notice] else Notices(lines)
  {
    assert (lines + [line])[..|lines|] == lines;
  }

  lemma StepAgrees(s: State, e: Event)
    requires Agrees(s)
    ensures Agrees(Step(s, e))
  {
    match e
    case Gone =>
    case Other(line) => NoticesSnoc(s.lines, line);
    case Do(op) =>
      if Change(s.sent, op).Some? && s.open {
        var notice := Change(s.sent, op).value;
        ChangeMatters(s.sent, op);
        NoticesSnoc(s.lines, Degraded(notice));
        MattersSnoc(Notices(s.lines), notice);
      }
  }

  /**
   * After any operations on any clones, whatever other lines are sent between them: while the host
   * listens, replaying the queue gives the reporter's own record, and no line was redundant.
   */
  lemma {:induction false} HostAgrees(events: seq<Event>)
    ensures Agrees(Run(FRESH, events))
  {
    if |events| > 0 {
      HostAgrees(events[..|events| - 1]);
      StepAgrees(Run(FRESH, events[..|events| - 1]), events[|events| - 1]);
    }
  }

  /** A host that left keeps what it was last told. */
  lemma {:induction false} GoneIsFinal(s: State, events: seq<Event>)
    requires !s.open
    ensures !Run(s, events).open && Run(s, events).lines == s.lines
  {
    if |events| > 0 {
      GoneIsFinal(s, events[..|events| - 1]);
    }
  }

  predicate LastOf(notices: seq<Notice>, i: int, j: nat) {
    && -1 <= i < j < |notices|
    && (i >= 0 ==> notices[i].key == notices[j].key)
    && forall m :: i < m < j ==> notices[m].key != notices[j].key
  }

  lemma {:induction false} EntryStays(notices: seq<Notice>, i: int, n: nat, key: string)
    requires -1 <= i < n <= |notices|
    requires i >= 0 ==> notices[i].key == key
    requires forall m :: i < m < n ==> notices[m].key != key
    ensures key in Replay(notices[..n]) <==> i >= 0 && notices[i].active
    ensures key in Replay(notices[..n]) ==> Replay(notices[..n])[key] == notices[i].message
  {
    if n > 0 {
      assert notices[..n][..n - 1] == notices[..n - 1];
      if i < n - 1 {
        EntryStays(notices, i, n - 1, key);
      }
    }
  }

  /** The lines of one key: the first is active, and each differs from the one before it. */
  lemma ConsecutiveLinesDiffer(notices: seq<Notice>, i: int, j: nat)
    requires EachMatters(notices) && LastOf(notices, i, j)
    ensures i < 0 ==> notices[j].active
    ensures i >= 0 && notices[j].active && notices[i].active ==> notices[j].message != notices[i].message
    ensures i >= 0 ==> notices[j].active || notices[i].active
  {
    var key, before := notices[j].key, Replay(notices[..j]);
    EntryStays(notices, i, j, key);
    assert key !in before ==> before - {key} == before;
    assert key in before && before[key] == notices[j].message ==> before[key := notices[j].message] == before;
    assert HostApply(before, notices[j]) != before;
  }

  // ---- the reporter -------------------------------------------------------------------

  /** What was last reported under each key. Shared by all clones of a reporter. */
  class SentRecord {
    var sent: Entries

    constructor ()
      ensures sent == map[]
    {
      sent := map[];
    }
  }

  class DegradedReporter {
    const writer: Writer
    const record: SentRecord

    constructor (writer: Writer)
      ensures this.writer == writer && fresh(record) && record.sent == map[]
    {
      this.writer := writer;
      this.record := new SentRecord();
    }

    /** A clone shares the writer and the record. */
    constructor Clone(original: DegradedReporter)
      ensures writer == original.writer && record == original.record
    {
      this.writer := original.writer;
      this.record := original.record;
    }

    ghost function Abs(): State
      reads writer, record
    {
      State(record.sent, writer.lines, writer.open)
    }

    /** Record and line change together, and only when the message is news. */
    method Report(key: string, message: string)
      modifies record, writer
      ensures Abs() == Step(old(Abs()), Do(Op.Report(key, message)))
    {
      if key in record.sent && record.sent[key] == message {
        return;
      }
      record.sent := record.sent[key := message];
      Send(key, message, true);
    }

    /** Likewise for the end of a degradation. */
    method Clear(key: string)
      modifies record, writer
      ensures Abs() == Step(old(Abs()), Do(Op.Clear(key)))
    {
      if key in record.sent {
        record.sent := record.sent - {key};
        Send(key, "", false);
      }
    }

    method Send(key: string, message: string, active: bool)
      modifies writer
      ensures Abs() == Enqueue(old(Abs()), Wire.Degraded(Notice(key, message, active)))
    {
      var ok := writer.SendLine(Wire.Degraded(Notice(key, message, active)));
    }
  }

  function Done(ops: seq<(nat, Op)>): (events: seq<Event>)
    ensures |events| == |ops|
  {
    seq(|ops|, i requires 0 <= i < |ops| => Do(ops[i].1))
  }

  /** Operations on any of the clones are operations on the one shared state. */
  method Drive(clones: seq<DegradedReporter>, ops: seq<(nat, Op)>)
    requires clones != []
    requires forall c :: c in clones ==> c.writer == clones[0].writer && c.record == clones[0].record
    requires forall k :: 0 <= k < |ops| ==> ops[k].0 < |clones|
    modifies clones[0].writer, clones[0].record
    ensures clones[0].Abs() == Run(old(clones[0].Abs()), Done(ops))
  {
    ghost var events := Done(ops);
    ghost var start := clones[0].Abs();
    for i := 0 to |ops|
      invariant clones[0].Abs() == Run(start, events[..i])
    {
      var clone := clones[ops[i].0];
      assert clone in clones;
      assert events[..i + 1][..i] == events[..i] && events[..i + 1][i] == Do(ops[i].1);
      match ops[i].1 {
        case Report(key, message) => clone.Report(key, message);
        case Clear(key) => clone.Clear(key);
      }
      assert clones[0].Abs() == clone.Abs();
    }
    assert events[..|ops|] == events;
  }

  // ---- the record is what was reported -------------------------------------------------------

  /** The last operation on `key`, if there was one. */
  function LastOn(events: seq<Event>, key: string): Option<Op> {
    if |events| == 0 then None
    else
      var last := events[|events| - 1];
      if last.Do? && last.op.key == key then Some(last.op) else LastOn(events[..|events| - 1], key)
  }

  /**
   * A key is in the record with a message exactly when the last operation on it reported that message: with
   * `HostAgrees`, the host has been told everything that was reported and nothing that was cleared.
   */
  lemma {:induction false} RecordIsReported(events: seq<Event>, key: string, message: string)
    ensures var sent := Run(FRESH, events).sent;
      (key in sent && sent[key] == message) <==> LastOn(events, key) == Some(Op.Report(key, message))
    ensures key in Run(FRESH, events).sent <==>
            LastOn(events, key).Some? && LastOn(events, key).value.Report?
  {
    if |events| > 0 {
      RecordIsReported(events[..|events| - 1], key, message);
    }
  }

  /** What the host holds, in the operations' own terms, as long as it listens. */
  lemma HostIsTold(events: seq<Event>, key: string, message: string)
    requires Run(FRESH, events).open
    ensures var told := Replay(Notices(Run(FRESH, events).lines));
      (key in told && told[key] == message) <==> LastOn(events, key) == Some(Op.Report(key, message))
  {
    HostAgrees(events);
    RecordIsReported(events, key, message);
  }

  /** The host listens until it leaves, and other lines are queued as long as it does. */
  lemma {:induction false} ListensUntilGone(events: seq<Event>)
    ensures Run(FRESH, events).open <==> Gone !in events
  {
    if |events| > 0 {
      assert events == events[..|events| - 1] + [events[|events| - 1]];
      ListensUntilGone(events[..|events| - 1]);
    }
  }

  /** A line of somebody else's is queued as it is, and changes no record. */
  lemma OthersPass(s: State, line: Wire)
    requires !line.Degraded?
    ensures Step(s, Other(line)) == if s.open then s.(lines := s.lines + [line]) else s
  {
  }

  /** The end of a degradation is told without a message. */
  lemma ClearIsBare(sent: Entries, key: string)
    ensures key in sent ==> Change(sent, Op.Clear(key)) == Some(Notice(key, "", false))
  {
  }
}
