/** The state database: version-checked transitions, and the side columns that are written without one. */
module StateDb {
  import opened Wrappers
  import opened TaskStates

  type TaskId = nat

  /** A message of the conversation: when it was handed to an agent, if it was. */
  type Message = Option<nat>

  datatype Row = Row(
    state: TaskState,
    version: nat,
    repo: Option<string>,
    worktree: Option<string>,
    branch: Option<string>,
    baseCommit: Option<string>,
    messages: seq<Message>)

  /** One row of the audit log. */
  datatype Audit = Audit(id: TaskId, from: TaskState, to: TaskState)

  datatype Store = Store(rows: map<TaskId, Row>, events: seq<Audit>)

  /** A task as somebody read it: its id and the version the caller decided on. */
  datatype TaskRef = TaskRef(id: TaskId, version: nat)

  datatype StateError = NotFound | Conflict(actual: TaskState) | Illegal(from: TaskState, event: TaskEvent)

  function RefOf(id: TaskId, row: Row): TaskRef {
    TaskRef(id, row.version)
  }

  /** A stale version wins over an illegal event; nothing is written on an error. */
  function Apply(s: Store, ref: TaskRef, event: TaskEvent): Result<Store, StateError> {
    if ref.id !in s.rows then Err(NotFound)
    else
      var row := s.rows[ref.id];
      if row.version != ref.version then Err(Conflict(row.state))
      else
        match Transition(row.state, event)
        case None => Err(Illegal(row.state, event))
        case Some(to) =>
          Ok(Store(s.rows[ref.id := row.(state := to, version := row.version + 1)],
                   s.events + [Audit(ref.id, row.state, to)]))
  }

  // ---- messages ------------------------------------------------------------------------

  predicate HasUnsent(messages: seq<Message>) {
    exists k :: 0 <= k < |messages| && messages[k].None?
  }

  /** When the newest handed-over message was handed over. */
  function NewestBatch(messages: seq<Message>): Option<nat> {
    if |messages| == 0 then None
    else if messages[|messages| - 1].Some? then messages[|messages| - 1]
    else NewestBatch(messages[..|messages| - 1])
  }

  /** The messages handed over at `at` are unsent again. */
  function TakeBack(messages: seq<Message>, at: nat): seq<Message> {
    if |messages| == 0 then []
    else [if messages[0] == Some(at) then None else messages[0]] + TakeBack(messages[1..], at)
  }

  function CountAt(messages: seq<Message>, at: nat): nat {
    if |messages| == 0 then 0 else (if messages[0] == Some(at) then 1 else 0) + CountAt(messages[1..], at)
  }

  /** The batch the failed run was given comes back, unless something is waiting to be sent already. */
  function Requeued(messages: seq<Message>): (seq<Message>, nat) {
    if HasUnsent(messages) || NewestBatch(messages).None? then (messages, 0)
    else (TakeBack(messages, NewestBatch(messages).value), CountAt(messages, NewestBatch(messages).value))
  }

  lemma {:induction false} NewestBatchIsThere(messages: seq<Message>)
    ensures NewestBatch(messages).Some? ==> NewestBatch(messages) in messages
    ensures messages != [] && !HasUnsent(messages) ==> NewestBatch(messages).Some?
  {
    if |messages| > 0 && messages[|messages| - 1].None? {
      NewestBatchIsThere(messages[..|messages| - 1]);
    }
  }

  lemma {:induction false} TakenBackIsUnsent(messages: seq<Message>, at: nat)
    requires Some(at) in messages
    ensures HasUnsent(TakeBack(messages, at)) && CountAt(messages, at) > 0
  {
    if messages[0] == Some(at) {
      assert TakeBack(messages, at)[0].None?;
    } else {
      assert messages == [messages[0]] + messages[1..];
      TakenBackIsUnsent(messages[1..], at);
      var rest := TakeBack(messages[1..], at);
      var k :| 0 <= k < |rest| && rest[k].None?;
      assert TakeBack(messages, at)[k + 1] == rest[k];
    }
  }

  /** A requeued conversation always has something to say, if it ever had. */
  lemma RequeuedSpeaks(messages: seq<Message>)
    requires messages != []
    ensures HasUnsent(Requeued(messages).0)
    ensures HasUnsent(messages) ==> Requeued(messages) == (messages, 0)
    ensures !HasUnsent(messages) ==> Requeued(messages).1 > 0
  {
    NewestBatchIsThere(messages);
    if !HasUnsent(messages) {
      TakenBackIsUnsent(messages, NewestBatch(messages).value);
    }
  }

  /** `retry_task`, moving the task to `repo` in the same transaction when one is given. */
  function ApplyRetry(s: Store, ref: TaskRef, repo: Option<string>): Result<Store, StateError> {
    match Apply(s, ref, Retry)
    case Err(e) => Err(e)
    case Ok(after) =>
      var row := after.rows[ref.id];
      var back := row.(messages := Requeued(row.messages).0);
      var moved := if repo.Some? then back.(repo := repo, branch := None, baseCommit := None) else back;
      Ok(after.(rows := after.rows[ref.id := moved]))
  }

  // ---- the database ----------------------------------------------------------------------

  class StateDb {
    var rows: map<TaskId, Row>
    var events: seq<Audit>

    constructor ()
      ensures Abs() == Store(map[], [])
    {
      rows, events := map[], [];
    }

    ghost function Abs(): Store
      reads this
    {
      Store(rows, events)
    }

    method GetTask(id: TaskId) returns (row: Option<Row>)
      ensures row == if id in rows then Some(rows[id]) else None
    {
      row := if id in rows then Some(rows[id]) else None;
    }

    method ApplyEvent(ref: TaskRef, event: TaskEvent) returns (r: Result<TaskState, StateError>)
      modifies this
      ensures match Apply(old(Abs()), ref, event)
        case Ok(after) => Abs() == after && r == Ok(after.rows[ref.id].state)
        case Err(e) => Abs() == old(Abs()) && r == Err(e)
    {
      if ref.id !in rows {
        return Err(NotFound);
      }
      var row := rows[ref.id];
      if row.version != ref.version {
        return Err(Conflict(row.state));
      }
      match Transition(row.state, event) {
        case None => return Err(Illegal(row.state, event));
        case Some(to) =>
          rows := rows[ref.id := row.(state := to, version := row.version + 1)];
          events := events + [Audit(ref.id, row.state, to)];
          return Ok(to);
      }
    }

    /** Transition, batch and repository in one transaction; the result counts the messages taken back. */
    method RetryTask(ref: TaskRef, repo: Option<string>) returns (r: Result<(TaskState, nat), StateError>)
      modifies this
      ensures match ApplyRetry(old(Abs()), ref, repo)
        case Ok(after) =>
          Abs() == after && r == Ok((after.rows[ref.id].state, Requeued(old(rows)[ref.id].messages).1))
        case Err(e) => Abs() == old(Abs()) && r == Err(e)
    {
      var applied := ApplyEvent(ref, Retry);
      match applied {
        case Err(e) => return Err(e);
        case Ok(to) =>
          var row := rows[ref.id];
          var (messages, requeued) := Requeued(row.messages);
          row := row.(messages := messages);
          if repo.Some? {
            row := row.(repo := repo, branch := None, baseCommit := None);
          }
          rows := rows[ref.id := row];
          return Ok((to, requeued));
      }
    }
  }

  // ---- what one write changes ------------------------------------------------------------

  /** The error, if there is one: an unknown task first, then a stale version, then an illegal event. */
  lemma ApplyRefuses(s: Store, ref: TaskRef, event: TaskEvent)
    ensures Apply(s, ref, event) == Err(NotFound) <==> ref.id !in s.rows
    ensures ref.id in s.rows && s.rows[ref.id].version != ref.version ==>
              Apply(s, ref, event) == Err(Conflict(s.rows[ref.id].state))
    ensures ref.id in s.rows && s.rows[ref.id].version == ref.version && Way(s.rows[ref.id].state, event).None? ==>
              Apply(s, ref, event) == Err(Illegal(s.rows[ref.id].state, event))
  {
    if ref.id in s.rows {
      WaysAreTransitions(s.rows[ref.id].state, event);
    }
  }

  /** Otherwise one row moves one way and one version on, and the log gains what happened. */
  lemma ApplyWrites(s: Store, ref: TaskRef, event: TaskEvent, other: TaskId)
    requires ref.id in s.rows && s.rows[ref.id].version == ref.version && Way(s.rows[ref.id].state, event).Some?
    ensures Apply(s, ref, event).Ok?
    ensures var row, after := s.rows[ref.id], Apply(s, ref, event).value;
      && after.rows.Keys == s.rows.Keys
      && after.rows[ref.id] == Row(Way(row.state, event).value, row.version + 1, row.repo, row.worktree, row.branch,
                                   row.baseCommit, row.messages)
      && (other in s.rows && other != ref.id ==> after.rows[other] == s.rows[other])
      && after.events == s.events + [Audit(ref.id, row.state, Way(row.state, event).value)]
  {
    WaysAreTransitions(s.rows[ref.id].state, event);
  }

  /** The newest batch is that of the last message handed over. */
  lemma {:induction false} NewestBatchIsLast(messages: seq<Message>)
    ensures NewestBatch(messages).Some? ==>
              exists k :: 0 <= k < |messages| && messages[k] == NewestBatch(messages)
                          && forall j :: k < j < |messages| ==> messages[j].None?
    ensures NewestBatch(messages).None? <==> forall k :: 0 <= k < |messages| ==> messages[k].None?
  {
    if |messages| > 0 && messages[|messages| - 1].None? {
      var init := messages[..|messages| - 1];
      NewestBatchIsLast(init);
      if NewestBatch(messages).Some? {
        var k :| 0 <= k < |init| && init[k] == NewestBatch(init) && forall j :: k < j < |init| ==> init[j].None?;
        assert messages[k] == NewestBatch(messages);
      } else {
        assert forall k :: 0 <= k < |init| ==> messages[k] == init[k];
      }
    }
  }

  /** Exactly the messages handed over at `at` come back, and they are counted. */
  lemma {:induction false} TakenBackExactly(messages: seq<Message>, at: nat)
    ensures |TakeBack(messages, at)| == |messages|
    ensures forall k :: 0 <= k < |messages| ==>
              TakeBack(messages, at)[k] == if messages[k] == Some(at) then None else messages[k]
    ensures CountAt(messages, at) == multiset(messages)[Some(at)]
  {
    if |messages| > 0 {
      TakenBackExactly(messages[1..], at);
      assert messages == [messages[0]] + messages[1..];
    }
  }

  /** A requeue takes the newest batch back, unless something waits to be sent or nothing was ever handed over. */
  lemma RequeuedExactly(messages: seq<Message>)
    ensures HasUnsent(messages) || messages == [] ==> Requeued(messages) == (messages, 0)
    ensures !HasUnsent(messages) && messages != [] ==>
              && messages[|messages| - 1].Some?
              && var at := messages[|messages| - 1].value;
              && Requeued(messages) == (TakeBack(messages, at), multiset(messages)[Some(at)])
  {
    if !HasUnsent(messages) && messages != [] {
      TakenBackExactly(messages, messages[|messages| - 1].value);
    }
  }

  /** A retry is the event, the batch and, if one is named, the repository, in one write. */
  lemma RetryWrites(s: Store, ref: TaskRef, repo: Option<string>, other: TaskId)
    ensures match Apply(s, ref, Retry)
      case Err(e) => ApplyRetry(s, ref, repo) == Err(e)
      case Ok(moved) =>
        && ApplyRetry(s, ref, repo).Ok?
        && var row, after := s.rows[ref.id], ApplyRetry(s, ref, repo).value;
        && after.events == moved.events && after.rows.Keys == s.rows.Keys
        && (other in s.rows && other != ref.id ==> after.rows[other] == s.rows[other])
        && after.rows[ref.id] == Row(Queued, row.version + 1,
                                     if repo.Some? then repo else row.repo, row.worktree,
                                     if repo.Some? then None else row.branch,
                                     if repo.Some? then None else row.baseCommit,
                                     Requeued(row.messages).0)
  {
  }
}
