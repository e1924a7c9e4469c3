/** The task state machine. */
module TaskStates {
  import opened Wrappers

  datatype TaskState =
    | Queued | Pending | Dispatched | Running | WaitingInput | Verifying | Escalated | Publishing
    | Done | Failed | Cancelled | Skipped

  datatype TaskEvent =
    | NeedRepoConfirmation | RepoConfirmed | Dispatch | Start | WaitInput | ResumeInput | BeginPublish
    | SelfReportComplete | ApproveVerification | VerificationFailed | Escalate | Complete | Fail | Cancel
    | Skip | Retry | Reopen

  predicate IsTerminal(s: TaskState) {
    s == Done || s == Failed || s == Cancelled || s == Skipped
  }

  /** What `retry` accepts. */
  predicate IsRetryable(s: TaskState) {
    s == Failed || s == Cancelled || s == Skipped
  }

  /** The next state, or `None` where the event is illegal. */
  function Transition(from: TaskState, event: TaskEvent): Option<TaskState> {
    match event
    case NeedRepoConfirmation => if from == Queued then Some(Pending) else None
    case RepoConfirmed => if from == Pending then Some(Queued) else None
    case Dispatch => if from == Queued then Some(Dispatched) else None
    case Skip => if from == Queued then Some(Skipped) else None
    case Start => if from == Dispatched || from == Escalated then Some(Running) else None
    case WaitInput => if from == Running || from == Escalated then Some(WaitingInput) else None
    case ResumeInput => if from == WaitingInput then Some(Running) else None
    case BeginPublish => if from == Running || from == WaitingInput || from == Escalated then Some(Publishing) else None
    case SelfReportComplete => if from == Running || from == WaitingInput || from == Escalated then Some(Verifying) else None
    case ApproveVerification => if from == Verifying then Some(Publishing) else None
    case VerificationFailed => if from == Verifying then Some(Running) else None
    case Complete => if from == Publishing then Some(Done) else None
    case Retry => if IsRetryable(from) then Some(Queued) else None
    case Reopen => if IsTerminal(from) then Some(Queued) else None
    case Escalate => if IsTerminal(from) then None else Some(Escalated)
    case Fail => if IsTerminal(from) then None else Some(Failed)
    case Cancel => if IsTerminal(from) then None else Some(Cancelled)
  }

  /** What may happen to an unfinished task in any state. */
  function AnyTime(event: TaskEvent): Option<TaskState> {
    match event
    case Escalate => Some(Escalated)
    case Fail => Some(Failed)
    case Cancel => Some(Cancelled)
    case _ => None
  }

  /** What may happen to a task, state by state. */
  function Way(from: TaskState, event: TaskEvent): Option<TaskState> {
    match from
    case Queued =>
      (match event
       case NeedRepoConfirmation => Some(Pending)
       case Dispatch => Some(Dispatched)
       case Skip => Some(Skipped)
       case _ => AnyTime(event))
    case Pending =>
      (match event
       case RepoConfirmed => Some(Queued)
       case _ => AnyTime(event))
    case Dispatched =>
      (match event
       case Start => Some(Running)
       case _ => AnyTime(event))
    case Running =>
      (match event
       case WaitInput => Some(WaitingInput)
       case BeginPublish => Some(Publishing)
       case SelfReportComplete => Some(Verifying)
       case _ => AnyTime(event))
    case WaitingInput =>
      (match event
       case ResumeInput => Some(Running)
       case BeginPublish => Some(Publishing)
       case SelfReportComplete => Some(Verifying)
       case _ => AnyTime(event))
    case Verifying =>
      (match event
       case ApproveVerification => Some(Publishing)
       case VerificationFailed => Some(Running)
       case _ => AnyTime(event))
    case Escalated =>
      (match event
       case Start => Some(Running)
       case WaitInput => Some(WaitingInput)
       case BeginPublish => Some(Publishing)
       case SelfReportComplete => Some(Verifying)
       case _ => AnyTime(event))
    case Publishing =>
      (match event
       case Complete => Some(Done)
       case _ => AnyTime(event))
    case Done =>
      (match event
       case Reopen => Some(Queued)
       case _ => None)
    case Failed =>
      (match event
       case Retry => Some(Queued)
       case Reopen => Some(Queued)
       case _ => None)
    case Cancelled =>
      (match event
       case Retry => Some(Queued)
       case Reopen => Some(Queued)
       case _ => None)
    case Skipped =>
      (match event
       case Retry => Some(Queued)
       case Reopen => Some(Queued)
       case _ => None)
  }

  /** The table by events and the ways by states are one machine. */
  lemma WaysAreTransitions(from: TaskState, event: TaskEvent)
    ensures Transition(from, event) == Way(from, event)
  {
  }

  /** A finished task only goes back to the queue, by a retry unless it is done, or by a new message. */
  lemma FinishedOnlyRequeues(from: TaskState, event: TaskEvent)
    ensures IsTerminal(from) <==> Transition(from, Cancel).None? && Transition(from, Fail).None? && Transition(from, Escalate).None?
    ensures IsTerminal(from) && Transition(from, event).Some? ==> Transition(from, event) == Some(Queued)
    ensures IsRetryable(from) <==> Transition(from, Retry).Some?
    ensures IsTerminal(from) <==> IsRetryable(from) || from == Done
  {
  }
}
