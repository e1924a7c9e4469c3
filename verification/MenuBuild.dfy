/** Which tasks the menu lists, and under which heading. */
module MenuBuild {
  import opened Wrappers
  import opened TaskStates
  import Menu

  /** Instants and durations in nanoseconds. */
  const RECENT_WINDOW: int := 24 * 60 * 60 * 1_000_000_000
  const RECENT_LIMIT: nat := 5

  datatype Task = Task(id: int, state: TaskState, workflow: string, title: string, finishedAt: Option<int>)

  datatype Section = Attention | Working | Hidden

  /** Where a task is listed: a hidden one may still be recent. */
  datatype Place = NeedsYou | BeingWorkedOn | Recent | Nowhere

  /** What one reading of the state found: the tasks with a wait reason, and those at a permission prompt. */
  datatype Facts = Facts(notes: set<int>, awaiting: set<int>, now: int)

  function Classify(state: TaskState, hasWaitReason: bool, awaitingApproval: bool): Section {
    match state
    case Pending | WaitingInput | Verifying | Escalated => Attention
    case Queued => if hasWaitReason then Attention else Hidden
    case Running => if awaitingApproval then Attention else Working
    case Dispatched | Publishing => Working
    case Done | Failed | Cancelled | Skipped => Hidden
  }

  predicate IsRecent(state: TaskState, finishedAt: Option<int>, now: int) {
    IsRetryable(state) && finishedAt.Some? && now - finishedAt.value < RECENT_WINDOW
  }

  predicate AtPrompt(task: Task, facts: Facts) {
    task.state == Running && task.id in facts.awaiting
  }

  function PlaceOf(task: Task, facts: Facts): Place {
    match Classify(task.state, task.id in facts.notes, AtPrompt(task, facts))
    case Attention => NeedsYou
    case Working => BeingWorkedOn
    case Hidden => if IsRecent(task.state, task.finishedAt, facts.now) then Recent else Nowhere
  }

  /** The tasks of one place, in the order they were read. */
  function Select(tasks: seq<Task>, place: Place, facts: Facts): seq<Task> {
    if |tasks| == 0 then []
    else
      var last := tasks[|tasks| - 1];
      Select(tasks[..|tasks| - 1], place, facts) + if PlaceOf(last, facts) == place then [last] else []
  }

  /** `None` orders before every instant. */
  predicate NoLater(a: Option<int>, b: Option<int>) {
    a.None? || (b.Some? && a.value <= b.value)
  }

  function Insert(task: Task, sorted: seq<Task>): seq<Task> {
    if sorted == [] || NoLater(sorted[0].finishedAt, task.finishedAt) then [task] + sorted
    else [sorted[0]] + Insert(task, sorted[1..])
  }

  /** The stable sort, newest first. */
  function NewestFirst(tasks: seq<Task>): seq<Task> {
    if tasks == [] then [] else Insert(tasks[0], NewestFirst(tasks[1..]))
  }

  function Newest(tasks: seq<Task>): seq<Task> {
    var sorted := NewestFirst(tasks);
    if |sorted| > RECENT_LIMIT then sorted[..RECENT_LIMIT] else sorted
  }

  function StateName(state: TaskState): string {
    match state
    case Queued => "queued"
    case Pending => "pending"
    case Dispatched => "dispatched"
    case Running => "running"
    case WaitingInput => "waiting_input"
    case Verifying => "verifying"
    case Escalated => "escalated"
    case Publishing => "publishing"
    case Done => "done"
    case Failed => "failed"
    case Cancelled => "cancelled"
    case Skipped => "skipped"
  }

  function RowOf(task: Task, facts: Facts): Menu.Row {
    Menu.Row(task.id, StateName(task.state), task.workflow, task.title,
             if AtPrompt(task, facts) then Some("approval") else None)
  }

  function Rows(tasks: seq<Task>, facts: Facts): (rows: seq<Menu.Row>)
    ensures |rows| == |tasks|
  {
    seq(|tasks|, i requires 0 <= i < |tasks| => RowOf(tasks[i], facts))
  }

  /** Read the tasks once and assemble the model. */
  method Build(tasks: seq<Task>, facts: Facts, running: bool, degraded: seq<string>) returns (model: Menu.Model)
    ensures model.attention == Rows(Select(tasks, NeedsYou, facts), facts)
    ensures model.working == Rows(Select(tasks, BeingWorkedOn, facts), facts)
    ensures model.recent == Rows(Newest(Select(tasks, Recent, facts)), facts)
    ensures model.attentionCount == |Select(tasks, NeedsYou, facts)|
    ensures model.degraded == degraded && model.error.None?
    ensures model.availability == (if !running then Menu.Down else if degraded == [] then Menu.Ok else Menu.Degraded)
  {
    var attention: seq<Task>, working: seq<Task>, recent: seq<Task> := [], [], [];
    for i := 0 to |tasks|
      invariant attention == Select(tasks[..i], NeedsYou, facts)
      invariant working == Select(tasks[..i], BeingWorkedOn, facts)
      invariant recent == Select(tasks[..i], Recent, facts)
    {
      assert tasks[..i + 1][..i] == tasks[..i];
      match PlaceOf(tasks[i], facts) {
        case NeedsYou => attention := attention + [tasks[i]];
        case BeingWorkedOn => working := working + [tasks[i]];
        case Recent => recent := recent + [tasks[i]];
        case Nowhere =>
      }
    }
    assert tasks[..|tasks|] == tasks;
    var availability := if !running then Menu.Down else if degraded == [] then Menu.Ok else Menu.Degraded;
    model := Menu.Model(availability, |attention|, Rows(attention, facts), Rows(working, facts),
                        Rows(Newest(recent), facts), degraded, None);
  }

  // ---- what the sections mean ----------------------------------------------------------------

  /** Every task is listed in its place, and nowhere else. */
  lemma {:induction false} ListedInItsPlace(tasks: seq<Task>, facts: Facts, task: Task, place: Place)
    ensures task in Select(tasks, place, facts) <==> task in tasks && PlaceOf(task, facts) == place
  {
    if |tasks| > 0 {
      ListedInItsPlace(tasks[..|tasks| - 1], facts, task, place);
      assert tasks == tasks[..|tasks| - 1] + [tasks[|tasks| - 1]];
    }
  }

  /** No reading of a task is lost or listed twice. */
  lemma {:induction false} SectionsAddUp(tasks: seq<Task>, facts: Facts)
    ensures |Select(tasks, NeedsYou, facts)| + |Select(tasks, BeingWorkedOn, facts)|
            + |Select(tasks, Recent, facts)| + |Select(tasks, Nowhere, facts)| == |tasks|
  {
    if |tasks| > 0 {
      SectionsAddUp(tasks[..|tasks| - 1], facts);
    }
  }

  /**
   * The badge can always be cleared: no finished task is counted. Every unfinished one is shown, but a
   * queued task that is merely next in line. What is listed as recent is what `retry` accepts.
   */
  lemma SectionsMean(task: Task, facts: Facts)
    ensures IsTerminal(task.state) ==> PlaceOf(task, facts) in {Recent, Nowhere}
    ensures !IsTerminal(task.state) ==>
              (PlaceOf(task, facts) == Nowhere <==> task.state == Queued && task.id !in facts.notes)
    ensures PlaceOf(task, facts) == Recent <==>
              IsRetryable(task.state) && task.finishedAt.Some? && facts.now - task.finishedAt.value < RECENT_WINDOW
    ensures AtPrompt(task, facts) ==> PlaceOf(task, facts) == NeedsYou
  {
  }

  predicate IsNewestFirst(tasks: seq<Task>) {
    forall i, j :: 0 <= i < j < |tasks| ==> NoLater(tasks[j].finishedAt, tasks[i].finishedAt)
  }

  function Picked(task: Task, at: Option<int>): seq<Task> {
    if task.finishedAt == at then [task] else []
  }

  /** The tasks that finished at `at`, in order. */
  function FinishedAt(tasks: seq<Task>, at: Option<int>): seq<Task> {
    if tasks == [] then [] else Picked(tasks[0], at) + FinishedAt(tasks[1..], at)
  }

  lemma FinishedAtCons(task: Task, tasks: seq<Task>, at: Option<int>)
    ensures FinishedAt([task] + tasks, at) == Picked(task, at) + FinishedAt(tasks, at)
  {
    assert ([task] + tasks)[1..] == tasks;
  }

  lemma {:induction false} InsertPermutes(task: Task, sorted: seq<Task>)
    ensures multiset(Insert(task, sorted)) == multiset([task]) + multiset(sorted)
  {
    if sorted != [] && !NoLater(sorted[0].finishedAt, task.finishedAt) {
      InsertPermutes(task, sorted[1..]);
      assert sorted == [sorted[0]] + sorted[1..];
    }
  }

  lemma {:induction false} InsertSorts(task: Task, sorted: seq<Task>)
    requires IsNewestFirst(sorted)
    ensures IsNewestFirst(Insert(task, sorted))
  {
    if sorted != [] && !NoLater(sorted[0].finishedAt, task.finishedAt) {
      var rest, below := sorted[1..], Insert(task, sorted[1..]);
      InsertSorts(task, rest);
      InsertPermutes(task, rest);
      forall j | 0 <= j < |below| ensures NoLater(below[j].finishedAt, sorted[0].finishedAt) {
        assert below[j] in multiset(below);
        assert below[j] == task || below[j] in rest;
      }
    }
  }

  lemma {:induction false} InsertIsStable(task: Task, sorted: seq<Task>, at: Option<int>)
    ensures FinishedAt(Insert(task, sorted), at) == Picked(task, at) + FinishedAt(sorted, at)
  {
    if sorted == [] || NoLater(sorted[0].finishedAt, task.finishedAt) {
      FinishedAtCons(task, sorted, at);
    } else {
      var first, rest := sorted[0], sorted[1..];
      InsertIsStable(task, rest, at);
      FinishedAtCons(first, Insert(task, rest), at);
      assert Picked(task, at) == [] || Picked(first, at) == [];
    }
  }

  /** The sort loses nothing, puts the newest first, and keeps equal ones in the order they were read. */
  lemma {:induction false} SortIsStable(tasks: seq<Task>, at: Option<int>)
    ensures multiset(NewestFirst(tasks)) == multiset(tasks)
    ensures IsNewestFirst(NewestFirst(tasks))
    ensures FinishedAt(NewestFirst(tasks), at) == FinishedAt(tasks, at)
  {
    if tasks != [] {
      SortIsStable(tasks[1..], at);
      InsertPermutes(tasks[0], NewestFirst(tasks[1..]));
      InsertSorts(tasks[0], NewestFirst(tasks[1..]));
      InsertIsStable(tasks[0], NewestFirst(tasks[1..]), at);
      assert tasks == [tasks[0]] + tasks[1..];
    }
  }

  /** What is cut from the recent list is no newer than anything kept, and nothing is cut below the limit. */
  lemma NewestAreKept(tasks: seq<Task>) returns (dropped: seq<Task>)
    ensures multiset(Newest(tasks) + dropped) == multiset(tasks)
    ensures IsNewestFirst(Newest(tasks))
    ensures forall i, j :: 0 <= i < |Newest(tasks)| && 0 <= j < |dropped| ==>
                             NoLater(dropped[j].finishedAt, Newest(tasks)[i].finishedAt)
    ensures |Newest(tasks)| == if |tasks| > RECENT_LIMIT then RECENT_LIMIT else |tasks|
  {
    SortIsStable(tasks, None);
    var sorted, kept := NewestFirst(tasks), Newest(tasks);
    dropped := sorted[|kept|..];
    assert sorted == kept + dropped;
    assert |multiset(sorted)| == |multiset(tasks)|;
  }

  // ---- by the letters and numbers --------------------------------------------------------------

  /** Sections keep the order of the reading. */
  lemma {:induction false} SelectInOrder(a: seq<Task>, b: seq<Task>, place: Place, facts: Facts)
    ensures Select(a + b, place, facts) == Select(a, place, facts) + Select(b, place, facts)
  {
    if |b| == 0 {
      assert a + b == a;
    } else {
      var all := a + b;
      assert all[..|all| - 1] == a + b[..|b| - 1];
      SelectInOrder(a, b[..|b| - 1], place, facts);
    }
  }

  /** A row shows its own task, and says what it waits on exactly at a prompt. */
  lemma RowShowsTask(tasks: seq<Task>, facts: Facts, k: nat)
    requires k < |tasks|
    ensures var task, row := tasks[k], Rows(tasks, facts)[k];
      && row.taskId == task.id && row.state == StateName(task.state)
      && row.workflow == task.workflow && row.title == task.title
      && row.waitingFor == if task.state == Running && task.id in facts.awaiting then Some("approval") else None
  {
  }

  /** States by their names. */
  lemma StateNames()
    ensures StateName(Queued) == "queued" && StateName(Pending) == "pending" && StateName(Dispatched) == "dispatched"
    ensures StateName(Running) == "running" && StateName(WaitingInput) == "waiting_input"
    ensures StateName(Verifying) == "verifying" && StateName(Escalated) == "escalated"
    ensures StateName(Publishing) == "publishing" && StateName(Done) == "done" && StateName(Failed) == "failed"
    ensures StateName(Cancelled) == "cancelled" && StateName(Skipped) == "skipped"
  {
  }

  /** What needs a human, what an agent works on: the sets of states, and the three facts that move one. */
  lemma PlacesListed(task: Task, facts: Facts)
    ensures PlaceOf(task, facts) == NeedsYou <==>
            || task.state in {Pending, WaitingInput, Verifying, Escalated}
            || (task.state == Queued && task.id in facts.notes)
            || (task.state == Running && task.id in facts.awaiting)
    ensures PlaceOf(task, facts) == BeingWorkedOn <==>
            || task.state in {Dispatched, Publishing}
            || (task.state == Running && task.id !in facts.awaiting)
    ensures PlaceOf(task, facts) == Recent <==>
            && task.state in {Failed, Cancelled, Skipped}
            && task.finishedAt.Some? && facts.now - task.finishedAt.value < 86_400_000_000_000
  {
  }

  /** The recent list is the first five of the sorted ones. */
  lemma FiveAreKept(tasks: seq<Task>)
    ensures |Newest(tasks)| <= 5 && Newest(tasks) == NewestFirst(tasks)[..|Newest(tasks)|]
    ensures |tasks| <= 5 ==> |Newest(tasks)| == |tasks|
    ensures |tasks| >= 5 ==> |Newest(tasks)| == 5
  {
    SortIsStable(tasks, None);
    assert |multiset(NewestFirst(tasks))| == |multiset(tasks)|;
  }
}
