/** Cancelling and retrying one task, raced by every other writer of the database. */
module TaskControl {
  import opened Wrappers
  import opened TaskStates
  import opened StateDb

  type Path = string

  /** Everything the operations share with other processes. */
  datatype World = World(store: Store, disk: set<Path>)

  /**
   * What somebody else may do between two steps of an operation: transitions and retries are
   * version-checked; the side columns and the disk are not.
   */
  datatype Rival =
    | Event(ref: TaskRef, event: TaskEvent)
    | Requeue(ref: TaskRef, target: Option<string>)
    | SetRepo(id: TaskId, repo: string)
    | SetWorktree(id: TaskId, path: Path, branch: Option<string>, baseCommit: string)
    | SetBranch(id: TaskId, branch: Option<string>)
    | AddMessage(id: TaskId)
    | Handover(id: TaskId, at: nat)
    | CreateDir(path: Path)
    | RemoveDir(path: Path)

  function Edit(s: Store, id: TaskId, row: Row): Store {
    if id in s.rows then s.(rows := s.rows[id := row]) else s
  }

  function Sent(messages: seq<Message>, at: nat): seq<Message> {
    seq(|messages|, i requires 0 <= i < |messages| => if messages[i].None? then Some(at) else messages[i])
  }

  function RivalStep(w: World, r: Rival): World {
    match r
    case Event(ref, event) =>
      (match Apply(w.store, ref, event) case Ok(s) => w.(store := s) case Err(_) => w)
    case Requeue(ref, repo) =>
      (match ApplyRetry(w.store, ref, repo) case Ok(s) => w.(store := s) case Err(_) => w)
    case SetRepo(id, repo) =>
      if id in w.store.rows then w.(store := Edit(w.store, id, w.store.rows[id].(repo := Some(repo)))) else w
    case SetWorktree(id, path, branch, base) =>
      if id in w.store.rows then
        var row := w.store.rows[id];
        w.(store := Edit(w.store, id, row.(worktree := Some(path), branch := branch,
                                           baseCommit := if row.baseCommit.Some? then row.baseCommit else Some(base))))
      else w
    case SetBranch(id, branch) =>
      if id in w.store.rows then w.(store := Edit(w.store, id, w.store.rows[id].(branch := branch))) else w
    case AddMessage(id) =>
      if id in w.store.rows then
        w.(store := Edit(w.store, id, w.store.rows[id].(messages := w.store.rows[id].messages + [None])))
      else w
    case Handover(id, at) =>
      if id in w.store.rows then
        w.(store := Edit(w.store, id, w.store.rows[id].(messages := Sent(w.store.rows[id].messages, at))))
      else w
    case CreateDir(path) => w.(disk := w.disk + {path})
    case RemoveDir(path) => w.(disk := w.disk - {path})
  }

  function RunRivals(w: World, window: seq<Rival>): World {
    if |window| == 0 then w else RivalStep(RunRivals(w, window[..|window| - 1]), window[|window| - 1])
  }

  // ---- what a version guards ---------------------------------------------------------------

  /** A row is never lost, its version never falls, and an unchanged version means an unchanged state. */
  predicate Guarded(before: Store, after: Store, id: TaskId) {
    id in before.rows ==>
      && id in after.rows
      && before.rows[id].version <= after.rows[id].version
      && (before.rows[id].version == after.rows[id].version ==> before.rows[id].state == after.rows[id].state)
  }

  lemma StepGuards(w: World, r: Rival, id: TaskId)
    ensures Guarded(w.store, RivalStep(w, r).store, id)
  {
  }

  lemma {:induction false} VersionGuards(w: World, window: seq<Rival>, id: TaskId)
    ensures Guarded(w.store, RunRivals(w, window).store, id)
  {
    if |window| > 0 {
      VersionGuards(w, window[..|window| - 1], id);
      StepGuards(RunRivals(w, window[..|window| - 1]), window[|window| - 1], id);
    }
  }

  predicate Reopens(r: Rival, id: TaskId) {
    r.Event? && r.ref.id == id && r.event == Reopen
  }

  /** No sequence of cancels, retries or other writes leaves `done`: only a reopened conversation does. */
  lemma {:induction false} DoneIsKept(w: World, window: seq<Rival>, id: TaskId)
    requires id in w.store.rows && w.store.rows[id].state == Done
    requires forall r :: r in window ==> !Reopens(r, id)
    ensures id in RunRivals(w, window).store.rows
    ensures RunRivals(w, window).store.rows[id].state == Done
    ensures RunRivals(w, window).store.rows[id].version == w.store.rows[id].version
  {
    if |window| > 0 {
      var init, last := window[..|window| - 1], window[|window| - 1];
      assert last in window;
      DoneIsKept(w, init, id);
      DoneStep(RunRivals(w, init), last, id);
    }
  }

  lemma DoneStep(w: World, r: Rival, id: TaskId)
    requires id in w.store.rows && w.store.rows[id].state == Done && !Reopens(r, id)
    ensures id in RivalStep(w, r).store.rows
    ensures RivalStep(w, r).store.rows[id].state == Done
    ensures RivalStep(w, r).store.rows[id].version == w.store.rows[id].version
  {
  }

  // ---- what no version guards --------------------------------------------------------------

  /** The worktree column of task `id` after `window`: only `set_worktree` writes it. */
  function LastRecorded(window: seq<Rival>, id: TaskId, initially: Option<Path>): Option<Path> {
    if |window| == 0 then initially
    else
      var last := window[|window| - 1];
      if last.SetWorktree? && last.id == id then Some(last.path) else LastRecorded(window[..|window| - 1], id, initially)
  }

  /** Whether directory `path` is there after `window`. */
  predicate Present(window: seq<Rival>, path: Path, initially: bool) {
    if |window| == 0 then initially
    else
      var last := window[|window| - 1];
      if last.CreateDir? && last.path == path then true
      else if last.RemoveDir? && last.path == path then false
      else Present(window[..|window| - 1], path, initially)
  }

  lemma RecordStep(w: World, r: Rival, id: TaskId)
    requires id in w.store.rows
    ensures id in RivalStep(w, r).store.rows
    ensures RivalStep(w, r).store.rows[id].worktree
         == if r.SetWorktree? && r.id == id then Some(r.path) else w.store.rows[id].worktree
  {
  }

  lemma {:induction false} RecordRun(w: World, window: seq<Rival>, id: TaskId)
    requires id in w.store.rows
    ensures id in RunRivals(w, window).store.rows
    ensures RunRivals(w, window).store.rows[id].worktree == LastRecorded(window, id, w.store.rows[id].worktree)
  {
    if |window| > 0 {
      RecordRun(w, window[..|window| - 1], id);
      RecordStep(RunRivals(w, window[..|window| - 1]), window[|window| - 1], id);
    }
  }

  lemma {:induction false} DirRun(w: World, window: seq<Rival>, path: Path)
    ensures path in RunRivals(w, window).disk <==> Present(window, path, path in w.disk)
  {
    if |window| > 0 {
      DirRun(w, window[..|window| - 1], path);
    }
  }

  /** Writers of the database never look at the disk. */
  lemma {:induction false} StoreRun(w: World, disk: set<Path>, window: seq<Rival>)
    ensures RunRivals(w.(disk := disk), window).store == RunRivals(w, window).store
  {
    if |window| > 0 {
      StoreRun(w, disk, window[..|window| - 1]);
      StoreStep(RunRivals(w, window[..|window| - 1]), RunRivals(w.(disk := disk), window[..|window| - 1]), window[|window| - 1]);
    }
  }

  lemma StoreStep(v: World, w: World, r: Rival)
    requires v.store == w.store
    ensures RivalStep(v, r).store == RivalStep(w, r).store
  {
  }

  /** Whether a writer of `window` creates or removes directory `path`. */
  predicate Handles(window: seq<Rival>, path: Path) {
    exists k :: 0 <= k < |window| && (window[k] == CreateDir(path) || window[k] == RemoveDir(path))
  }

  /** Directories nobody handles are as they were; handled ones no longer depend on how they were. */
  lemma {:induction false} PresentUnlessHandled(window: seq<Rival>, path: Path)
    ensures Handles(window, path) <==> Present(window, path, true) == Present(window, path, false)
    ensures !Handles(window, path) ==> forall initially :: Present(window, path, initially) == initially
  {
    if |window| > 0 {
      var init, last := window[..|window| - 1], window[|window| - 1];
      PresentUnlessHandled(init, path);
      assert window == init + [last];
      if last == CreateDir(path) || last == RemoveDir(path) {
        assert window[|window| - 1] == last;
        assert Handles(window, path);
      } else {
        assert Handles(window, path) <==> Handles(init, path) by {
          if Handles(init, path) {
            var k :| 0 <= k < |init| && (init[k] == CreateDir(path) || init[k] == RemoveDir(path));
            assert window[k] == init[k];
          }
        }
      }
    }
  }

  // ---- the operations -------------------------------------------------------------------------

  datatype Reason = UnknownTask | NotCancellable | NotRetryable | UnknownRepo | Occupied | LostRace

  datatype Outcome = Refused(reason: Reason) | Applied(from: TaskState, to: TaskState, requeued: Option<nat>)

  /**
   * What git answers about a branch; `None` where a command could not be started or was killed at its timeout,
   * and `Some(None)` where the unpublished commits could not be counted.
   */
  datatype BranchView = BranchView(default: Option<string>, descends: Option<bool>, unpublished: Option<Option<nat>>, deleted: Option<bool>)

  /** What git answers about one worktree; `None` where there is no usable answer. */
  datatype GitView = GitView(dirty: Option<bool>, detachedCommits: Option<bool>, removes: bool, branch: BranchView)

  datatype Cleanup = Removed | DirtySkipped | Failed

  datatype BranchFate = Kept | Deleted | Interrupted

  /** The branch goes only if it is the task's own and all of it is on `origin`; any other answer keeps it. */
  function BranchStep(branch: string, base: Option<string>, v: BranchView): BranchFate {
    if v.default.None? then Interrupted
    else if branch == v.default.value || base.None? then Kept
    else if v.descends.None? then Interrupted
    else if !v.descends.value then Kept
    else if v.unpublished.None? then Interrupted
    else if v.unpublished.value != Some(0) then Kept
    else if v.deleted.None? then Interrupted
    else if v.deleted.value then Deleted
    else Kept
  }

  /** Whether every question the branch step comes to is answered: then it ends, whatever becomes of the branch. */
  predicate BranchStepEnds(row: Row, git: GitView) {
    row.branch.None? || BranchStep(row.branch.value, row.baseCommit, git.branch) != Interrupted
  }

  /**
   * No unpublished or foreign branch is deleted; and with every command run to its end the step never fails, a
   * `git branch -D` that refuses included.
   */
  lemma BranchStepSpares(branch: string, base: Option<string>, v: BranchView)
    ensures BranchStep(branch, base, v) == Deleted <==>
            && v.default.Some? && branch != v.default.value
            && base.Some? && v.descends == Some(true)
            && v.unpublished == Some(Some(0)) && v.deleted == Some(true)
    ensures BranchStep(branch, base, v) == Interrupted <==>
            v.default.None? ||
            (branch != v.default.value && base.Some? &&
              (v.descends.None? ||
              (v.descends == Some(true) && (v.unpublished.None? || (v.unpublished == Some(Some(0)) && v.deleted.None?)))))
  {
  }

  /** Without a base commit nothing is asked about a detached HEAD. */
  function DetachedCommits(base: Option<string>, git: GitView): Option<bool> {
    if base.None? then Some(false) else git.detachedCommits
  }

  /** A worktree goes only when it is known to be clean and to hold no commits of its own. */
  predicate Removes(base: Option<string>, git: GitView) {
    git.dirty == Some(false) && DetachedCommits(base, git) == Some(false) && git.removes
  }

  class Disk {
    var paths: set<Path>

    constructor (paths: set<Path>)
      ensures this.paths == paths
    {
      this.paths := paths;
    }

    /** Uncommitted changes and commits nothing else reaches keep the worktree; the branch is looked at after it went. */
    method Remove(path: Path, task: Row, git: GitView) returns (r: Cleanup)
      modifies this
      ensures if git.dirty == Some(false) && git.removes && (task.baseCommit.None? || git.detachedCommits == Some(false))
              then paths == old(paths) - {path} else paths == old(paths)
      ensures r == Removed <==>
              && git.dirty == Some(false) && git.removes && (task.baseCommit.None? || git.detachedCommits == Some(false))
              && BranchStepEnds(task, git)
      ensures r == DirtySkipped <==>
              git.dirty == Some(true) || (git.dirty == Some(false) && task.baseCommit.Some? && git.detachedCommits == Some(true))
    {
      if git.dirty.None? {
        return Cleanup.Failed;
      }
      if git.dirty.value {
        return DirtySkipped;
      }
      var detached := DetachedCommits(task.baseCommit, git);
      if detached.None? {
        return Cleanup.Failed;
      }
      if detached.value {
        return DirtySkipped;
      }
      if !git.removes {
        return Cleanup.Failed;
      }
      paths := paths - {path};
      if task.branch.Some? {
        var fate := BranchStep(task.branch.value, task.baseCommit, git.branch);
        if fate == Interrupted {
          return Cleanup.Failed;
        }
      }
      return Removed;
    }
  }

  ghost function Shared(db: StateDb, disk: Disk): World
    reads db, disk
  {
    World(db.Abs(), disk.paths)
  }

  /** Other writers run `window` to its end. */
  method Play(db: StateDb, disk: Disk, window: seq<Rival>)
    modifies db, disk
    ensures Shared(db, disk) == RunRivals(old(Shared(db, disk)), window)
  {
    ghost var start := Shared(db, disk);
    for i := 0 to |window|
      invariant Shared(db, disk) == RunRivals(start, window[..i])
    {
      assert window[..i + 1][..i] == window[..i];
      PlayOne(db, disk, window[i]);
    }
    assert window[..|window|] == window;
  }

  method PlayOne(db: StateDb, disk: Disk, r: Rival)
    modifies db, disk
    ensures Shared(db, disk) == RivalStep(old(Shared(db, disk)), r)
  {
    match r {
      case Event(ref, event) =>
        var _ := db.ApplyEvent(ref, event);
      case Requeue(ref, repo) =>
        var _ := db.RetryTask(ref, repo);
      case CreateDir(path) => disk.paths := disk.paths + {path};
      case RemoveDir(path) => disk.paths := disk.paths - {path};
      case SetRepo(id, repo) =>
        if id in db.rows {
          db.rows := db.rows[id := db.rows[id].(repo := Some(repo))];
        }
      case SetWorktree(id, path, branch, base) =>
        if id in db.rows {
          var row := db.rows[id];
          db.rows := db.rows[id := row.(worktree := Some(path), branch := branch,
                                        baseCommit := if row.baseCommit.Some? then row.baseCommit else Some(base))];
        }
      case SetBranch(id, branch) =>
        if id in db.rows {
          db.rows := db.rows[id := db.rows[id].(branch := branch)];
        }
      case AddMessage(id) =>
        if id in db.rows {
          db.rows := db.rows[id := db.rows[id].(messages := db.rows[id].messages + [None])];
        }
      case Handover(id, at) =>
        if id in db.rows {
          db.rows := db.rows[id := db.rows[id].(messages := Sent(db.rows[id].messages, at))];
        }
    }
  }

  /** `window` is what others do between the read and the write. */
  method Cancel(db: StateDb, disk: Disk, id: TaskId, window: seq<Rival>) returns (r: Result<Outcome, StateError>)
    modifies db, disk
    ensures var before := old(Shared(db, disk));
      var met := RunRivals(before, window).store;
      var row := before.store.rows;
      if id !in row || IsTerminal(row[id].state) then
        && Shared(db, disk) == before
        && r == Ok(Refused(if id !in row then UnknownTask else NotCancellable))
      else
        && id in met.rows && disk.paths == RunRivals(before, window).disk
        && (if met.rows[id].version != row[id].version then r == Ok(Refused(LostRace)) && db.Abs() == met
            else
              && r == Ok(Applied(met.rows[id].state, Cancelled, None))
              && Apply(met, RefOf(id, row[id]), TaskEvent.Cancel) == Ok(db.Abs()))
  {
    ghost var before := Shared(db, disk);
    var found := db.GetTask(id);
    if found.None? {
      return Ok(Refused(UnknownTask));
    }
    var task := found.value;
    if IsTerminal(task.state) {
      return Ok(Refused(NotCancellable));
    }
    Play(db, disk, window);
    VersionGuards(before, window, id);
    var applied := db.ApplyEvent(RefOf(id, task), TaskEvent.Cancel);
    match applied {
      case Ok(to) => return Ok(Applied(task.state, to, None));
      case Err(e) => return if e.NotFound? then Err(e) else Ok(Refused(LostRace));
    }
  }

  /** What the operations read first. */
  method Retryable(db: StateDb, id: TaskId) returns (r: Result<Row, Reason>)
    ensures r == if id !in db.rows then Err(UnknownTask)
                 else if IsRetryable(db.rows[id].state) then Ok(db.rows[id]) else Err(NotRetryable)
  {
    var found := db.GetTask(id);
    if found.None? {
      return Err(UnknownTask);
    }
    return if IsRetryable(found.value.state) then Ok(found.value) else Err(NotRetryable);
  }

  /** Two of the store's three errors are a lost race. */
  function Settle(task: Row, applied: Result<(TaskState, nat), StateError>): Result<Outcome, StateError> {
    match applied
    case Ok(done) => Ok(Applied(task.state, done.0, Some(done.1)))
    case Err(e) => if e.NotFound? then Err(e) else Ok(Refused(LostRace))
  }

  /** What a requeue does to the world it meets, for a task read as `row`. */
  predicate RequeueSettled(met: Store, id: TaskId, row: Row, repo: Option<string>, after: Store, r: Result<Outcome, StateError>) {
    && id in met.rows
    && (if met.rows[id].version != row.version then r == Ok(Refused(LostRace)) && after == met
        else
          && r == Ok(Applied(met.rows[id].state, Queued, Some(Requeued(met.rows[id].messages).1)))
          && ApplyRetry(met, RefOf(id, row), repo) == Ok(after))
  }

  /** `window` is what others do between the read and the write. */
  method RetryTask(db: StateDb, disk: Disk, id: TaskId, window: seq<Rival>) returns (r: Result<Outcome, StateError>)
    modifies db, disk
    ensures var before := old(Shared(db, disk));
      var row := before.store.rows;
      if id !in row || !IsRetryable(row[id].state) then
        && Shared(db, disk) == before
        && r == Ok(Refused(if id !in row then UnknownTask else NotRetryable))
      else
        && disk.paths == RunRivals(before, window).disk
        && RequeueSettled(RunRivals(before, window).store, id, row[id], None, db.Abs(), r)
  {
    ghost var before := Shared(db, disk);
    var found := Retryable(db, id);
    match found {
      case Err(reason) => return Ok(Refused(reason));
      case Ok(task) =>
        Play(db, disk, window);
        VersionGuards(before, window, id);
        var applied := db.RetryTask(RefOf(id, task), None);
        return Settle(task, applied);
    }
  }

  predicate OnDisk(paths: set<Path>, task: Row) {
    task.worktree.Some? && task.worktree.value in paths
  }

  predicate RepoKnown(task: Row, repos: seq<string>) {
    task.repo.Some? && task.repo.value in repos
  }

  /** Whether the old worktree is out of the way after `VacateWorktree`. */
  predicate Vacates(paths: set<Path>, task: Row, repos: seq<string>, git: GitView) {
    OnDisk(paths, task) ==> RepoKnown(task, repos) && Removes(task.baseCommit, git) && BranchStepEnds(task, git)
  }

  function Vacated(paths: set<Path>, task: Row, repos: seq<string>, git: GitView): set<Path> {
    if OnDisk(paths, task) && RepoKnown(task, repos) && Removes(task.baseCommit, git) then paths - {task.worktree.value} else paths
  }

  /** Where the old worktree is out of the way, it is off the disk; it is never more than that one directory. */
  lemma VacatedIsGone(paths: set<Path>, task: Row, repos: seq<string>, git: GitView)
    ensures Vacates(paths, task, repos, git) ==> !OnDisk(Vacated(paths, task, repos, git), task)
    ensures paths - Vacated(paths, task, repos, git) <= (if task.worktree.Some? then {task.worktree.value} else {})
    ensures Vacated(paths, task, repos, git) <= paths
  {
  }

  /** Make room for the task elsewhere. */
  method VacateWorktree(disk: Disk, task: Row, repos: seq<string>, git: GitView) returns (vacated: bool)
    modifies disk
    ensures vacated <==> Vacates(old(disk.paths), task, repos, git)
    ensures disk.paths == Vacated(old(disk.paths), task, repos, git)
  {
    if task.worktree.None? || task.worktree.value !in disk.paths {
      return true;
    }
    if task.repo.None? || task.repo.value !in repos {
      return false;
    }
    var cleanup := disk.Remove(task.worktree.value, task, git);
    return cleanup == Removed;
  }

  /**
   * Moving a task to repository `repo`. Others act between the read and the vacating (`window1`),
   * and between that and the write (`window2`).
   */
  method RetryInRepo(db: StateDb, disk: Disk, id: TaskId, repo: string, repos: seq<string>, git: GitView,
                     window1: seq<Rival>, window2: seq<Rival>)
    returns (r: Result<Outcome, StateError>)
    modifies db, disk
    ensures var before := old(Shared(db, disk));
      var row := before.store.rows;
      if id !in row || !IsRetryable(row[id].state) || repo !in repos then
        && Shared(db, disk) == before
        && r == Ok(Refused(if id !in row then UnknownTask
                           else if !IsRetryable(row[id].state) then NotRetryable else UnknownRepo))
      else
        MoveSettled(RunRivals(before, window1), id, row[id], repo, repos, git, window2, Shared(db, disk), r)
  {
    ghost var before := Shared(db, disk);
    var found := Retryable(db, id);
    match found {
      case Err(reason) => return Ok(Refused(reason));
      case Ok(task) =>
        if repo !in repos {
          return Ok(Refused(UnknownRepo));
        }
        Play(db, disk, window1);
        VersionGuards(before, window1, id);
        r := MoveTask(db, disk, id, task, repo, repos, git, window2);
    }
  }

  /** What the second half of the operation does to the world `met1` it meets, for a task read as `row`. */
  predicate MoveSettled(met1: World, id: TaskId, row: Row, repo: string, repos: seq<string>, git: GitView,
                        window2: seq<Rival>, after: World, r: Result<Outcome, StateError>)
  {
    var vacated := met1.(disk := Vacated(met1.disk, row, repos, git));
    if !Vacates(met1.disk, row, repos, git) then r == Ok(Refused(Occupied)) && after == vacated
    else
      var met2 := RunRivals(vacated, window2);
      after.disk == met2.disk && RequeueSettled(met2.store, id, row, Some(repo), after.store, r)
  }

  method MoveTask(db: StateDb, disk: Disk, id: TaskId, task: Row, repo: string, repos: seq<string>, git: GitView,
                  window2: seq<Rival>)
    returns (r: Result<Outcome, StateError>)
    requires id in db.rows && IsRetryable(task.state)
    requires db.rows[id].version >= task.version && (db.rows[id].version == task.version ==> db.rows[id].state == task.state)
    modifies db, disk
    ensures MoveSettled(old(Shared(db, disk)), id, task, repo, repos, git, window2, Shared(db, disk), r)
  {
    var free := VacateWorktree(disk, task, repos, git);
    if !free {
      return Ok(Refused(Occupied));
    }
    ghost var vacated := Shared(db, disk);
    Play(db, disk, window2);
    VersionGuards(vacated, window2, id);
    var applied := db.RetryTask(RefOf(id, task), Some(repo));
    r := Settle(task, applied);
  }

  // ---- what the operations promise ------------------------------------------------------------

  /**
   * A requeue of a task read in `before` and written to whatever `met` it finds: a refusal writes nothing; an
   * applied one reports the state it overwrote, touches no other task, and leaves the conversation something to say.
   */
  lemma RequeueReports(before: Store, met: Store, id: TaskId, repo: Option<string>, after: Store, r: Result<Outcome, StateError>)
    requires id in before.rows && IsRetryable(before.rows[id].state) && Guarded(before, met, id)
    requires RequeueSettled(met, id, before.rows[id], repo, after, r)
    ensures r.Ok? && (r.value.Refused? ==> after == met)
    ensures r.value.Applied? ==>
              && r.value.from == met.rows[id].state == before.rows[id].state
              && after.rows[id].state == Queued && after.rows[id].version == met.rows[id].version + 1
              && after.events == met.events + [Audit(id, r.value.from, Queued)]
              && (forall other :: other in met.rows && other != id ==> other in after.rows && after.rows[other] == met.rows[other])
              && (met.rows[id].messages != [] ==> HasUnsent(after.rows[id].messages))
              && after.rows[id].worktree == met.rows[id].worktree
              && (repo.Some? ==> after.rows[id].repo == repo && after.rows[id].branch.None? && after.rows[id].baseCommit.None?)
  {
    if met.rows[id].messages != [] {
      RequeuedSpeaks(met.rows[id].messages);
    }
  }

  lemma RequeueMoves(met: Store, id: TaskId, row: Row, repo: string, after: Store, r: Result<Outcome, StateError>)
    requires RequeueSettled(met, id, row, Some(repo), after, r) && r.Ok? && r.value.Applied?
    ensures id in met.rows && id in after.rows
    ensures after.rows[id].state == Queued && after.rows[id].repo == Some(repo) && after.rows[id].worktree == met.rows[id].worktree
  {
  }

  /** The worktree the moved task has, and whether its directory is there: what the other writers did last. */
  function FinalWorktree(window1: seq<Rival>, window2: seq<Rival>, id: TaskId, initially: Option<Path>): Option<Path> {
    LastRecorded(window2, id, LastRecorded(window1, id, initially))
  }

  /** The vacated directory is there only if `window2` put it back; any other is as both windows left it. */
  predicate FinallyPresent(window1: seq<Rival>, window2: seq<Rival>, path: Path, initially: Option<Path>, disk: set<Path>) {
    Present(window2, path, Some(path) != initially && Present(window1, path, path in disk))
  }

  /**
   * Exactly when a task moved to a new repository has a worktree on disk: when the last worktree recorded for it,
   * by whomever, is a directory that was put back after the vacating, or was never the one vacated.
   */
  lemma MovedExactly(before: World, window1: seq<Rival>, window2: seq<Rival>, id: TaskId, repo: string,
                     repos: seq<string>, git: GitView, after: World, r: Result<Outcome, StateError>)
    requires id in before.store.rows
    requires MoveSettled(RunRivals(before, window1), id, before.store.rows[id], repo, repos, git, window2, after, r)
    requires r.Ok? && r.value.Applied?
    ensures id in after.store.rows && after.store.rows[id].state == Queued && after.store.rows[id].repo == Some(repo)
    ensures var old_ := before.store.rows[id].worktree;
      var wt := FinalWorktree(window1, window2, id, old_);
      && after.store.rows[id].worktree == wt
      && (OnDisk(after.disk, after.store.rows[id]) <==>
            wt.Some? && FinallyPresent(window1, window2, wt.value, old_, before.disk))
  {
    var met1 := RunRivals(before, window1);
    var row := before.store.rows[id];
    var vacated := met1.(disk := Vacated(met1.disk, row, repos, git));
    RecordRun(before, window1, id);
    RecordRun(vacated, window2, id);
    RequeueMoves(RunRivals(vacated, window2).store, id, row, repo, after.store, r);
    var wt := after.store.rows[id].worktree;
    if wt.Some? {
      DirRun(before, window1, wt.value);
      DirRun(vacated, window2, wt.value);
      VacatedIsGone(met1.disk, row, repos, git);
    }
  }

  /** Nobody recorded a worktree for the task, or put the old one's directory back, while it was being moved. */
  predicate LeftAlone(window1: seq<Rival>, window2: seq<Rival>, id: TaskId, worktree: Option<Path>) {
    && (forall r :: r in window1 + window2 ==> !(r.SetWorktree? && r.id == id))
    && (worktree.Some? ==> CreateDir(worktree.value) !in window2)
  }

  lemma {:induction false} NothingRecorded(window: seq<Rival>, id: TaskId, initially: Option<Path>)
    requires forall r :: r in window ==> !(r.SetWorktree? && r.id == id)
    ensures LastRecorded(window, id, initially) == initially
  {
    if |window| > 0 {
      NothingRecorded(window[..|window| - 1], id, initially);
    }
  }

  lemma {:induction false} NothingCreated(window: seq<Rival>, path: Path)
    requires CreateDir(path) !in window
    ensures !Present(window, path, false)
  {
    if |window| > 0 {
      NothingCreated(window[..|window| - 1], path);
    }
  }

  /** A task left alone meanwhile has no worktree of the old repository on disk. */
  lemma MovedCleanly(before: World, window1: seq<Rival>, window2: seq<Rival>, id: TaskId, repo: string,
                     repos: seq<string>, git: GitView, after: World, r: Result<Outcome, StateError>)
    requires id in before.store.rows && LeftAlone(window1, window2, id, before.store.rows[id].worktree)
    requires MoveSettled(RunRivals(before, window1), id, before.store.rows[id], repo, repos, git, window2, after, r)
    requires r.Ok? && r.value.Applied?
    ensures id in after.store.rows && after.store.rows[id].worktree == before.store.rows[id].worktree
    ensures !OnDisk(after.disk, after.store.rows[id])
  {
    var old_ := before.store.rows[id].worktree;
    MovedExactly(before, window1, window2, id, repo, repos, git, after, r);
    NothingRecorded(window1, id, old_);
    NothingRecorded(window2, id, old_);
    if old_.Some? {
      NothingCreated(window2, old_.value);
    }
  }

  /**
   * A task not left alone can be moved with a worktree on disk: that column carries no version. Whatever else
   * happens in both windows, if the last thing before the write is another process creating and recording a
   * worktree, a version that did not move lets the whole operation through, vacating included.
   */
  lemma UnversionedWorktreeSlipsThrough(before: World, window1: seq<Rival>, head: seq<Rival>, id: TaskId, repo: string,
                                        repos: seq<string>, git: GitView, path: Path, branch: Option<string>, base: string,
                                        after: World, r: Result<Outcome, StateError>)
    requires id in before.store.rows
    requires var met1 := RunRivals(before, window1);
      var row := before.store.rows[id];
      var vacated := met1.(disk := Vacated(met1.disk, row, repos, git));
      && Vacates(met1.disk, row, repos, git)
      && id in RunRivals(vacated, head).store.rows && RunRivals(vacated, head).store.rows[id].version == row.version
      && MoveSettled(met1, id, row, repo, repos, git, head + [CreateDir(path), SetWorktree(id, path, branch, base)], after, r)
    ensures r.Ok? && r.value.Applied?
    ensures id in after.store.rows && after.store.rows[id].state == Queued && after.store.rows[id].repo == Some(repo)
    ensures after.store.rows[id].worktree == Some(path) && OnDisk(after.disk, after.store.rows[id])
  {
    var met1 := RunRivals(before, window1);
    var row := before.store.rows[id];
    var vacated := met1.(disk := Vacated(met1.disk, row, repos, git));
    var a, b := CreateDir(path), SetWorktree(id, path, branch, base);
    RunTwoMore(vacated, head, a, b);
    Recorded(RunRivals(vacated, head), id, path, branch, base);
    RequeueMoves(RunRivals(vacated, head + [a, b]).store, id, row, repo, after.store, r);
  }

  lemma Recorded(w: World, id: TaskId, path: Path, branch: Option<string>, base: string)
    requires id in w.store.rows
    ensures var met := RivalStep(RivalStep(w, CreateDir(path)), SetWorktree(id, path, branch, base));
      && path in met.disk && id in met.store.rows && met.store.rows[id].worktree == Some(path)
      && met.store.rows[id].version == w.store.rows[id].version && met.store.rows[id].state == w.store.rows[id].state
  {
  }

  lemma RunTwoMore(w: World, head: seq<Rival>, a: Rival, b: Rival)
    ensures RunRivals(w, head + [a, b]) == RivalStep(RivalStep(RunRivals(w, head), a), b)
  {
    var one, two := head + [a], head + [a, b];
    assert one[..|one| - 1] == head && two[..|two| - 1] == one;
  }

  // ---- what a refusal leaves behind ------------------------------------------------------------

  /** Whether vacating takes the worktree's directory, which it can do and still not succeed. */
  predicate Takes(paths: set<Path>, task: Row, repos: seq<string>, git: GitView) {
    OnDisk(paths, task) && RepoKnown(task, repos) && Removes(task.baseCommit, git)
  }

  /** What other writers alone would have made of the world by the time of the answer. */
  function WithoutUs(met1: World, row: Row, repos: seq<string>, git: GitView, window2: seq<Rival>): World {
    if Vacates(met1.disk, row, repos, git) then RunRivals(met1, window2) else met1
  }

  /**
   * A refused move never writes to the database. It leaves the disk as the other writers alone would have if and
   * only if vacating took nothing, or what it took was created or removed by somebody else before the answer.
   */
  lemma RefusalKeepsExactly(met1: World, id: TaskId, row: Row, repo: string, repos: seq<string>, git: GitView,
                            window2: seq<Rival>, after: World, r: Result<Outcome, StateError>)
    requires MoveSettled(met1, id, row, repo, repos, git, window2, after, r) && r.Ok? && r.value.Refused?
    ensures var alone := WithoutUs(met1, row, repos, git, window2);
      && after.store == alone.store
      && (after.disk == alone.disk <==>
            (Takes(met1.disk, row, repos, git) ==>
               Vacates(met1.disk, row, repos, git) && Handles(window2, row.worktree.value)))
  {
    var vacated := met1.(disk := Vacated(met1.disk, row, repos, git));
    if Vacates(met1.disk, row, repos, git) {
      StoreRun(met1, vacated.disk, window2);
      SameDisk(met1, vacated, row, repos, git, window2);
    } else if Takes(met1.disk, row, repos, git) {
      assert row.worktree.value in met1.disk && row.worktree.value !in after.disk;
    }
  }

  lemma SameDisk(met1: World, vacated: World, row: Row, repos: seq<string>, git: GitView, window2: seq<Rival>)
    requires vacated == met1.(disk := Vacated(met1.disk, row, repos, git))
    ensures RunRivals(vacated, window2).disk == RunRivals(met1, window2).disk <==>
            (Takes(met1.disk, row, repos, git) ==> Handles(window2, row.worktree.value))
  {
    var ours, alone := RunRivals(vacated, window2).disk, RunRivals(met1, window2).disk;
    if Takes(met1.disk, row, repos, git) {
      var path := row.worktree.value;
      DirRun(met1, window2, path);
      DirRun(vacated, window2, path);
      PresentUnlessHandled(window2, path);
      if Handles(window2, path) {
        forall other ensures other in ours <==> other in alone {
          DirRun(met1, window2, other);
          DirRun(vacated, window2, other);
        }
        assert ours == alone;
      }
    } else {
      assert vacated == met1;
    }
  }

  /** Nobody else about: a refusal leaves the world as it was exactly when no directory was there to be taken. */
  lemma RefusalKeepsUnraced(met1: World, id: TaskId, row: Row, repo: string, repos: seq<string>, git: GitView,
                            after: World, r: Result<Outcome, StateError>)
    requires MoveSettled(met1, id, row, repo, repos, git, [], after, r) && r.Ok? && r.value.Refused?
    ensures after.store == met1.store
    ensures after.disk == met1.disk <==> !Takes(met1.disk, row, repos, git)
  {
    RefusalKeepsExactly(met1, id, row, repo, repos, git, [], after, r);
  }

  /** One cancelled task, its clean worktree on disk and on a branch of its own that is on `origin`. */
  const STRANDED: Row := Row(Cancelled, 1, Some("web"), Some("/wt"), Some("feature"), Some("abc"), [])

  const ALL_ANSWERED: BranchView := BranchView(Some("main"), Some(true), Some(Some(0)), Some(true))

  /**
   * A `git branch -D` that cannot be started, or is killed at its timeout, comes after the worktree went: refused,
   * and the directory is gone.
   */
  lemma BranchRefusalLosesWorktree(window2: seq<Rival>)
    ensures var met1 := World(Store(map[7 := STRANDED], []), {"/wt"});
      var git := GitView(Some(false), Some(false), true, ALL_ANSWERED.(deleted := None));
      MoveSettled(met1, 7, STRANDED, "api", ["web", "api"], git, window2, met1.(disk := {}), Ok(Refused(Occupied)))
  {
  }

  /** So is a lost race: a conversation reopened in the second window refuses the move after the worktree went. */
  lemma LostRaceLosesWorktree()
    ensures var met1 := World(Store(map[7 := STRANDED], []), {"/wt"});
      var git := GitView(Some(false), Some(false), true, ALL_ANSWERED);
      var reopened := Store(map[7 := STRANDED.(state := Queued, version := 2)], [Audit(7, Cancelled, Queued)]);
      MoveSettled(met1, 7, STRANDED, "api", ["web", "api"], git, [Event(TaskRef(7, 1), Reopen)],
                  World(reopened, {}), Ok(Refused(LostRace)))
  {
    var vacated := World(Store(map[7 := STRANDED], []), {});
    var reopen := Event(TaskRef(7, 1), Reopen);
    assert [reopen][..0] == [];
    assert RunRivals(vacated, [reopen]) == RivalStep(vacated, reopen);
    assert {"/wt"} - {"/wt"} == {};
    var moved := STRANDED.(state := Queued, version := 2);
    assert map[7 := STRANDED][7 := moved] == map[7 := moved];
  }

  // ---- what is never taken --------------------------------------------------------------------

  /** Work that is not known to be safe elsewhere: uncommitted changes, or commits that only the worktree reaches. */
  predicate MayHoldWork(row: Row, git: GitView) {
    git.dirty != Some(false) || (row.baseCommit.Some? && git.detachedCommits != Some(false))
  }

  /** No move, applied or refused, takes a worktree that may hold work: it is refused and changes nothing. */
  lemma MoveSparesWork(met1: World, id: TaskId, row: Row, repo: string, repos: seq<string>, git: GitView,
                       window2: seq<Rival>, after: World, r: Result<Outcome, StateError>)
    requires MoveSettled(met1, id, row, repo, repos, git, window2, after, r)
    requires row.worktree.Some? && row.worktree.value in met1.disk
    requires MayHoldWork(row, git) || !git.removes || row.repo.None? || row.repo.value !in repos
    ensures r == Ok(Refused(Occupied)) && after == met1
  {
  }

  // ---- what the other writers do ------------------------------------------------------------------

  /** The side columns are set without a look at the version; a recorded base commit stays. */
  lemma SideColumns(w: World, id: TaskId, path: Path, branch: Option<string>, base: string, repo: string)
    requires id in w.store.rows
    ensures var row := w.store.rows[id];
      && RivalStep(w, SetWorktree(id, path, branch, base)).store.rows ==
         w.store.rows[id := row.(worktree := Some(path), branch := branch, baseCommit := Some(row.baseCommit.GetOr(base)))]
      && RivalStep(w, SetRepo(id, repo)).store.rows == w.store.rows[id := row.(repo := Some(repo))]
      && RivalStep(w, SetBranch(id, branch)).store.rows == w.store.rows[id := row.(branch := branch)]
      && RivalStep(w, AddMessage(id)).store.rows == w.store.rows[id := row.(messages := row.messages + [None])]
  {
  }

  /** A handover stamps what was unsent, and nothing else. */
  lemma HandoverStamps(w: World, id: TaskId, at: nat, k: nat)
    requires id in w.store.rows && k < |w.store.rows[id].messages|
    ensures var was, now := w.store.rows[id].messages, RivalStep(w, Handover(id, at)).store.rows[id].messages;
      |now| == |was| && now[k] == if was[k].None? then Some(at) else was[k]
  {
  }
}
