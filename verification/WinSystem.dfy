/**
 util::WinFileWatcher as a concurrent protocol.

 Client calls and the worker interleave at the granularity of the mutex: every action below is one critical
 section, or one thing the worker does outside it.  The operating system may complete an issued read at any
 time, successfully or not.  A run is any sequence of enabled actions.
 */
module WinSystem {
  import opened Collections
  import opened WinTables
  import opened WinRegistry

  /** Where the worker is in `Run`. */
  datatype Pc =
    | Top                                              // about to drain pending unwatches
    | SeeShutdown                                      // about to read the shutdown flag
    | SeeExit                                          // about to check whether it may leave
    | Wait                                             // in GetQueuedCompletionStatus
    | Completed(r: Ref, ok: bool, report: Report)      // has dequeued a completion, not yet found its owner
    | Collect(r: Ref, report: Report)                  // about to collect dirty ids
    | Reissue(r: Ref)                                  // about to issue the next read, outside the mutex
    | Drop(r: Ref)                                     // that failed
    | Arm                                              // about to set the deadline if needed
    | SeeDeadline                                      // about to compare the deadline with the clock
    | Firing(left: set<Id>, done: set<Id>)             // running callbacks, outside the mutex
    | Exited

  datatype Worker = Worker(pc: Pc, dirty: set<Id>, deadline: Option<nat>, shuttingDown: bool)

  /** What has happened so far; the watcher itself keeps none of it. */
  datatype History = History(
    registry: Registry,      // watches that can fire
    orphans: set<Id>,        // ids whose directory was dropped when a read could not be issued again
    drained: set<Id>,        // ids that the worker has unwatched
    errored: set<Ref>,       // directories that got an error completion while active
    retired: nat,            // how many directories were draining when shutdown began
    completions: nat)        // how many of them have completed since

  datatype System = System(
    shared: Shared,
    worker: Worker,
    outstanding: multiset<Ref>,  // reads that are issued and not yet dequeued
    nextId: Id,
    calls: set<Id>,              // ids taken by WatchFile calls that have not entered the mutex
    handles: set<Id>,            // ids that WatchFile has returned
    shutdown: bool,
    now: nat,
    history: History)

  const COALESCE_WINDOW: nat := 50

  const INITIAL := System(NOTHING, Worker(Top, {}, None, false), multiset{}, 1, {}, {}, false, 0,
                          History(map[], {}, {}, {}, 0, 0))

  datatype Action =
    // clients
    | BeginWatch
    | JoinWatch(id: Id, at: Location, path: Path)
    | OpenWatch(id: Id, at: Location, path: Path)
    | FailWatch(id: Id, didOpen: bool)
    | Close(id: Id)
    | Destroy
    // the clock
    | Tick
    // the worker
    | DrainPending
    | ReadFlag(seen: bool)
    | CheckExit
    | WakeUp
    | Dequeue(r: Ref, ok: bool, report: Report)
    | Resolve
    | CollectDirty
    | IssueRead(ok: bool)
    | DropDirectory
    | ArmDeadline
    | CheckDeadline
    | RunCallback(id: Id)
    | FinishFiring

  /** WatchFile and Unwatch hold a reference to the watcher, so none is in progress once destruction begins. */
  predicate Enabled(s: System, a: Action) {
    var pc := s.worker.pc;
    match a
    case BeginWatch => !s.shutdown
    case JoinWatch(id, at, _) => id in s.calls && at.dir in s.shared.dirs && s.shared.dirs[at.dir] in s.shared.tables
    case OpenWatch(id, at, _) => id in s.calls && at.dir !in s.shared.dirs
    case FailWatch(id, _) => id in s.calls
    case Close(id) => id in s.handles && !s.shutdown
    case Destroy => s.calls == {} && !s.shutdown
    case Tick => true
    case DrainPending => pc.Top?
    case ReadFlag(seen) => pc.SeeShutdown? && (seen ==> s.shutdown)
    case CheckExit => pc.SeeExit?
    case WakeUp => pc.Wait?
    case Dequeue(r, _, _) => pc.Wait? && r in s.outstanding
    case Resolve => pc.Completed?
    case CollectDirty => pc.Collect? && pc.r in s.shared.tables
    case IssueRead(_) => pc.Reissue?
    case DropDirectory => pc.Drop?
    case ArmDeadline => pc.Arm?
    case CheckDeadline => pc.SeeDeadline?
    case RunCallback(id) => pc.Firing? && id in pc.left
    case FinishFiring => pc.Firing? && pc.left == {}
  }

  function Goto(s: System, pc: Pc): System {
    s.(worker := s.worker.(pc := pc))
  }

  function Register(s: System, id: Id, at: Location, path: Path): System {
    s.(calls := s.calls - {id}, handles := s.handles + {id},
       history := s.history.(registry := s.history.registry[id := Watch(at, path)]))
  }

  ghost function BeginShutdown(s: System): System {
    s.(shared := Retire(s.shared),
       worker := Worker(SeeExit, {}, None, true),
       history := s.history.(registry := map[], retired := |Retire(s.shared).draining|, completions := 0))
  }

  /** Finding the owner of a completion: draining, active, or (never, as it turns out) gone. */
  ghost function ResolveOwner(s: System): System
    requires s.worker.pc.Completed?
  {
    var Completed(r, ok, report) := s.worker.pc;
    if r in s.shared.draining then
      Goto(s, Top).(shared := Release(s.shared, r),
                    history := s.history.(completions := s.history.completions + 1))
    else if r !in Active(s.shared) then Goto(s, Top)
    else if !ok then Goto(s, Top).(history := s.history.(errored := s.history.errored + {r}))
    else Goto(s, Collect(r, report))
  }

  ghost function LoseDirectory(s: System, r: Ref): System {
    var lost := IdsOf(s.shared, s.history.registry, r);
    Goto(s, Arm).(shared := DropDir(s.shared, r),
                  history := s.history.(registry := s.history.registry - lost, orphans := s.history.orphans + lost))
  }

  /** The callbacks that FireDirty gathers. */
  ghost function Found(s: System): set<Id> {
    set id | id in s.worker.dirty && Lookup(s.shared, id).Some?
  }

  ghost function Apply(s: System, a: Action): System
    requires Enabled(s, a)
  {
    match a
    case BeginWatch => s.(calls := s.calls + {s.nextId}, nextId := s.nextId + 1)
    case JoinWatch(id, at, path) => Register(s, id, at, path).(shared := JoinDir(s.shared, id, at, path))
    case OpenWatch(id, at, path) =>
      Register(s, id, at, path).(shared := OpenDir(s.shared, id, at, path),
                                 outstanding := s.outstanding + multiset{s.shared.nextRef})
    case FailWatch(id, didOpen) =>
      s.(calls := s.calls - {id}, shared := if didOpen then FailToOpen(s.shared) else s.shared)
    case Close(id) => s.(shared := CloseWatch(s.shared, id))
    case Destroy => s.(shutdown := true)
    case Tick => s.(now := s.now + 1)
    case DrainPending =>
      var ids := ToSet(s.shared.pending);
      Goto(s, SeeShutdown).(shared := Drain(s.shared),
                            history := s.history.(registry := s.history.registry - ids,
                                                  drained := s.history.drained + ids))
    case ReadFlag(seen) =>
      if seen && !s.worker.shuttingDown then BeginShutdown(s) else Goto(s, SeeExit)
    case CheckExit =>
      if s.worker.shuttingDown && s.shared.draining == {} then Goto(s, Exited) else Goto(s, Wait)
    case WakeUp => Goto(s, SeeDeadline)
    case Dequeue(r, ok, report) =>
      Goto(s, Completed(r, ok, report)).(outstanding := s.outstanding - multiset{r})
    case Resolve => ResolveOwner(s)
    case CollectDirty =>
      var Collect(r, report) := s.worker.pc;
      s.(worker := s.worker.(pc := Reissue(r), dirty := s.worker.dirty + Touched(s.shared.tables[r], report)))
    case IssueRead(ok) =>
      var r := s.worker.pc.r;
      if ok then Goto(s, Arm).(outstanding := s.outstanding + multiset{r}) else Goto(s, Drop(r))
    case DropDirectory => LoseDirectory(s, s.worker.pc.r)
    case ArmDeadline =>
      if s.worker.dirty != {} && s.worker.deadline.None?
      then s.(worker := s.worker.(pc := SeeDeadline, deadline := Some(s.now + COALESCE_WINDOW)))
      else Goto(s, SeeDeadline)
    case CheckDeadline =>
      if s.worker.deadline.Some? && s.now >= s.worker.deadline.value
      then Goto(s, Firing(Found(s), {}))
      else Goto(s, Top)
    case RunCallback(id) =>
      Goto(s, Firing(s.worker.pc.left - {id}, s.worker.pc.done + {id}))
    case FinishFiring => s.(worker := s.worker.(pc := Top, dirty := {}, deadline := None))
  }

  // ---- Runs ----

  ghost predicate IsRun(s: System, actions: seq<Action>)
    decreases |actions|
  {
    actions == [] || (Enabled(s, actions[0]) && IsRun(Apply(s, actions[0]), actions[1..]))
  }

  ghost function After(s: System, actions: seq<Action>): System
    requires IsRun(s, actions)
    decreases |actions|
  {
    if actions == [] then s else After(Apply(s, actions[0]), actions[1..])
  }
}
