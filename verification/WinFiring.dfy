/**
 From a reported change to a callback, and from an unwatch to silence: what util::WinFileWatcher does in the end.
 */
module WinFiring {
  import opened Collections
  import opened WinTables
  import opened WinRegistry
  import opened WinSystem
  import opened WinInvariants
  import opened WinTheorems

  // ---- Noticing ----

  /** A completed read of directory `r` tells of the file that `id` was registered for. */
  ghost predicate TellsOf(s: System, r: Ref, report: Report, id: Id) {
    && id in s.history.registry
    && var at := s.history.registry[id].at;
       at.dir in s.shared.dirs && s.shared.dirs[at.dir] == r && (report.Overflow? || at.file in report.names)
  }

  /** Exactly the watches of the reported files become dirty; all those of the directory on overflow. */
  lemma NoticesExactly(s: System, id: Id)
    requires Reachable(s) && Enabled(s, CollectDirty)
    ensures id in Apply(s, CollectDirty).worker.dirty <==>
            id in s.worker.dirty || TellsOf(s, s.worker.pc.r, s.worker.pc.report, id)
  {
    ReachableInv(s);
    TouchedExactly(s, s.worker.pc.r, s.worker.pc.report, id);
  }

  lemma TouchedExactly(s: System, r: Ref, report: Report, id: Id)
    requires Inv(s) && r in Active(s.shared) && r in s.shared.tables
    ensures id in Touched(s.shared.tables[r], report) <==> TellsOf(s, r, report, id)
  {
    var t := s.shared.tables[r];
    if id in Touched(t, report) {
      var d :| d in s.shared.dirs && s.shared.dirs[d] == r;
      var f: FileKey, e: Entry :|
        f in t && e in t[f] && (report.Overflow? || f in report.names) && e.id == id;
      assert Enters(s.shared, d, f, e);
    }
    if TellsOf(s, r, report, id) {
      var w := s.history.registry[id];
      assert Enters(s.shared, w.at.dir, w.at.file, Entry(id, w.path));
    }
  }

  /** Nothing else makes a watch dirty. */
  lemma OnlyReadsDirty(s: System, a: Action, id: Id)
    requires Enabled(s, a) && id !in s.worker.dirty && id in Apply(s, a).worker.dirty
    ensures a == CollectDirty
  {
  }

  // ---- What is dirty stays so until it fires ----

  /** The id is dirty, and its callback has not run in the firing that is under way. */
  ghost predicate Owed(s: System, id: Id) {
    id in s.worker.dirty && (s.worker.pc.Firing? ==> id !in s.worker.pc.done)
  }

  lemma OwedStep(s: System, a: Action, id: Id)
    requires DirtyOk(s) && Owed(s, id) && Enabled(s, a) && a != RunCallback(id) && id in s.history.registry
    requires !(a == ReadFlag(true) && !s.worker.shuttingDown)
    ensures Owed(Apply(s, a), id)
  {
  }

  lemma ShutdownUnregisters(s: System, id: Id)
    requires Enabled(s, ReadFlag(true)) && !s.worker.shuttingDown
    ensures id !in Apply(s, ReadFlag(true)).history.registry
  {
  }

  lemma HandleOfRegistered(s: System, id: Id)
    requires Inv(s) && id in s.history.registry
    ensures id in s.handles && id !in s.calls
  {
  }

  lemma {:induction false} UnregisteredStays(s: System, actions: seq<Action>, id: Id)
    requires Inv(s) && IsRun(s, actions) && id in s.handles && id !in s.history.registry
    ensures id !in After(s, actions).history.registry
    decreases |actions|
  {
    if actions != [] {
      StepInv(s, actions[0]);
      RegistryStays(s, actions[0], id);
      UnregisteredStays(Apply(s, actions[0]), actions[1..], id);
    }
  }

  /** A dirty id stays dirty until its callback runs, as long as it is registered: not unwatched, its directory not
      dropped, no shutdown. */
  lemma {:induction false} OwedUntilItFires(s: System, actions: seq<Action>, id: Id)
    requires Inv(s) && Owed(s, id) && id in s.history.registry && IsRun(s, actions)
    requires RunCallback(id) !in actions && id in After(s, actions).history.registry
    ensures Owed(After(s, actions), id)
    decreases |actions|
  {
    if actions != [] {
      var a := actions[0];
      var n := Apply(s, a);
      HandleOfRegistered(s, id);
      StepInv(s, a);
      RegistryStays(s, a, id);
      if id in n.history.registry {
        if a == ReadFlag(true) && !s.worker.shuttingDown {
          ShutdownUnregisters(s, id);
        } else {
          OwedStep(s, a, id);
          OwedUntilItFires(n, actions[1..], id);
        }
      } else {
        UnregisteredStays(n, actions[1..], id);
      }
    }
  }

  /** No missed change: whatever happens after a read has told of a watched file, the watch is dirty until its
      callback runs, it is unwatched, its directory is dropped or shutdown begins. */
  lemma NoMissedChange(s: System, actions: seq<Action>, id: Id)
    requires Reachable(s) && Enabled(s, CollectDirty) && TellsOf(s, s.worker.pc.r, s.worker.pc.report, id)
    requires IsRun(Apply(s, CollectDirty), actions) && RunCallback(id) !in actions
    requires id in After(Apply(s, CollectDirty), actions).history.registry
    ensures id in After(Apply(s, CollectDirty), actions).worker.dirty
  {
    ReachableInv(s);
    NoticesExactly(s, id);
    StepInv(s, CollectDirty);
    OwedUntilItFires(Apply(s, CollectDirty), actions, id);
  }

  // ---- When it can fire ----

  /** The completion at hand goes on to be collected. */
  ghost predicate GoesOn(s: System) {
    s.worker.pc.Completed? ==>
      s.worker.pc.ok && s.worker.pc.r !in s.shared.draining && s.worker.pc.r in Active(s.shared)
  }

  /** Before the worker can fire again it unwatches the id, or drops its directory. */
  ghost predicate Barred(s: System, id: Id) {
    || (id in s.shared.pending && (s.worker.pc.Top? || !GoesOn(s)))
    || (s.worker.pc.Drop? && id in IdsOf(s.shared, s.history.registry, s.worker.pc.r))
  }

  ghost predicate Ready(s: System, id: Id) {
    Inv(s) && Owed(s, id) && id in s.history.registry && !Barred(s, id)
  }

  /** What the worker does next on the way to the callback; it waits for the deadline. */
  function Onwards(s: System, id: Id): Action {
    match s.worker.pc
    case Top => DrainPending
    case SeeShutdown => ReadFlag(false)
    case SeeExit => CheckExit
    case Wait => WakeUp
    case Completed(_, _, _) => Resolve
    case Collect(_, _) => CollectDirty
    case Reissue(_) => IssueRead(true)
    case Drop(_) => DropDirectory
    case Arm => ArmDeadline
    case SeeDeadline =>
      if s.worker.deadline.Some? && s.now < s.worker.deadline.value then Tick else CheckDeadline
    case Firing(_, _) => RunCallback(id)
    case Exited => Tick
  }

  /** How many program points are ahead. */
  function Ahead(pc: Pc): nat {
    match pc
    case Completed(_, _, _) => 11
    case Top => 10
    case SeeShutdown => 9
    case SeeExit => 8
    case Wait => 7
    case Collect(_, _) => 6
    case Reissue(_) => 5
    case Drop(_) => 4
    case Arm => 3
    case SeeDeadline => 2
    case Firing(_, _) => 1
    case Exited => 0
  }

  function Remaining(s: System): nat {
    if s.worker.deadline.Some? && s.now < s.worker.deadline.value then s.worker.deadline.value - s.now else 0
  }

  lemma OnwardsEnabled(s: System, id: Id)
    requires Ready(s, id)
    ensures Enabled(s, Onwards(s, id))
  {
    if s.worker.pc.Collect? {
      var d :| d in s.shared.dirs && s.shared.dirs[d] == s.worker.pc.r;
    }
  }

  /** On the way the watch stays registered. */
  lemma OnwardsRegistered(s: System, id: Id)
    requires Ready(s, id) && !s.worker.pc.Firing? && Enabled(s, Onwards(s, id))
    ensures id in Apply(s, Onwards(s, id)).history.registry
  {
  }

  lemma ReadyMeans(s: System, id: Id)
    requires Ready(s, id)
    ensures !s.worker.shuttingDown && !s.worker.pc.Exited? && (s.worker.pc.SeeDeadline? ==> s.worker.deadline.Some?)
  {
  }

  lemma OnwardsNearer(s: System, id: Id)
    requires Enabled(s, Onwards(s, id)) && !s.worker.shuttingDown && !s.worker.pc.Exited? && !s.worker.pc.Firing?
    requires s.worker.pc.SeeDeadline? ==> s.worker.deadline.Some?
    ensures var n := Apply(s, Onwards(s, id));
            || Ahead(n.worker.pc) < Ahead(s.worker.pc)
            || (n.worker.pc == s.worker.pc && Remaining(n) < Remaining(s))
  {
  }

  lemma OnwardsUnbarred(s: System, id: Id)
    requires Enabled(s, Onwards(s, id)) && !Barred(s, id)
    requires !s.worker.shuttingDown && !s.worker.pc.Exited? && !s.worker.pc.Firing?
    requires s.worker.pc.SeeDeadline? ==> s.worker.deadline.Some?
    ensures !Barred(Apply(s, Onwards(s, id)), id)
  {
    match s.worker.pc {
      case Top => DrainEmpties(s.shared);
      case _ =>
    }
  }

  lemma DrainEmpties(s: Shared)
    ensures Drain(s).pending == []
  {
  }

  lemma OnwardsReady(s: System, id: Id)
    requires Ready(s, id) && !s.worker.pc.Firing? && Enabled(s, Onwards(s, id))
    ensures Ready(Apply(s, Onwards(s, id)), id)
  {
    var a := Onwards(s, id);
    StepInv(s, a);
    OnwardsRegistered(s, id);
    OwedStep(s, a, id);
    ReadyMeans(s, id);
    OnwardsUnbarred(s, id);
  }

  lemma {:induction false} WalkToCallback(s: System, id: Id) returns (actions: seq<Action>)
    requires Ready(s, id)
    ensures IsRun(s, actions) && RunCallback(id) in actions
    decreases Ahead(s.worker.pc), Remaining(s)
  {
    var a := Onwards(s, id);
    OnwardsEnabled(s, id);
    if s.worker.pc.Firing? {
      actions := [a];
      OneStep(s, a);
    } else {
      ReadyMeans(s, id);
      OnwardsNearer(s, id);
      OnwardsReady(s, id);
      var rest := WalkToCallback(Apply(s, a), id);
      actions := [a] + rest;
      Prepend(s, a, rest);
    }
  }

  // ---- When it cannot ----

  /** Unregistered, or about to be. */
  ghost predicate Silenced(s: System, id: Id) {
    id in s.handles && (id !in s.history.registry || Barred(s, id))
  }

  lemma SilencedCannotFire(s: System, id: Id)
    requires DirtyOk(s) && Silenced(s, id)
    ensures !Enabled(s, RunCallback(id))
  {
  }

  /** A step of a client, or of the clock. */
  predicate OfClients(a: Action) {
    a.BeginWatch? || a.JoinWatch? || a.OpenWatch? || a.FailWatch? || a.Close? || a.Destroy? || a.Tick?
  }

  lemma ClientsBar(s: System, a: Action, id: Id)
    requires Inv(s) && Enabled(s, a) && OfClients(a) && Barred(s, id) && id in s.history.registry
    ensures Barred(Apply(s, a), id)
  {
  }

  lemma WorkerBars(s: System, a: Action, id: Id)
    requires Enabled(s, a) && !OfClients(a) && Barred(s, id) && id in s.history.registry
    ensures id !in Apply(s, a).history.registry || Barred(Apply(s, a), id)
  {
  }

  lemma {:induction false} SilencedStays(s: System, actions: seq<Action>, id: Id)
    requires Inv(s) && Silenced(s, id) && IsRun(s, actions)
    ensures RunCallback(id) !in actions
    decreases |actions|
  {
    if actions != [] {
      var a := actions[0];
      SilencedCannotFire(s, id);
      StepInv(s, a);
      RegistryStays(s, a, id);
      if id in s.history.registry {
        if OfClients(a) {
          ClientsBar(s, a, id);
        } else {
          WorkerBars(s, a, id);
        }
      }
      SilencedStays(Apply(s, a), actions[1..], id);
    }
  }

  /** A dirty, registered id can still fire if and only if the worker is not about to unwatch it or to drop its
      directory. */
  lemma FiresExactly(s: System, id: Id)
    requires Reachable(s) && Owed(s, id) && id in s.history.registry
    ensures (exists actions :: IsRun(s, actions) && RunCallback(id) in actions) <==> !Barred(s, id)
  {
    ReachableInv(s);
    if Barred(s, id) {
      forall actions | IsRun(s, actions) ensures RunCallback(id) !in actions {
        SilencedStays(s, actions, id);
      }
    } else {
      var actions := WalkToCallback(s, id);
    }
  }

  // ---- On time ----

  /** Callbacks run only once the deadline has come, and a deadline is at most one window of 50 ms away. */
  ghost predicate OnTime(s: System) {
    && (s.worker.pc.Firing? ==> s.worker.deadline.Some? && s.now >= s.worker.deadline.value)
    && (s.worker.deadline.Some? ==> s.worker.deadline.value <= s.now + 50)
  }

  lemma StepOnTime(s: System, a: Action)
    requires OnTime(s) && Enabled(s, a)
    ensures OnTime(Apply(s, a))
  {
  }

  lemma {:induction false} RunOnTime(s: System, actions: seq<Action>)
    requires OnTime(s) && IsRun(s, actions)
    ensures OnTime(After(s, actions))
    decreases |actions|
  {
    if actions != [] {
      StepOnTime(s, actions[0]);
      RunOnTime(Apply(s, actions[0]), actions[1..]);
    }
  }

  /** A callback runs only for a dirty, registered id, and not before the deadline. */
  lemma FiresOnlyWhenDue(s: System, id: Id)
    requires Reachable(s) && Enabled(s, RunCallback(id))
    ensures id in s.worker.dirty && id in s.history.registry
    ensures s.worker.deadline.Some? && s.now >= s.worker.deadline.value
  {
    ReachableInv(s);
    var actions :| IsRun(INITIAL, actions) && After(INITIAL, actions) == s;
    RunOnTime(INITIAL, actions);
  }

  /** A deadline is set one window after the moment it is set, when something is dirty and none was set. */
  lemma DeadlineIsOneWindow(s: System, a: Action)
    requires Enabled(s, a) && s.worker.deadline.None? && Apply(s, a).worker.deadline.Some?
    ensures a == ArmDeadline && s.worker.dirty != {} && Apply(s, a).worker.deadline == Some(s.now + 50)
  {
  }

  // ---- From closing to silence ----

  ghost predicate Closed(s: System, id: Id) {
    id in s.shared.pending || id in s.history.drained
  }

  lemma ClosedStays(s: System, a: Action, id: Id)
    requires Enabled(s, a) && Closed(s, id)
    ensures Closed(Apply(s, a), id)
    ensures a == DrainPending ==> id in Apply(s, a).history.drained
  {
    match a {
      case DrainPending =>
      case _ => PendingStays(s, a);
    }
  }

  lemma PendingStays(s: System, a: Action)
    requires Enabled(s, a) && a != DrainPending
    ensures s.shared.pending <= Apply(s, a).shared.pending && Apply(s, a).history.drained == s.history.drained
  {
  }

  lemma Prepend(s: System, a: Action, rest: seq<Action>)
    requires Enabled(s, a) && IsRun(Apply(s, a), rest)
    ensures IsRun(s, [a] + rest) && After(s, [a] + rest) == After(Apply(s, a), rest)
  {
    assert ([a] + rest)[0] == a && ([a] + rest)[1..] == rest;
  }

  lemma {:induction false} ClosedIsDrained(s: System, actions: seq<Action>, id: Id, k: nat)
    requires Inv(s) && Closed(s, id) && IsRun(s, actions) && k < |actions| && actions[k] == DrainPending
    ensures IsRun(s, actions[..k + 1]) && id in After(s, actions[..k + 1]).history.drained
    ensures RunCallback(id) !in actions[k + 1..]
    decreases |actions|
  {
    var a := actions[0];
    var n := Apply(s, a);
    StepInv(s, a);
    ClosedStays(s, a, id);
    Slices(actions, k);
    if k == 0 {
      assert actions[1..][..0] == [];
      UnwatchSafety(n, id, actions[1..]);
      Prepend(s, a, []);
    } else {
      ClosedIsDrained(n, actions[1..], id, k - 1);
      Prepend(s, a, actions[1..][..k]);
    }
  }

  /** Once an unwatch has been called, the next time the worker drains it takes the id, and its callback never runs
      again. */
  lemma UnwatchTakesEffect(s: System, id: Id, actions: seq<Action>, k: nat)
    requires Reachable(s) && Enabled(s, Close(id)) && IsRun(Apply(s, Close(id)), actions)
    requires k < |actions| && actions[k] == DrainPending
    ensures IsRun(Apply(s, Close(id)), actions[..k + 1])
    ensures id in After(Apply(s, Close(id)), actions[..k + 1]).history.drained
    ensures RunCallback(id) !in actions[k + 1..]
  {
    ReachableInv(s);
    StepInv(s, Close(id));
    ClosedIsDrained(Apply(s, Close(id)), actions, id, k);
  }

  // ---- A watch that was not made ----

  /** The id was given out and is not in use. */
  ghost predicate Spent(s: System, id: Id) {
    id < s.nextId && id !in s.calls && id !in s.handles
  }

  lemma SpentStays(s: System, a: Action, id: Id)
    requires Spent(s, id) && Enabled(s, a)
    ensures Spent(Apply(s, a), id)
  {
  }

  lemma {:induction false} SpentNeverFires(s: System, actions: seq<Action>, id: Id)
    requires Inv(s) && Spent(s, id) && IsRun(s, actions)
    ensures RunCallback(id) !in actions
    decreases |actions|
  {
    if actions != [] {
      StepInv(s, actions[0]);
      SpentStays(s, actions[0], id);
      SpentNeverFires(Apply(s, actions[0]), actions[1..], id);
    }
  }

  /** A WatchFile that fails leaves the tables and the other watches as they were, and its callback never runs. */
  lemma FailedWatchIsSilent(s: System, id: Id, didOpen: bool, actions: seq<Action>)
    requires Reachable(s) && Enabled(s, FailWatch(id, didOpen)) && IsRun(Apply(s, FailWatch(id, didOpen)), actions)
    ensures var n := Apply(s, FailWatch(id, didOpen));
            && n.shared == s.shared.(nextRef := n.shared.nextRef) && n.history == s.history && n.handles == s.handles
            && id !in n.calls
    ensures RunCallback(id) !in actions
  {
    ReachableInv(s);
    StepInv(s, FailWatch(id, didOpen));
    SpentNeverFires(Apply(s, FailWatch(id, didOpen)), actions, id);
  }
}
