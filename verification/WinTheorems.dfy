/**
 The guarantees of util::WinFileWatcher, over every run.
 */
module WinTheorems {
  import opened Collections
  import opened WinTables
  import opened WinRegistry
  import opened WinSystem
  import opened WinInvariants

  /** Some run of the system ends here. */
  ghost predicate Reachable(s: System) {
    exists actions :: IsRun(INITIAL, actions) && After(INITIAL, actions) == s
  }

  lemma ReachableInv(s: System)
    requires Reachable(s)
    ensures Inv(s)
  {
    var actions :| IsRun(INITIAL, actions) && After(INITIAL, actions) == s;
    InvInitially();
    RunInv(INITIAL, actions);
  }

  // ---- I/O ownership ----

  /** Every directory has at most one read outstanding, and while it has one it is held by exactly one of the
      active table and the draining set; so is the owner of a completion from the moment it is dequeued until its
      read is issued again, outside the mutex, or given up, with no read outstanding all the while; and once its
      owner has been found to be active it stays so. */
  lemma IoOwnership(s: System, r: Ref)
    requires Reachable(s)
    ensures s.outstanding[r] <= 1
    ensures r in s.outstanding ==> (r in Active(s.shared)) != (r in s.shared.draining)
    ensures r in Busy(s.worker.pc) ==> s.outstanding[r] == 0 && (r in Active(s.shared)) != (r in s.shared.draining)
    ensures r in Busy(s.worker.pc) && !s.worker.pc.Completed? ==> r in Active(s.shared)
  {
    ReachableInv(s);
    if r in Held(s.shared) {
      assert Accounted(s, r);
    }
  }

  /** A directory that got an error completion while active is never read again. */
  lemma ErroredIsDead(s: System, r: Ref)
    requires Reachable(s) && r in s.history.errored
    ensures r !in s.outstanding && r !in Busy(s.worker.pc)
  {
    ReachableInv(s);
    if r in Held(s.shared) {
      assert Accounted(s, r);
    }
  }

  /** The watch, if it is still registered, is in a directory that got an error completion. */
  ghost predicate InDeadDirectory(s: System, id: Id) {
    id in s.history.registry ==>
      var d := s.history.registry[id].at.dir;
      d in s.shared.dirs && s.shared.dirs[d] in s.history.errored
  }

  /** A watch that was handed out, is not dirty, and is in such a directory or no longer registered. */
  ghost predicate Deaf(s: System, id: Id) {
    id in s.handles && id !in s.worker.dirty && InDeadDirectory(s, id)
  }

  lemma {:induction false} DrainDirs(s: Shared, ids: seq<Id>)
    ensures forall d :: d in DrainAll(s, ids).dirs ==> d in s.dirs && DrainAll(s, ids).dirs[d] == s.dirs[d]
    decreases ids
  {
    if ids != [] {
      DrainDirs(DrainOne(s, ids[0]), ids[1..]);
    }
  }

  /** A report of another directory does not touch it. */
  lemma CollectSpares(s: System, id: Id)
    requires Inv(s) && Deaf(s, id) && Enabled(s, CollectDirty)
    ensures id !in Touched(s.shared.tables[s.worker.pc.r], s.worker.pc.report)
  {
    var r := s.worker.pc.r;
    assert Accounted(s, r);
    var d :| d in s.shared.dirs && s.shared.dirs[d] == r;
    var t, report := s.shared.tables[r], s.worker.pc.report;
    forall f, e: Entry | f in t && e in t[f] && (report.Overflow? || f in report.names) ensures e.id != id {
      assert Enters(s.shared, d, f, e);
    }
  }

  /** What the step does to the directories that stay. */
  lemma DirsStay(s: System, a: Action, d: DirKey)
    requires Enabled(s, a) && d in s.shared.dirs && d in Apply(s, a).shared.dirs
    ensures Apply(s, a).shared.dirs[d] == s.shared.dirs[d]
  {
    match a {
      case DrainPending => DrainDirs(s.shared, s.shared.pending);
      case _ =>
    }
  }

  lemma ErroredStays(s: System, a: Action)
    requires Enabled(s, a)
    ensures s.history.errored <= Apply(s, a).history.errored
  {
  }

  /** Nobody registers an id twice. */
  lemma RegistryStays(s: System, a: Action, id: Id)
    requires Enabled(s, a) && id in s.handles && id !in s.calls
    ensures id in Apply(s, a).handles
    ensures id in Apply(s, a).history.registry ==>
              id in s.history.registry && Apply(s, a).history.registry[id] == s.history.registry[id]
  {
  }

  lemma DeafNotDirty(s: System, a: Action, id: Id)
    requires Inv(s) && Deaf(s, id) && Enabled(s, a)
    ensures id !in Apply(s, a).worker.dirty
  {
    if a.CollectDirty? {
      CollectSpares(s, id);
    }
  }

  lemma StepDeaf(s: System, a: Action, id: Id)
    requires Inv(s) && Deaf(s, id) && Enabled(s, a) && Inv(Apply(s, a))
    ensures Deaf(Apply(s, a), id)
  {
    var n := Apply(s, a);
    RegistryStays(s, a, id);
    DeafNotDirty(s, a, id);
    if id in n.history.registry {
      var w := n.history.registry[id];
      assert Enters(n.shared, w.at.dir, w.at.file, Entry(id, w.path));
      DirsStay(s, a, w.at.dir);
      ErroredStays(s, a);
    }
  }

  /** The callback of a watch in a directory that got an error completion never runs again, whenever the watch was
      added. */
  lemma {:induction false} DeadDirectoryIsDeaf(s: System, id: Id, actions: seq<Action>)
    requires Inv(s) && Deaf(s, id) && IsRun(s, actions)
    ensures RunCallback(id) !in actions
    decreases |actions|
  {
    if actions != [] {
      var a := actions[0];
      assert a != RunCallback(id);
      StepInv(s, a);
      StepDeaf(s, a, id);
      DeadDirectoryIsDeaf(Apply(s, a), id, actions[1..]);
    }
  }

  /** A new watch joins such a directory all the same, and gets its handle. */
  lemma JoinsDeadDirectory(s: System, id: Id, at: Location, path: Path)
    requires Inv(s) && Enabled(s, JoinWatch(id, at, path)) && s.shared.dirs[at.dir] in s.history.errored
    ensures Deaf(Apply(s, JoinWatch(id, at, path)), id)
  {
  }

  // ---- Index agreement ----

  /** The two tables agree: an entry has exactly its location, no id occurs twice, nothing empty is kept,
      and the two-level lookup answers like the plain map. */
  lemma IndexAgreement(s: System, id: Id)
    requires Reachable(s)
    ensures RefsOk(s.shared)
    ensures forall d, f, e :: Enters(s.shared, d, f, e) ==>
                              e.id in s.shared.locations && s.shared.locations[e.id] == Location(d, f)
    ensures forall d, f, e, d', f', e' :: Enters(s.shared, d, f, e) && Enters(s.shared, d', f', e') && e.id == e'.id ==>
                                          d == d' && f == f' && e == e'
    ensures TablesOk(s.shared)
    ensures Lookup(s.shared, id) == if id in s.history.registry then Some(s.history.registry[id].path) else None
  {
    ReachableInv(s);
    LookupRefines(s.shared, s.history.registry, s.history.orphans, id);
    forall d, f, e, d', f', e' | Enters(s.shared, d, f, e) && Enters(s.shared, d', f', e') && e.id == e'.id
      ensures d == d' && f == f' && e == e'
    {
      EntryUnique(s.shared, s.history.registry, s.history.orphans, d, f, e, d', f', e');
    }
  }

  ghost predicate HasReissueFailure(actions: seq<Action>) {
    exists i :: 0 <= i < |actions| && actions[i].DropDirectory?
  }

  lemma {:induction false} NoFailureNoOrphans(s: System, actions: seq<Action>)
    requires IsRun(s, actions) && s.history.orphans == {} && !HasReissueFailure(actions)
    ensures After(s, actions).history.orphans == {}
    decreases |actions|
  {
    if actions != [] {
      var n := Apply(s, actions[0]);
      assert n.history.orphans == {};
      forall i | 0 <= i < |actions[1..]| ensures !actions[1..][i].DropDirectory? {
        assert actions[1..][i] == actions[i + 1];
      }
      NoFailureNoOrphans(n, actions[1..]);
    }
  }

  /** On runs without a failed re-issue, every location has its entry too. */
  lemma IndexConverse(actions: seq<Action>, id: Id)
    requires IsRun(INITIAL, actions) && !HasReissueFailure(actions)
    ensures var s := After(INITIAL, actions).shared;
            id in s.locations ==>
              RefsOk(s) && exists path :: Enters(s, s.locations[id].dir, s.locations[id].file, Entry(id, path))
  {
    InvInitially();
    RunInv(INITIAL, actions);
    NoFailureNoOrphans(INITIAL, actions);
    var s := After(INITIAL, actions);
    if id in s.shared.locations {
      var w := s.history.registry[id];
      assert Enters(s.shared, w.at.dir, w.at.file, Entry(id, w.path));
    }
  }

  // ---- Unwatch safety ----

  lemma DrainedStays(s: System, a: Action)
    requires Enabled(s, a)
    ensures s.history.drained <= Apply(s, a).history.drained
  {
  }

  lemma DrainedCannotFire(s: System, id: Id)
    requires IdsOk(s) && DirtyOk(s) && id in s.history.drained
    ensures !Enabled(s, RunCallback(id))
  {
  }

  /** Once the worker has drained an id, its callback never runs again. */
  lemma {:induction false} UnwatchSafety(s: System, id: Id, actions: seq<Action>)
    requires Inv(s) && id in s.history.drained && IsRun(s, actions)
    ensures RunCallback(id) !in actions
    decreases |actions|
  {
    if actions != [] {
      DrainedCannotFire(s, id);
      StepInv(s, actions[0]);
      DrainedStays(s, actions[0]);
      UnwatchSafety(Apply(s, actions[0]), id, actions[1..]);
    }
  }

  /** Within one FireDirty, a callback that has run does not run again. */
  lemma {:induction false} FiresOnce(s: System, id: Id, actions: seq<Action>)
    requires Inv(s) && s.worker.pc.Firing? && id in s.worker.pc.done && IsRun(s, actions) && FinishFiring !in actions
    ensures RunCallback(id) !in actions
    decreases |actions|
  {
    if actions != [] {
      var a := actions[0];
      assert a in actions && a != FinishFiring;
      var n := Apply(s, a);
      StepInv(s, a);
      assert n.worker.pc.Firing? && id in n.worker.pc.done;
      FiresOnce(n, id, actions[1..]);
    }
  }

  // ---- Coalescing ----

  /** At the loop head a deadline is set exactly when something is dirty. */
  lemma DeadlineIffDirty(s: System)
    requires Reachable(s) && s.worker.pc.Top?
    ensures s.worker.deadline.Some? <==> s.worker.dirty != {}
  {
    ReachableInv(s);
  }

  /** A deadline that is set is not moved, only cleared. */
  lemma DeadlineNeverMoves(s: System, a: Action)
    requires Enabled(s, a) && s.worker.deadline.Some?
    ensures var n := Apply(s, a); n.worker.deadline == s.worker.deadline || n.worker.deadline.None?
  {
  }

  lemma DirtyLeavesBy(s: System, a: Action, id: Id)
    requires DirtyOk(s) && Enabled(s, a) && id in s.worker.dirty && id !in Apply(s, a).worker.dirty
    ensures || (a == FinishFiring && (id in s.worker.pc.done || id in s.history.drained || id in s.history.orphans))
            || (a == ReadFlag(true) && s.shutdown)
  {
  }

  /** A dirty id leaves by firing, or because it was unwatched, its directory was dropped, or shutdown began. */
  lemma DirtyLeaves(s: System, a: Action, id: Id)
    requires Reachable(s) && Enabled(s, a) && id in s.worker.dirty && id !in Apply(s, a).worker.dirty
    ensures || (a == FinishFiring && (id in s.worker.pc.done || id in s.history.drained || id in s.history.orphans))
            || (a == ReadFlag(true) && s.shutdown)
  {
    ReachableInv(s);
    DirtyLeavesBy(s, a, id);
  }

  // ---- Shutdown ----

  lemma DrainingStays(s: System, a: Action)
    requires ShutdownOk(s) && s.worker.shuttingDown && Enabled(s, a) && !a.Resolve?
    ensures Apply(s, a).worker.shuttingDown && Apply(s, a).shared.draining == s.shared.draining
  {
    match a {
      case DrainPending => DrainNothing(s.shared, s.shared.pending);
      case _ =>
    }
  }

  lemma DrainingCompletes(s: System)
    requires ShutdownOk(s) && ReadsOk(s) && s.worker.shuttingDown && s.worker.pc.Completed?
    ensures s.worker.pc.r in s.shared.draining
    ensures Apply(s, Resolve).worker.shuttingDown
    ensures Apply(s, Resolve).shared.draining == s.shared.draining - {s.worker.pc.r}
  {
  }

  /** Once shutdown has begun nothing starts draining, and only the completion of a draining directory ends it. */
  lemma DrainingShrinks(s: System, a: Action)
    requires Reachable(s) && Enabled(s, a) && s.worker.shuttingDown
    ensures var n := Apply(s, a);
            && n.worker.shuttingDown
            && n.shared.draining == (if a.Resolve? then s.shared.draining - {s.worker.pc.r} else s.shared.draining)
            && (a.Resolve? ==> s.worker.pc.r in s.shared.draining)
  {
    ReachableInv(s);
    if a.Resolve? {
      DrainingCompletes(s);
    } else {
      DrainingStays(s, a);
    }
  }

  /** The worker leaves only when no read is outstanding, after one completion for each directory that was
      draining when shutdown began. */
  lemma ExitIsClean(s: System)
    requires Reachable(s) && s.worker.pc.Exited?
    ensures s.outstanding == multiset{} && s.shared.dirs == map[] && s.shared.draining == {}
    ensures s.history.completions == s.history.retired
  {
    ReachableInv(s);
    assert Held(s.shared) == {};
    assert forall r :: r !in s.outstanding;
  }

  lemma BlockedStays(s: System, r: Ref, a: Action)
    requires ReadsOk(s) && r in s.shared.draining && r in s.history.errored && Enabled(s, a) && !a.DrainPending?
    ensures r in Apply(s, a).shared.draining && r in Apply(s, a).history.errored
  {
  }

  /** A draining directory that got an error completion keeps the worker from ever leaving. */
  lemma {:induction false} ErrorBlocksExit(s: System, r: Ref, actions: seq<Action>)
    requires Inv(s) && r in s.shared.draining && r in s.history.errored && IsRun(s, actions)
    ensures var n := After(s, actions); r in n.shared.draining && !n.worker.pc.Exited?
    decreases |actions|
  {
    if actions != [] {
      var a := actions[0];
      StepInv(s, a);
      if a.DrainPending? {
        DrainHolds(s.shared, s.history.registry, s.history.orphans, s.shared.pending);
      } else {
        BlockedStays(s, r, a);
      }
      ErrorBlocksExit(Apply(s, a), r, actions[1..]);
    }
  }

  function Dequeues(actions: seq<Action>): nat {
    if actions == [] then 0 else (if actions[0].Dequeue? then 1 else 0) + Dequeues(actions[1..])
  }

  lemma {:induction false} RunConcat(s: System, first: seq<Action>, second: seq<Action>)
    requires IsRun(s, first) && IsRun(After(s, first), second)
    ensures IsRun(s, first + second) && After(s, first + second) == After(After(s, first), second)
    ensures Dequeues(first + second) == Dequeues(first) + Dequeues(second)
    decreases |first|
  {
    if first == [] {
      assert first + second == second;
    } else {
      assert (first + second)[1..] == first[1..] + second;
      RunConcat(Apply(s, first[0]), first[1..], second);
    }
  }

  lemma OneStep(s: System, a: Action)
    requires Enabled(s, a)
    ensures IsRun(s, [a]) && After(s, [a]) == Apply(s, a) && Dequeues([a]) == if a.Dequeue? then 1 else 0
  {
  }

  lemma TwoSteps(s: System, a: Action, b: Action)
    requires Enabled(s, a) && Enabled(Apply(s, a), b)
    ensures IsRun(s, [a, b]) && After(s, [a, b]) == Apply(Apply(s, a), b)
    ensures Dequeues([a, b]) == (if a.Dequeue? then 1 else 0) + if b.Dequeue? then 1 else 0
  {
    OneStep(s, a);
    OneStep(Apply(s, a), b);
    RunConcat(s, [a], [b]);
    assert [a] + [b] == [a, b];
  }

  /** During shutdown, dequeuing the completion of a draining directory and letting it go. */
  lemma CompleteOne(s: System, r: Ref) returns (actions: seq<Action>)
    requires s.worker.shuttingDown && s.worker.pc.Wait? && r in s.shared.draining && r in s.outstanding
    ensures IsRun(s, actions) && Dequeues(actions) == 1
    ensures var n := After(s, actions);
            && n.worker == s.worker.(pc := Top)
            && n.shared == Release(s.shared, r) && n.history.errored == s.history.errored
  {
    actions := [Dequeue(r, true, Overflow), Resolve];
    TwoSteps(s, Dequeue(r, true, Overflow), Resolve);
  }

  /** Back from the loop head to the exit check, with nothing left to drain. */
  lemma BackToExit(s: System) returns (actions: seq<Action>)
    requires s.worker.shuttingDown && s.worker.pc.Top? && s.shared.locations == map[]
    ensures IsRun(s, actions) && Dequeues(actions) == 0
    ensures var n := After(s, actions);
            && n.worker.shuttingDown && n.worker.pc.SeeExit?
            && n.shared.draining == s.shared.draining && n.history.errored == s.history.errored
  {
    DrainNothing(s.shared, s.shared.pending);
    actions := [DrainPending, ReadFlag(false)];
    TwoSteps(s, DrainPending, ReadFlag(false));
  }

  /** One round of the loop during shutdown: the completion of one draining directory. */
  lemma ShutdownRound(s: System, r: Ref) returns (actions: seq<Action>)
    requires s.worker.shuttingDown && s.worker.pc.SeeExit? && s.shared.locations == map[]
    requires r in s.shared.draining && r in s.outstanding
    ensures IsRun(s, actions) && Dequeues(actions) == 1
    ensures var n := After(s, actions);
            && n.worker.shuttingDown && n.worker.pc.SeeExit?
            && n.shared.draining == s.shared.draining - {r} && n.history.errored == s.history.errored
  {
    OneStep(s, CheckExit);
    var wait := Apply(s, CheckExit);
    var complete := CompleteOne(wait, r);
    var back := BackToExit(After(wait, complete));
    RunConcat(wait, complete, back);
    RunConcat(s, [CheckExit], complete + back);
    actions := [CheckExit] + (complete + back);
  }

  ghost predicate CanFinish(s: System) {
    Inv(s) && s.worker.shuttingDown && s.worker.pc.SeeExit? && s.shared.draining * s.history.errored == {}
  }

  lemma OneFewer(s: System, r: Ref) returns (actions: seq<Action>)
    requires CanFinish(s) && r in s.shared.draining
    ensures IsRun(s, actions) && Dequeues(actions) == 1
    ensures CanFinish(After(s, actions)) && After(s, actions).shared.draining == s.shared.draining - {r}
  {
    assert Accounted(s, r);
    actions := ShutdownRound(s, r);
    RunInv(s, actions);
  }

  /** Without such a directory the worker can leave, after exactly one completion for each draining directory. */
  lemma {:induction false} ShutdownCanFinish(s: System) returns (actions: seq<Action>)
    requires CanFinish(s)
    ensures IsRun(s, actions) && After(s, actions).worker.pc.Exited? && Dequeues(actions) == |s.shared.draining|
    decreases |s.shared.draining|
  {
    if s.shared.draining == {} {
      actions := [CheckExit];
      OneStep(s, CheckExit);
    } else {
      var r :| r in s.shared.draining;
      var round := OneFewer(s, r);
      var rest := ShutdownCanFinish(After(s, round));
      RunConcat(s, round, rest);
      actions := round + rest;
    }
  }

  // From anywhere in shutdown back to the exit check.

  /** Still in shutdown, with no more to drain than before. */
  ghost predicate Onward(s: System, n: System) {
    && n.worker.shuttingDown && n.shared.locations == map[] && n.worker.dirty == {} && n.worker.deadline == None
    && n.shared.draining <= s.shared.draining && n.history.errored == s.history.errored
  }

  /** In shutdown the worker has nothing to collect, read again or fire. */
  lemma NothingToDo(s: System)
    requires Inv(s) && s.worker.shuttingDown
    ensures Onward(s, s)
    ensures !s.worker.pc.Collect? && !s.worker.pc.Reissue? && !s.worker.pc.Drop?
    ensures s.worker.pc.Firing? ==> s.worker.pc.left == {}
    ensures s.worker.pc.Completed? ==> s.worker.pc.r in s.shared.draining
  {
    assert Active(s.shared) == {};
    if s.worker.pc.Completed? {
      assert s.worker.pc.r in Held(s.shared);
    }
  }

  lemma StepToTop(s: System) returns (actions: seq<Action>)
    requires Inv(s) && s.worker.shuttingDown
    requires (s.worker.pc.SeeDeadline? || s.worker.pc.Completed? || s.worker.pc.Firing?)
    ensures IsRun(s, actions) && After(s, actions).worker.pc.Top? && Onward(s, After(s, actions))
  {
    NothingToDo(s);
    var a := if s.worker.pc.SeeDeadline? then CheckDeadline
             else if s.worker.pc.Completed? then Resolve
             else FinishFiring;
    actions := [a];
    OneStep(s, a);
  }

  lemma StepToDeadline(s: System) returns (actions: seq<Action>)
    requires Inv(s) && s.worker.shuttingDown && (s.worker.pc.Wait? || s.worker.pc.Arm?)
    ensures IsRun(s, actions) && After(s, actions).worker.pc.SeeDeadline? && Onward(s, After(s, actions))
  {
    NothingToDo(s);
    var a := if s.worker.pc.Wait? then WakeUp else ArmDeadline;
    actions := [a];
    OneStep(s, a);
  }

  lemma Join(s: System, first: seq<Action>, second: seq<Action>) returns (actions: seq<Action>)
    requires IsRun(s, first) && IsRun(After(s, first), second)
    ensures IsRun(s, actions) && After(s, actions) == After(After(s, first), second)
  {
    actions := first + second;
    RunConcat(s, first, second);
  }

  lemma WalkToTop(s: System) returns (actions: seq<Action>)
    requires Inv(s) && s.worker.shuttingDown
    requires !s.worker.pc.Top? && !s.worker.pc.SeeShutdown? && !s.worker.pc.SeeExit? && !s.worker.pc.Exited?
    ensures IsRun(s, actions) && After(s, actions).worker.pc.Top? && Onward(s, After(s, actions))
  {
    NothingToDo(s);
    if s.worker.pc.Wait? || s.worker.pc.Arm? {
      var first := StepToDeadline(s);
      RunInv(s, first);
      var second := StepToTop(After(s, first));
      actions := Join(s, first, second);
    } else {
      actions := StepToTop(s);
    }
  }

  lemma TopToExit(s: System) returns (actions: seq<Action>)
    requires Onward(s, s) && (s.worker.pc.Top? || s.worker.pc.SeeShutdown?)
    ensures IsRun(s, actions) && After(s, actions).worker.pc.SeeExit?
    ensures var n := After(s, actions);
            n.worker.shuttingDown && n.shared.draining == s.shared.draining && n.history.errored == s.history.errored
  {
    if s.worker.pc.Top? {
      actions := BackToExit(s);
    } else {
      actions := [ReadFlag(false)];
      OneStep(s, ReadFlag(false));
    }
  }

  lemma WalkToExit(s: System) returns (actions: seq<Action>)
    requires Inv(s) && s.worker.shuttingDown && !s.worker.pc.Exited?
    ensures IsRun(s, actions) && After(s, actions).worker.pc.SeeExit? && After(s, actions).worker.shuttingDown
    ensures After(s, actions).shared.draining <= s.shared.draining
    ensures After(s, actions).history.errored == s.history.errored
  {
    NothingToDo(s);
    if s.worker.pc.SeeExit? {
      actions := [];
    } else if s.worker.pc.Top? || s.worker.pc.SeeShutdown? {
      actions := TopToExit(s);
    } else {
      var first := WalkToTop(s);
      var second := TopToExit(After(s, first));
      actions := Join(s, first, second);
    }
  }

  lemma CanLeave(s: System) returns (actions: seq<Action>)
    requires Inv(s) && s.worker.shuttingDown && s.shared.draining * s.history.errored == {}
    ensures IsRun(s, actions) && After(s, actions).worker.pc.Exited?
  {
    if s.worker.pc.Exited? {
      actions := [];
    } else {
      var first := WalkToExit(s);
      RunInv(s, first);
      var second := ShutdownCanFinish(After(s, first));
      actions := Join(s, first, second);
    }
  }

  /** At any point of a shutdown the worker can leave if and only if no draining directory had an error completion
      while it was active. */
  lemma ShutdownFinishesExactly(s: System)
    requires Reachable(s) && s.worker.shuttingDown
    ensures (exists actions :: IsRun(s, actions) && After(s, actions).worker.pc.Exited?) <==>
            s.shared.draining * s.history.errored == {}
  {
    ReachableInv(s);
    if s.shared.draining * s.history.errored == {} {
      var actions := CanLeave(s);
    } else {
      var r :| r in s.shared.draining * s.history.errored;
      forall actions | IsRun(s, actions) ensures !After(s, actions).worker.pc.Exited? {
        ErrorBlocksExit(s, r, actions);
      }
    }
  }

  lemma InitiallyReachable()
    ensures Reachable(INITIAL)
  {
    assert IsRun(INITIAL, []) && After(INITIAL, []) == INITIAL;
  }

  lemma ReachableStep(s: System, a: Action)
    requires Reachable(s) && Enabled(s, a)
    ensures Reachable(Apply(s, a))
  {
    var actions :| IsRun(INITIAL, actions) && After(INITIAL, actions) == s;
    OneStep(s, a);
    RunConcat(INITIAL, actions, [a]);
  }

  /** A watched directory whose read is outstanding, with the worker waiting. */
  lemma OneWatch(at: Location, path: Path) returns (s: System)
    ensures Reachable(s) && s.worker == Worker(Wait, {}, None, false) && s.outstanding == multiset{0}
    ensures s.shared.dirs == map[at.dir := 0] && s.shared.pending == [] && s.calls == {} && !s.shutdown
    ensures s.shared.draining == {} && s.history.errored == {}
  {
    InitiallyReachable();
    ReachableStep(INITIAL, BeginWatch);
    var begun := Apply(INITIAL, BeginWatch);
    ReachableStep(begun, OpenWatch(1, at, path));
    var watched := Apply(begun, OpenWatch(1, at, path));
    ReachableStep(watched, DrainPending);
    var drained := Apply(watched, DrainPending);
    ReachableStep(drained, ReadFlag(false));
    ReachableStep(Apply(drained, ReadFlag(false)), CheckExit);
    s := Apply(Apply(drained, ReadFlag(false)), CheckExit);
  }

  /** Its read completes with an error. */
  lemma DeadWatch(at: Location, path: Path) returns (s: System)
    ensures Reachable(s) && s.worker == Worker(Top, {}, None, false) && s.shared.dirs == map[at.dir := 0]
    ensures s.shared.pending == [] && s.calls == {} && !s.shutdown && s.history.errored == {0}
  {
    var waiting := OneWatch(at, path);
    assert 0 in Active(waiting.shared) by { assert waiting.shared.dirs[at.dir] == 0; }
    var error := Dequeue(0, false, Overflow);
    ReachableStep(waiting, error);
    var completed := Apply(waiting, error);
    ReachableStep(completed, Resolve);
    s := Apply(completed, Resolve);
  }

  /** A concrete run into that trap: one directory, one error completion, then destruction. */
  lemma ShutdownCanHang(at: Location, path: Path) returns (s: System)
    ensures Reachable(s) && s.worker.shuttingDown && s.worker.pc.SeeExit?
    ensures !exists actions :: IsRun(s, actions) && After(s, actions).worker.pc.Exited?
  {
    var dead := DeadWatch(at, path);
    ReachableStep(dead, Destroy);
    var destroyed := Apply(dead, Destroy);
    ReachableStep(destroyed, DrainPending);
    var drained := Apply(destroyed, DrainPending);
    ReachableStep(drained, ReadFlag(true));
    s := Apply(drained, ReadFlag(true));
    assert 0 in s.shared.draining by { assert drained.shared.dirs[at.dir] == 0; }
    ShutdownFinishesExactly(s);
  }
}
