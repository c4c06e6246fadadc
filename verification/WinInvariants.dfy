/**
 What every interleaving of util::WinFileWatcher keeps.
 */
module WinInvariants {
  import opened Collections
  import opened WinTables
  import opened WinRegistry
  import opened WinSystem

  // ---- Ids ----

  ghost predicate IdsOk(s: System) {
    var h := s.history;
    && (forall id :: id in s.calls || id in s.handles ==> id < s.nextId)
    && s.calls !! s.handles
    && h.registry.Keys <= s.handles && h.orphans <= s.handles && h.drained <= s.handles
    && ToSet(s.shared.pending) <= s.handles
    && h.registry.Keys !! h.drained
  }

  // ---- Reads and their owners ----

  /** A directory watcher is alive in the table of active directories or in the draining set. */
  ghost function Held(s: Shared): set<Ref> {
    Active(s) + s.draining
  }

  /** The directory whose completion the worker is handling: its read is dequeued and not yet issued again. */
  ghost function Busy(pc: Pc): set<Ref> {
    if pc.Completed? || pc.Collect? || pc.Reissue? || pc.Drop? then {pc.r} else {}
  }

  /** Exactly one of: a read outstanding, being handled, dead after an error. */
  ghost predicate Accounted(s: System, r: Ref) {
    var busy, dead := r in Busy(s.worker.pc), r in s.history.errored;
    if s.outstanding[r] == 0 then busy != dead else s.outstanding[r] == 1 && !busy && !dead
  }

  ghost predicate ReadsOk(s: System) {
    && (forall r :: r in Held(s.shared) ==> Accounted(s, r))
    && (forall r :: r in s.outstanding || r in Busy(s.worker.pc) ==> r in Held(s.shared))
    && (forall r :: r in s.history.errored ==> r < s.shared.nextRef)
    && (s.worker.pc.Collect? || s.worker.pc.Reissue? || s.worker.pc.Drop? ==> s.worker.pc.r in Active(s.shared))
  }

  // ---- Coalescing ----

  /** Between collecting and arming, the dirty set may be ahead of the deadline. */
  predicate MayLackDeadline(pc: Pc) {
    pc.Reissue? || pc.Drop? || pc.Arm?
  }

  ghost predicate DirtyOk(s: System) {
    var w, h := s.worker, s.history;
    && w.dirty <= h.registry.Keys + h.orphans + h.drained
    && (w.deadline.Some? ==> w.dirty != {})
    && (w.dirty != {} && !MayLackDeadline(w.pc) ==> w.deadline.Some?)
    && (w.pc.Firing? ==>
          && w.pc.left <= h.registry.Keys
          && w.pc.left !! w.pc.done
          && w.pc.left + w.pc.done <= w.dirty
          && w.dirty * h.registry.Keys <= w.pc.left + w.pc.done)
  }

  // ---- Shutdown ----

  ghost predicate ShutdownOk(s: System) {
    && (s.shutdown ==> s.calls == {})
    && (s.worker.pc.Exited? ==> s.worker.shuttingDown && s.shared.draining == {})
    && (s.worker.shuttingDown ==>
          && s.shutdown
          && s.shared.dirs == map[] && s.shared.locations == map[]
          && s.worker.dirty == {}
          && s.history.registry == map[]
          && |s.shared.draining| + s.history.completions == s.history.retired)
  }

  ghost predicate Inv(s: System) {
    && Refines(s.shared, s.history.registry, s.history.orphans)
    && IdsOk(s)
    && ReadsOk(s)
    && DirtyOk(s)
    && ShutdownOk(s)
  }

  lemma InvInitially()
    ensures Inv(INITIAL)
  {
  }

  // ---- Draining ----

  lemma {:induction false} DrainNothing(s: Shared, ids: seq<Id>)
    requires s.locations == map[]
    ensures DrainAll(s, ids) == s
    decreases ids
  {
    if ids != [] {
      DrainNothing(s, ids[1..]);
    }
  }

  /** Draining moves directories from the active table to the draining set; none is let go. */
  lemma DrainOneHolds(s: Shared, id: Id)
    requires RefsOk(s)
    ensures var n := DrainOne(s, id);
            Held(n) == Held(s) && n.nextRef == s.nextRef && n.pending == s.pending && s.draining <= n.draining
  {
    var n := DrainOne(s, id);
    if n.dirs != s.dirs {
      var d := s.locations[id].dir;
      assert n.dirs == s.dirs - {d};
      assert Active(n) == Active(s) - {s.dirs[d]} by {
        forall r | r in Active(s) && r != s.dirs[d] ensures r in Active(n) {
          var e :| e in s.dirs && s.dirs[e] == r;
          assert n.dirs[e] == r;
        }
      }
      assert s.dirs[d] in Active(s);
    }
  }

  lemma {:induction false} DrainHolds(s: Shared, reg: Registry, orphans: set<Id>, ids: seq<Id>)
    requires Refines(s, reg, orphans)
    ensures var n := DrainAll(s, ids);
            Held(n) == Held(s) && n.nextRef == s.nextRef && n.pending == s.pending && s.draining <= n.draining
    decreases ids
  {
    if ids != [] {
      DrainOneHolds(s, ids[0]);
      DrainOneRefines(s, reg, orphans, ids[0]);
      DrainHolds(DrainOne(s, ids[0]), reg - {ids[0]}, orphans, ids[1..]);
    }
  }

  // ---- Refinement ----

  lemma StepRefines(s: System, a: Action)
    requires Inv(s) && Enabled(s, a)
    ensures var n := Apply(s, a); Refines(n.shared, n.history.registry, n.history.orphans)
  {
    var sh, reg, orphans := s.shared, s.history.registry, s.history.orphans;
    match a {
      case JoinWatch(id, at, path) => JoinRefines(sh, reg, orphans, id, at, path);
      case OpenWatch(id, at, path) => OpenRefines(sh, reg, orphans, id, at, path);
      case FailWatch(_, _) => FailRefines(sh, reg, orphans);
      case Close(id) => PendingIrrelevant(sh, sh.pending + [id], reg, orphans);
      case DrainPending => DrainRefines(sh, reg, orphans);
      case ReadFlag(_) => RetireRefines(sh, reg, orphans);
      case Resolve => ReleaseRefines(sh, reg, orphans, s.worker.pc.r);
      case DropDirectory => DropRefines(sh, reg, orphans, s.worker.pc.r);
      case _ =>
    }
  }

  lemma RegisterIds(s: System, n: System, id: Id, w: Watch)
    requires IdsOk(s) && id in s.calls
    requires n.calls == s.calls - {id} && n.handles == s.handles + {id} && n.nextId == s.nextId
    requires n.shared.pending == s.shared.pending
    requires n.history == s.history.(registry := s.history.registry[id := w])
    ensures IdsOk(n)
  {
  }

  lemma DrainIds(s: System)
    requires Inv(s) && s.worker.pc.Top?
    ensures IdsOk(Apply(s, DrainPending))
  {
  }

  lemma CloseIds(s: System, id: Id)
    requires IdsOk(s) && Enabled(s, Close(id))
    ensures IdsOk(Apply(s, Close(id)))
  {
  }

  lemma BeginIds(s: System)
    requires IdsOk(s) && Enabled(s, BeginWatch)
    ensures IdsOk(Apply(s, BeginWatch))
  {
  }

  lemma QuietIds(s: System, a: Action)
    requires IdsOk(s) && Enabled(s, a)
    requires !a.BeginWatch? && !a.JoinWatch? && !a.OpenWatch? && !a.Close? && !a.DrainPending?
    ensures IdsOk(Apply(s, a))
  {
  }

  lemma StepIds(s: System, a: Action)
    requires Inv(s) && Enabled(s, a)
    ensures IdsOk(Apply(s, a))
  {
    match a {
      case BeginWatch => BeginIds(s);
      case JoinWatch(id, at, path) => RegisterIds(s, Apply(s, a), id, Watch(at, path));
      case OpenWatch(id, at, path) => RegisterIds(s, Apply(s, a), id, Watch(at, path));
      case Close(id) => CloseIds(s, id);
      case DrainPending => DrainIds(s);
      case _ => QuietIds(s, a);
    }
  }

  // ---- Reads ----

  lemma ActiveAfterOpen(s: Shared, id: Id, at: Location, path: Path)
    requires at.dir !in s.dirs
    ensures Active(OpenDir(s, id, at, path)) == Active(s) + {s.nextRef}
  {
    var n := OpenDir(s, id, at, path);
    assert n.dirs[at.dir] == s.nextRef;
    forall r | r in Active(s) ensures r in Active(n) {
      var d :| d in s.dirs && s.dirs[d] == r;
      assert n.dirs[d] == r;
    }
  }

  lemma ActiveAfterDrop(s: Shared, r: Ref)
    ensures Active(DropDir(s, r)) == Active(s) - {r}
  {
    var n := DropDir(s, r);
    forall q | q in Active(s) && q != r ensures q in Active(n) {
      var d :| d in s.dirs && s.dirs[d] == q;
      assert n.dirs[d] == q;
    }
  }

  /** A move that holds the same directories, reads and errors, and handles the same completion. */
  lemma SameReads(s: System, n: System)
    requires ReadsOk(s)
    requires Held(n.shared) == Held(s.shared) && n.outstanding == s.outstanding
    requires n.history.errored == s.history.errored
    requires Busy(n.worker.pc) == Busy(s.worker.pc) && n.shared.nextRef >= s.shared.nextRef
    requires n.worker.pc.Collect? || n.worker.pc.Reissue? || n.worker.pc.Drop? ==> n.worker.pc.r in Active(n.shared)
    ensures ReadsOk(n)
  {
  }

  /** A move that concerns one directory only, and accounts for it. */
  lemma OneDirectory(s: System, n: System, r: Ref)
    requires ReadsOk(s) && n.shared.nextRef >= s.shared.nextRef
    requires forall q :: q != r ==> (q in Held(n.shared) <==> q in Held(s.shared))
    requires forall q :: q != r ==> n.outstanding[q] == s.outstanding[q]
    requires forall q :: q != r ==> (q in Busy(n.worker.pc) <==> q in Busy(s.worker.pc))
    requires forall q :: q != r ==> (q in n.history.errored <==> q in s.history.errored)
    requires if r in Held(n.shared) then Accounted(n, r) && r < n.shared.nextRef
             else && n.outstanding[r] == 0 && r !in Busy(n.worker.pc)
                  && (r in n.history.errored ==> r in s.history.errored)
    requires n.worker.pc.Collect? || n.worker.pc.Reissue? || n.worker.pc.Drop? ==> n.worker.pc.r in Active(n.shared)
    ensures ReadsOk(n)
  {
  }

  lemma OpenReads(s: System, a: Action)
    requires ReadsOk(s) && RefsOk(s.shared) && Enabled(s, a) && a.OpenWatch?
    ensures ReadsOk(Apply(s, a))
  {
    var n := Apply(s, a);
    var r := s.shared.nextRef;
    ActiveAfterOpen(s.shared, a.id, a.at, a.path);
    assert r !in Held(s.shared);
    assert Accounted(n, r);
    OneDirectory(s, n, r);
  }

  lemma DrainReads(s: System)
    requires Inv(s) && s.worker.pc.Top?
    ensures ReadsOk(Apply(s, DrainPending))
  {
    DrainHolds(s.shared, s.history.registry, s.history.orphans, s.shared.pending);
    SameReads(s, Apply(s, DrainPending));
  }

  lemma DequeueReads(s: System, a: Action)
    requires ReadsOk(s) && RefsOk(s.shared) && Enabled(s, a) && a.Dequeue?
    ensures ReadsOk(Apply(s, a))
  {
    assert a.r in Held(s.shared) && Accounted(s, a.r);
    OneDirectory(s, Apply(s, a), a.r);
  }

  /** The owner of a completion is always found. */
  lemma ResolveReads(s: System)
    requires ReadsOk(s) && RefsOk(s.shared) && s.worker.pc.Completed?
    ensures ReadsOk(Apply(s, Resolve))
  {
    var r := s.worker.pc.r;
    assert r in Held(s.shared) && Accounted(s, r);
    OneDirectory(s, Apply(s, Resolve), r);
  }

  lemma IssueReads(s: System, a: Action)
    requires ReadsOk(s) && RefsOk(s.shared) && Enabled(s, a) && a.IssueRead?
    ensures ReadsOk(Apply(s, a))
  {
    var r := s.worker.pc.r;
    assert r in Held(s.shared) && Accounted(s, r);
    OneDirectory(s, Apply(s, a), r);
  }

  lemma DropReads(s: System)
    requires ReadsOk(s) && RefsOk(s.shared) && s.worker.pc.Drop?
    ensures ReadsOk(Apply(s, DropDirectory))
  {
    var r := s.worker.pc.r;
    ActiveAfterDrop(s.shared, r);
    assert r in Held(s.shared) && Accounted(s, r);
    OneDirectory(s, Apply(s, DropDirectory), r);
  }

  lemma ShutdownReads(s: System, seen: bool)
    requires Inv(s) && Enabled(s, ReadFlag(seen))
    ensures ReadsOk(Apply(s, ReadFlag(seen)))
  {
    var n := Apply(s, ReadFlag(seen));
    assert Active(Retire(s.shared)) == {};
    assert Held(n.shared) == Held(s.shared);
    SameReads(s, n);
  }

  /** A move that leaves every directory where it is. */
  lemma StillReads(s: System, n: System)
    requires ReadsOk(s)
    requires n.shared.dirs == s.shared.dirs && n.shared.draining == s.shared.draining
    requires n.outstanding == s.outstanding && n.history.errored == s.history.errored
    requires Busy(n.worker.pc) == Busy(s.worker.pc) && n.shared.nextRef >= s.shared.nextRef
    requires n.worker.pc.Collect? || n.worker.pc.Drop? ==> n.worker.pc == s.worker.pc
    requires n.worker.pc.Reissue? ==> n.worker.pc == s.worker.pc || s.worker.pc.Collect?
    ensures ReadsOk(n)
  {
    assert Busy(n.worker.pc) == Busy(s.worker.pc);
    if n.worker.pc.Reissue? {
      assert n.worker.pc.r in Busy(s.worker.pc);
    }
    SameReads(s, n);
  }

  lemma ClientReads(s: System, a: Action)
    requires ReadsOk(s) && Enabled(s, a)
    requires a.BeginWatch? || a.JoinWatch? || a.FailWatch? || a.Close? || a.Destroy? || a.Tick?
    ensures ReadsOk(Apply(s, a))
  {
    StillReads(s, Apply(s, a));
  }

  lemma WorkerOnly(s: System, w: Worker)
    requires ReadsOk(s) && Busy(s.worker.pc) == {} && Busy(w.pc) == {}
    ensures ReadsOk(s.(worker := w))
  {
  }

  lemma QuietReads(s: System, a: Action)
    requires ReadsOk(s) && Enabled(s, a)
    requires a.CheckExit? || a.WakeUp? || a.ArmDeadline? || a.CheckDeadline? || a.RunCallback? || a.FinishFiring?
    ensures ReadsOk(Apply(s, a))
  {
    WorkerOnly(s, Apply(s, a).worker);
  }

  lemma CollectReads(s: System)
    requires ReadsOk(s) && Enabled(s, CollectDirty)
    ensures ReadsOk(Apply(s, CollectDirty))
  {
  }

  lemma StepReads(s: System, a: Action)
    requires Inv(s) && Enabled(s, a)
    ensures ReadsOk(Apply(s, a))
  {
    match a {
      case BeginWatch | JoinWatch(_, _, _) | FailWatch(_, _) | Close(_) | Destroy | Tick => ClientReads(s, a);
      case OpenWatch(_, _, _) => OpenReads(s, a);
      case DrainPending => DrainReads(s);
      case ReadFlag(seen) => ShutdownReads(s, seen);
      case Dequeue(_, _, _) => DequeueReads(s, a);
      case Resolve => ResolveReads(s);
      case CollectDirty => CollectReads(s);
      case IssueRead(_) => IssueReads(s, a);
      case DropDirectory => DropReads(s);
      case _ => QuietReads(s, a);
    }
  }

  // ---- Dirty ids ----

  lemma TouchedRegistered(s: Shared, reg: Registry, orphans: set<Id>, r: Ref, report: Report)
    requires Refines(s, reg, orphans) && r in Active(s)
    ensures r in s.tables && Touched(s.tables[r], report) <= reg.Keys
  {
    var d :| d in s.dirs && s.dirs[d] == r;
    forall id | id in Touched(s.tables[r], report) ensures id in reg {
      var f, e :| f in s.tables[r] && e in s.tables[r][f] && e.id == id;
      assert Enters(s, d, f, e);
    }
  }

  /** FireDirty gathers exactly the dirty ids that are still registered. */
  lemma FoundRegistered(s: System)
    requires Refines(s.shared, s.history.registry, s.history.orphans)
    ensures Found(s) == s.worker.dirty * s.history.registry.Keys
  {
    forall id ensures Lookup(s.shared, id).Some? <==> id in s.history.registry {
      LookupRefines(s.shared, s.history.registry, s.history.orphans, id);
    }
  }

  /** A move that keeps the worker's account, and forgets no id without saying why. */
  lemma SameDirty(s: System, n: System)
    requires IdsOk(s) && DirtyOk(s) && n.worker == s.worker
    requires s.history.orphans == n.history.orphans && s.history.drained == n.history.drained
    requires s.history.registry.Keys <= n.history.registry.Keys <= s.history.registry.Keys + s.calls
    ensures DirtyOk(n)
  {
  }

  lemma DrainDirty(s: System)
    requires Inv(s) && s.worker.pc.Top?
    ensures DirtyOk(Apply(s, DrainPending))
  {
  }

  lemma DropDirty(s: System)
    requires Inv(s) && s.worker.pc.Drop?
    ensures DirtyOk(Apply(s, DropDirectory))
  {
  }

  lemma CollectsDirty(s: System)
    requires Inv(s) && Enabled(s, CollectDirty)
    ensures DirtyOk(Apply(s, CollectDirty))
  {
    TouchedRegistered(s.shared, s.history.registry, s.history.orphans, s.worker.pc.r, s.worker.pc.report);
  }

  lemma GathersDirty(s: System)
    requires Refines(s.shared, s.history.registry, s.history.orphans) && DirtyOk(s) && s.worker.pc.SeeDeadline?
    ensures DirtyOk(Apply(s, CheckDeadline))
  {
    FoundRegistered(s);
  }

  lemma FiresDirty(s: System, a: Action)
    requires DirtyOk(s) && Enabled(s, a) && (a.RunCallback? || a.FinishFiring?)
    ensures DirtyOk(Apply(s, a))
  {
  }

  lemma QuietDirty(s: System, a: Action)
    requires DirtyOk(s) && Enabled(s, a)
    requires a.ReadFlag? || a.CheckExit? || a.WakeUp? || a.Dequeue? || a.Resolve? || a.IssueRead? || a.ArmDeadline?
    ensures DirtyOk(Apply(s, a))
  {
  }

  lemma StepDirty(s: System, a: Action)
    requires Inv(s) && Enabled(s, a)
    ensures DirtyOk(Apply(s, a))
  {
    match a {
      case BeginWatch | JoinWatch(_, _, _) | OpenWatch(_, _, _) | FailWatch(_, _) | Close(_) | Destroy | Tick =>
        SameDirty(s, Apply(s, a));
      case DrainPending => DrainDirty(s);
      case DropDirectory => DropDirty(s);
      case CollectDirty => CollectsDirty(s);
      case CheckDeadline => GathersDirty(s);
      case RunCallback(_) | FinishFiring => FiresDirty(s, a);
      case _ => QuietDirty(s, a);
    }
  }

  // ---- Shutdown ----

  lemma DrainShutdown(s: System)
    requires ShutdownOk(s) && s.worker.pc.Top?
    ensures ShutdownOk(Apply(s, DrainPending))
  {
    if s.worker.shuttingDown {
      DrainNothing(s.shared, s.shared.pending);
    }
  }

  lemma ResolveShutdown(s: System)
    requires ShutdownOk(s) && s.worker.pc.Completed?
    ensures ShutdownOk(Apply(s, Resolve))
  {
  }

  lemma WatchShutdown(s: System, a: Action)
    requires ShutdownOk(s) && Enabled(s, a)
    requires (a.BeginWatch? || a.JoinWatch? || a.OpenWatch? || a.FailWatch? || a.Close?)
    ensures ShutdownOk(Apply(s, a))
  {
  }

  lemma DirtyShutdown(s: System, a: Action)
    requires ShutdownOk(s) && ReadsOk(s) && Enabled(s, a) && (a.CollectDirty? || a.DropDirectory?)
    ensures ShutdownOk(Apply(s, a))
  {
  }

  lemma QuietShutdown(s: System, a: Action)
    requires ShutdownOk(s) && Enabled(s, a)
    requires a.Destroy? || a.Tick? || a.ReadFlag? || a.CheckExit? || a.WakeUp? || a.Dequeue? || a.IssueRead?
             || a.ArmDeadline? || a.CheckDeadline? || a.RunCallback? || a.FinishFiring?
    ensures ShutdownOk(Apply(s, a))
  {
  }

  lemma StepShutdown(s: System, a: Action)
    requires Inv(s) && Enabled(s, a)
    ensures ShutdownOk(Apply(s, a))
  {
    match a {
      case BeginWatch | JoinWatch(_, _, _) | OpenWatch(_, _, _) | FailWatch(_, _) | Close(_) => WatchShutdown(s, a);
      case DrainPending => DrainShutdown(s);
      case Resolve => ResolveShutdown(s);
      case CollectDirty | DropDirectory => DirtyShutdown(s, a);
      case _ => QuietShutdown(s, a);
    }
  }

  /** Every enabled action keeps the invariant. */
  lemma StepInv(s: System, a: Action)
    requires Inv(s) && Enabled(s, a)
    ensures Inv(Apply(s, a))
  {
    StepRefines(s, a);
    StepIds(s, a);
    StepReads(s, a);
    StepDirty(s, a);
    StepShutdown(s, a);
  }

  /** Every run keeps the invariant. */
  lemma {:induction false} RunInv(s: System, actions: seq<Action>)
    requires Inv(s) && IsRun(s, actions)
    ensures Inv(After(s, actions))
    decreases |actions|
  {
    if actions != [] {
      StepInv(s, actions[0]);
      RunInv(Apply(s, actions[0]), actions[1..]);
    }
  }
}
