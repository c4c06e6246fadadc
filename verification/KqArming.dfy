/**
 The window between opening a file and arming its descriptor: what it costs util::KqueueFileWatcher, and when.
 */
module KqArming {
  import opened Collections
  import opened KqSystem
  import opened KqInvariants
  import opened KqEvents
  import opened KqTracking
  import opened KqStraying
  import opened KqTheorems

  // ---- Right after arming ----

  lemma ArmedExactly(s: System)
    requires Inv(s) && Enabled(s, ArmFile(true))
    ensures var n, id := Apply(s, ArmFile(true)), s.lock.id;
            id in n.watches && (Followed(n, id, n.watches[id]) <==> OnPath(s, s.watches[id]))
  {
    var n, id, w := Apply(s, ArmFile(true)), s.lock.id, s.watches[s.lock.id];
    if OnPath(s, w) {
      ArmedSettles(s);
    } else {
      ArmedQuietly(s);
      assert !Due(n, w.fileFd.value, id, Gone);
    }
  }

  /** Whatever the watch does not know is announced to it after arming exactly when the path still names the file
      that was opened, and after a failure to arm exactly when there is no file or the directory has news. */
  lemma ArmSettlesExactly(s: System, ok: bool)
    requires Reachable(s) && Enabled(s, ArmFile(ok))
    ensures var n, id := Apply(s, ArmFile(ok)), s.lock.id;
            && id in n.watches
            && (Followed(n, id, n.watches[id]) <==>
                if ok then OnPath(s, s.watches[id]) else Recoverable(s, id, s.watches[id]))
  {
    ReachableInv(s);
    if ok {
      ArmedExactly(s);
    } else {
      UnarmedSettles(s);
    }
  }

  // ---- Keeping on course ----

  /** Between opening and arming nothing happens to the watch's path, and arming fails only if the directory has
      news. */
  ghost predicate Undisturbed(s: System, a: Action, id: Id) {
    s.lock.Arming? && s.lock.id == id && id in s.watches ==>
      var w := s.watches[id];
      && (a == ArmFile(false) ==> Due(s, w.dirFd, id, Either))
      && a != Delete(w.path)
      && !(a.Rename? && (a.path == w.path || a.target == w.path))
  }

  ghost predicate UndisturbedRun(s: System, actions: seq<Action>, id: Id)
    requires IsRun(s, actions)
    decreases |actions|
  {
    actions == [] || (Undisturbed(s, actions[0], id) && UndisturbedRun(Apply(s, actions[0]), actions[1..], id))
  }

  ghost predicate OnCourse(s: System, id: Id) {
    id !in s.history.adrift && (s.lock.Arming? && s.lock.id == id && id in s.watches ==> OnPath(s, s.watches[id]))
  }

  lemma FilesOnCourse(s: System, a: Action, id: Id)
    requires OnCourse(s, id) && Enabled(s, a) && Undisturbed(s, a, id) && OfFiles(a)
    ensures OnCourse(Apply(s, a), id)
  {
    FilesLouder(s, a);
    match a {
      case Delete(path) => UnlinkLouder(s.kernel, path);
      case Rename(path, target) => RenameFiles(s, path, target);
      case _ =>
    }
  }

  lemma OpenOnCourse(s: System, a: Action, id: Id)
    requires OnCourse(s, id) && Enabled(s, a) && Undisturbed(s, a, id) && (a.OpenFile? || a.ArmFile?)
    ensures OnCourse(Apply(s, a), id)
  {
  }

  lemma DrainOnCourse(s: System, a: Action, id: Id)
    requires PhaseOk(s) && OnCourse(s, id) && Enabled(s, a) && (a.DrainPending? || a.Teardown?)
    ensures OnCourse(Apply(s, a), id)
  {
    UnwatchAllMeans(s, if a.DrainPending? then s.pending else OrderOf(s.watches.Keys));
  }

  lemma QuietOnCourse(s: System, a: Action, id: Id)
    requires OnCourse(s, id) && Enabled(s, a) && Quiet(a) && !OfFiles(a)
    ensures OnCourse(Apply(s, a), id)
  {
    QuietMeans(s, a);
    assert Apply(s, a).history.adrift == s.history.adrift;
  }

  lemma LockOnCourse(s: System, a: Action, id: Id)
    requires OnCourse(s, id) && Enabled(s, a) && (a.Register? || a.HandleEvent?)
    ensures OnCourse(Apply(s, a), id)
  {
    assert !Apply(s, a).lock.Arming?;
  }

  lemma RestOnCourse(s: System, a: Action, id: Id)
    requires OnCourse(s, id) && Enabled(s, a) && (a.BeginWatch? || a.Deliver?)
    ensures OnCourse(Apply(s, a), id)
  {
  }

  lemma StepOnCourse(s: System, a: Action, id: Id)
    requires PhaseOk(s) && OnCourse(s, id) && Enabled(s, a) && Undisturbed(s, a, id)
    ensures OnCourse(Apply(s, a), id)
  {
    if OfFiles(a) {
      FilesOnCourse(s, a, id);
    } else if a.OpenFile? || a.ArmFile? {
      OpenOnCourse(s, a, id);
    } else if a.DrainPending? || a.Teardown? {
      DrainOnCourse(s, a, id);
    } else if Quiet(a) {
      QuietOnCourse(s, a, id);
    } else if a.Register? || a.HandleEvent? {
      LockOnCourse(s, a, id);
    } else {
      RestOnCourse(s, a, id);
    }
  }

  lemma {:induction false} UndisturbedStaysOnCourse(s: System, actions: seq<Action>, id: Id)
    requires Inv(s) && OnCourse(s, id) && IsRun(s, actions) && UndisturbedRun(s, actions, id)
    ensures OnCourse(After(s, actions), id)
    decreases |actions|
  {
    if actions != [] {
      var a := actions[0];
      StepInv(s, a);
      StepOnCourse(s, a, id);
      UndisturbedStaysOnCourse(Apply(s, a), actions[1..], id);
    }
  }

  /** From a reachable state in which the watch is on course, every run that does not disturb its openings ends
      with it in step, whenever it is settled; whatever is created, written, deleted, renamed and replaced. */
  lemma OnCourseEndsInStep(s: System, actions: seq<Action>, id: Id)
    requires Reachable(s) && OnCourse(s, id) && IsRun(s, actions) && UndisturbedRun(s, actions, id)
    requires var n := After(s, actions); id in n.watches && !LockOn(n, id) && Settled(n, id)
    ensures InStep(After(s, actions), id)
  {
    ReachableInv(s);
    UndisturbedStaysOnCourse(s, actions, id);
    ReachableRun(s, actions);
    NoMissedUpdate(After(s, actions), id);
  }

  /** In particular from the beginning: only what happens to a watch's own path while its own file is opened can
      make it miss an update. */
  lemma NoMissedUpdateUndisturbed(actions: seq<Action>, id: Id)
    requires IsRun(INITIAL, actions) && UndisturbedRun(INITIAL, actions, id)
    requires var n := After(INITIAL, actions); id in n.watches && !LockOn(n, id) && Settled(n, id)
    ensures InStep(After(INITIAL, actions), id)
  {
    InitiallyReachable();
    OnCourseEndsInStep(INITIAL, actions, id);
  }

  // ---- What arming decides ----

  /** The descriptor that the watch relies on: its file's, or without one its directory's. */
  function ReliesOn(w: Watch): Fd {
    if w.fileFd.Some? then w.fileFd.value else w.dirFd
  }

  /** Nothing is on its way for the descriptor that the watch relies on. */
  ghost predicate Still(s: System, id: Id, w: Watch) {
    && id in s.watches && s.watches[id] == w && !LockOn(s, id)
    && ReliesOn(w) in s.kernel.knotes && s.kernel.knotes[ReliesOn(w)] == Knote(id, QUIET)
    && forall e :: e in Unhandled(s) ==> e.fd != ReliesOn(w)
  }

  /** Nothing has changed for the watch. */
  ghost predicate SameStanding(s: System, n: System, id: Id, w: Watch) {
    && n.kernel.files == s.kernel.files && OnPath(n, w) == OnPath(s, w)
    && (id in n.history.adrift <==> id in s.history.adrift)
  }

  lemma StillFrame(s: System, n: System, id: Id, w: Watch)
    requires Still(s, id, w) && SameDescriptor(s, n, ReliesOn(w)) && n.kernel.files == s.kernel.files
    requires id in n.watches && n.watches[id] == w && !LockOn(n, id)
    requires forall e :: e in Unhandled(n) ==> e.fd != ReliesOn(w)
    requires id in n.history.adrift <==> id in s.history.adrift
    ensures Still(n, id, w) && SameStanding(s, n, id, w)
  {
  }

  lemma StillLocked(s: System, a: Action, id: Id, w: Watch)
    requires HoldersOpen(s) && Still(s, id, w) && Enabled(s, a) && Locked(a) && AtRest(Apply(s, a), id)
    ensures Still(Apply(s, a), id, w) && SameStanding(s, Apply(s, a), id, w)
  {
    LockedKeeps(s, a, id);
    LockedSame(s, a);
    StepScope(s, a, id);
    StillFrame(s, Apply(s, a), id, w);
  }

  lemma StillQuiet(s: System, a: Action, id: Id, w: Watch)
    requires HoldersOpen(s) && Still(s, id, w) && Enabled(s, a) && Quiet(a) && !OfFiles(a)
    ensures Still(Apply(s, a), id, w) && SameStanding(s, Apply(s, a), id, w)
  {
    assert WatchOk(s, id, w);
    QuietMeans(s, a);
    QuietUnhandled(s, a);
    RestScope(s, a, id);
    StillFrame(s, Apply(s, a), id, w);
  }

  lemma StillDelivered(s: System, a: Action, id: Id, w: Watch)
    requires HoldersOpen(s) && Still(s, id, w) && Enabled(s, a) && a.Deliver?
    ensures Still(Apply(s, a), id, w) && SameStanding(s, Apply(s, a), id, w)
  {
    assert WatchOk(s, id, w);
    assert ReliesOn(w) !in a.fds;
    StillFrame(s, Apply(s, a), id, w);
  }

  lemma StillDrained(s: System, a: Action, id: Id, w: Watch)
    requires Conserved(s) && Still(s, id, w) && Enabled(s, a) && a.DrainPending? && id in Apply(s, a).watches
    ensures Still(Apply(s, a), id, w) && SameStanding(s, Apply(s, a), id, w)
  {
    UnwatchAllMeans(s, s.pending);
    UnwatchAllKeeps(s, s.pending, id);
    StillFrame(s, Apply(s, a), id, w);
  }

  /** An event that is not for the descriptor that the watch relies on changes nothing for it. */
  lemma HandleSpares(s: System, a: Action, id: Id, w: Watch)
    requires HoldersOpen(s) && Still(s, id, w) && Enabled(s, a) && a.HandleEvent?
    ensures SameDescriptor(s, Apply(s, a), ReliesOn(w)) && AtRest(Apply(s, a), id)
  {
    var e := s.pc.batch[0];
    assert WatchOk(s, id, w) && e in Unhandled(s);
    if e.id in s.watches {
      assert WatchOk(s, e.id, s.watches[e.id]);
    }
  }

  lemma StillHandled(s: System, a: Action, id: Id, w: Watch)
    requires HoldersOpen(s) && Still(s, id, w) && Enabled(s, a) && a.HandleEvent?
    ensures Still(Apply(s, a), id, w) && SameStanding(s, Apply(s, a), id, w)
  {
    HandleSpares(s, a, id, w);
    HandleScope(s, a, id);
    StillFrame(s, Apply(s, a), id, w);
  }

  lemma LockedRests(s: System, a: Action, id: Id)
    requires IdsOk(s) && AtRest(s, id) && Enabled(s, a) && Locked(a)
    ensures AtRest(Apply(s, a), id)
  {
  }

  /** Without a step of the file system the watch stands as it stood, as long as it exists. */
  lemma StepStill(s: System, a: Action, id: Id, w: Watch)
    requires Base(s) && Still(s, id, w) && Enabled(s, a) && !OfFiles(a) && id in Apply(s, a).watches
    ensures Still(Apply(s, a), id, w) && SameStanding(s, Apply(s, a), id, w)
  {
    if Locked(a) {
      LockedRests(s, a, id);
      StillLocked(s, a, id, w);
    } else if a.DrainPending? {
      StillDrained(s, a, id, w);
    } else if a.Teardown? {
      TeardownMeans(s);
    } else if a.Deliver? {
      StillDelivered(s, a, id, w);
    } else if a.HandleEvent? {
      StillHandled(s, a, id, w);
    } else {
      StillQuiet(s, a, id, w);
    }
  }

  predicate NoFiles(actions: seq<Action>) {
    forall i :: 0 <= i < |actions| ==> !OfFiles(actions[i])
  }

  lemma UnwatchedGone(s: System, a: Action, id: Id)
    requires Enabled(s, a) && (a.DrainPending? || a.Teardown?)
    ensures Apply(s, a).history.seen == s.history.seen && (id !in s.watches ==> id !in Apply(s, a).watches)
  {
    UnwatchAllMeans(s, if a.DrainPending? then s.pending else OrderOf(s.watches.Keys));
  }

  lemma RegisterGone(s: System, a: Action, id: Id)
    requires Enabled(s, a) && (a.Register? || a.BeginWatch? || a.Deliver?) && id in s.history.seen && id !in s.calls
    ensures id in Apply(s, a).history.seen && (id !in s.watches ==> id !in Apply(s, a).watches)
  {
  }

  lemma OpenGone(s: System, a: Action, id: Id)
    requires Enabled(s, a) && a.OpenFile? && id in s.history.seen
    ensures id in Apply(s, a).history.seen && (id !in s.watches ==> id !in Apply(s, a).watches)
  {
  }

  lemma ArmGone(s: System, a: Action, id: Id)
    requires Enabled(s, a) && a.ArmFile? && id in s.history.seen
    ensures id in Apply(s, a).history.seen && (id !in s.watches ==> id !in Apply(s, a).watches)
  {
  }

  lemma HandleGone(s: System, a: Action, id: Id)
    requires Enabled(s, a) && a.HandleEvent? && id in s.history.seen
    ensures id in Apply(s, a).history.seen && (id !in s.watches ==> id !in Apply(s, a).watches)
  {
  }

  lemma QuietGone(s: System, a: Action, id: Id)
    requires Enabled(s, a) && Quiet(a) && id in s.history.seen
    ensures id in Apply(s, a).history.seen
  {
  }

  /** A watch that is gone does not come back. */
  lemma GoneStaysGone(s: System, a: Action, id: Id)
    requires IdsOk(s) && Enabled(s, a) && id in s.history.seen
    ensures id in Apply(s, a).history.seen && (id !in s.watches ==> id !in Apply(s, a).watches)
  {
    if a.DrainPending? || a.Teardown? {
      UnwatchedGone(s, a, id);
    } else if a.Register? || a.BeginWatch? || a.Deliver? {
      RegisterGone(s, a, id);
    } else if a.OpenFile? {
      OpenGone(s, a, id);
    } else if a.ArmFile? {
      ArmGone(s, a, id);
    } else if a.HandleEvent? {
      HandleGone(s, a, id);
    } else {
      QuietGone(s, a, id);
      QuietMeans(s, a);
    }
  }

  lemma {:induction false} RunGone(s: System, actions: seq<Action>, id: Id)
    requires Base(s) && IsRun(s, actions) && id in s.history.seen && id !in s.watches
    ensures id !in After(s, actions).watches
    decreases |actions|
  {
    if actions != [] {
      StepBase(s, actions[0]);
      GoneStaysGone(s, actions[0], id);
      RunGone(Apply(s, actions[0]), actions[1..], id);
    }
  }

  lemma {:induction false} RunStill(s: System, actions: seq<Action>, id: Id, w: Watch)
    requires Inv(s) && Still(s, id, w) && IsRun(s, actions) && NoFiles(actions) && id in After(s, actions).watches
    ensures Still(After(s, actions), id, w) && SameStanding(s, After(s, actions), id, w)
    decreases |actions|
  {
    if actions != [] {
      var a := actions[0];
      var n := Apply(s, a);
      StepInv(s, a);
      if id in n.watches {
        StepStill(s, a, id, w);
        assert NoFiles(actions[1..]);
        RunStill(n, actions[1..], id, w);
      } else {
        assert id in s.history.seen;
        GoneStaysGone(s, a, id);
        RunGone(n, actions[1..], id);
      }
    }
  }

  // ---- Until the file is opened again ----

  /** On this run the watch's own file is not opened or armed. */
  ghost predicate NotReopened(s: System, actions: seq<Action>, id: Id)
    requires IsRun(s, actions)
    decreases |actions|
  {
    actions == [] || (!Opens(s, actions[0], id) && NotReopened(Apply(s, actions[0]), actions[1..], id))
  }

  lemma OpenAdrift(s: System, a: Action, id: Id)
    requires Enabled(s, a) && a.OpenFile? && !LockOn(s, id)
    ensures id in Apply(s, a).history.adrift <==> id in s.history.adrift
  {
  }

  lemma ArmOthersAdrift(s: System, a: Action, id: Id)
    requires Enabled(s, a) && a.ArmFile? && !LockOn(s, id)
    ensures id in Apply(s, a).history.adrift <==> id in s.history.adrift
  {
  }

  lemma RestAdrift(s: System, a: Action)
    requires Enabled(s, a) && !a.OpenFile? && !a.ArmFile? && !a.DrainPending? && !a.Teardown?
    ensures Apply(s, a).history.adrift == s.history.adrift
  {
  }

  /** A watch goes adrift, or comes back, only when its own file is opened or armed. */
  lemma StepAdrift(s: System, a: Action, id: Id)
    requires Enabled(s, a) && !Opens(s, a, id)
    ensures id in Apply(s, a).history.adrift <==> id in s.history.adrift
  {
    if a.OpenFile? {
      OpenAdrift(s, a, id);
    } else if a.ArmFile? {
      ArmOthersAdrift(s, a, id);
    } else if a.DrainPending? || a.Teardown? {
      UnwatchAllMeans(s, if a.DrainPending? then s.pending else OrderOf(s.watches.Keys));
    } else {
      RestAdrift(s, a);
    }
  }

  lemma {:induction false} RunAdrift(s: System, actions: seq<Action>, id: Id)
    requires IsRun(s, actions) && NotReopened(s, actions, id)
    ensures id in After(s, actions).history.adrift <==> id in s.history.adrift
    decreases |actions|
  {
    if actions != [] {
      StepAdrift(s, actions[0], id);
      RunAdrift(Apply(s, actions[0]), actions[1..], id);
    }
  }

  lemma ArmAdrift(s: System, ok: bool)
    requires Enabled(s, ArmFile(ok))
    ensures s.lock.id !in Apply(s, ArmFile(ok)).history.adrift <==>
            if ok then OnPath(s, s.watches[s.lock.id]) else Recoverable(s, s.lock.id, s.watches[s.lock.id])
  {
  }

  /** The last arming decides, whatever the file system does afterwards: until the watch's file is opened again, a
      settled watch is in step if and only if the path still named the opened file when it was armed or, after a
      failure, if there was no file or the directory had news. */
  lemma LastArmingDecides(s: System, ok: bool, actions: seq<Action>)
    requires Reachable(s) && Enabled(s, ArmFile(ok)) && IsRun(Apply(s, ArmFile(ok)), actions)
    requires NotReopened(Apply(s, ArmFile(ok)), actions, s.lock.id)
    requires var n := After(Apply(s, ArmFile(ok)), actions); AtRest(n, s.lock.id) && Settled(n, s.lock.id)
    ensures InStep(After(Apply(s, ArmFile(ok)), actions), s.lock.id) <==>
            if ok then OnPath(s, s.watches[s.lock.id]) else Recoverable(s, s.lock.id, s.watches[s.lock.id])
  {
    var n, id := Apply(s, ArmFile(ok)), s.lock.id;
    ReachableStep(s, ArmFile(ok));
    ReachableRun(n, actions);
    ArmAdrift(s, ok);
    RunAdrift(n, actions, id);
    InStepExactly(After(n, actions), id);
  }

  // ---- Until the file system is next touched ----

  /** Right after arming nothing is on its way for the new descriptor. */
  lemma ArmedQuietly(s: System)
    requires Inv(s) && Enabled(s, ArmFile(true))
    ensures Still(Apply(s, ArmFile(true)), s.lock.id, s.watches[s.lock.id])
  {
    var n, w := Apply(s, ArmFile(true)), s.watches[s.lock.id];
    assert WatchOk(s, s.lock.id, w) && w.fileFd.value !in s.kernel.knotes;
    forall e | e in Unhandled(n) ensures e.fd != w.fileFd.value {
      assert e in s.pc.batch && ReportsTo(s, e.fd, e.id);
    }
  }

  /** Right after a failure that cannot be recovered from, nothing is on its way for the directory. */
  lemma UnarmedQuietly(s: System)
    requires Inv(s) && Enabled(s, ArmFile(false)) && !Recoverable(s, s.lock.id, s.watches[s.lock.id])
    ensures Still(Apply(s, ArmFile(false)), s.lock.id, s.watches[s.lock.id].(fileFd := None))
  {
    var n, id, w := Apply(s, ArmFile(false)), s.lock.id, s.watches[s.lock.id];
    assert WatchOk(s, id, w);
    assert !Raised(s, w.dirFd, id, Either);
    forall e | e in Unhandled(n) ensures e.fd != w.dirFd {
      assert e in s.pc.batch && ReportsTo(s, e.fd, e.id) && !Reports(e, w.dirFd, id, Either);
    }
  }

  /** Whether the path still names the opened file when it is armed decides how the watch fares until the file
      system is next touched: if it does, the watch is in step whenever it is settled; if not, it never is. */
  lemma ArmedDecides(s: System, actions: seq<Action>)
    requires Reachable(s) && Enabled(s, ArmFile(true)) && IsRun(Apply(s, ArmFile(true)), actions) && NoFiles(actions)
    requires s.lock.id in After(Apply(s, ArmFile(true)), actions).watches
    ensures var n, id := After(Apply(s, ArmFile(true)), actions), s.lock.id;
            if OnPath(s, s.watches[id]) then !LockOn(n, id) && (Settled(n, id) ==> InStep(n, id)) else !InStep(n, id)
  {
    ReachableInv(s);
    var armed, id, w := Apply(s, ArmFile(true)), s.lock.id, s.watches[s.lock.id];
    var n := After(armed, actions);
    ArmedQuietly(s);
    StepInv(s, ArmFile(true));
    RunStill(armed, actions, id, w);
    ArmedStanding(s);
    if OnPath(s, w) && Settled(n, id) {
      ReachableStep(s, ArmFile(true));
      ReachableRun(armed, actions);
      NoMissedUpdate(n, id);
    }
  }

  lemma ArmedStanding(s: System)
    requires Enabled(s, ArmFile(true))
    ensures var n, id, w := Apply(s, ArmFile(true)), s.lock.id, s.watches[s.lock.id];
            OnPath(n, w) == OnPath(s, w) && (id in n.history.adrift <==> !OnPath(s, w))
  {
  }

  /** A failure to arm that cannot be recovered from leaves the watch out of step until the file system is next
      touched. */
  lemma UnarmedStaysOut(s: System, actions: seq<Action>)
    requires Reachable(s) && Enabled(s, ArmFile(false)) && !Recoverable(s, s.lock.id, s.watches[s.lock.id])
    requires IsRun(Apply(s, ArmFile(false)), actions) && NoFiles(actions)
    requires s.lock.id in After(Apply(s, ArmFile(false)), actions).watches
    ensures !InStep(After(Apply(s, ArmFile(false)), actions), s.lock.id)
  {
    ReachableInv(s);
    var failed, id := Apply(s, ArmFile(false)), s.lock.id;
    UnarmedQuietly(s);
    StepInv(s, ArmFile(false));
    RunStill(failed, actions, id, s.watches[id].(fileFd := None));
  }

  /** One that can be recovered from leaves it on course: in step whenever it is settled, if nothing disturbs it
      again. */
  lemma UnarmedRecovers(s: System, actions: seq<Action>)
    requires Reachable(s) && Enabled(s, ArmFile(false)) && Recoverable(s, s.lock.id, s.watches[s.lock.id])
    requires IsRun(Apply(s, ArmFile(false)), actions) && UndisturbedRun(Apply(s, ArmFile(false)), actions, s.lock.id)
    requires var n := After(Apply(s, ArmFile(false)), actions); AtRest(n, s.lock.id) && Settled(n, s.lock.id)
    ensures InStep(After(Apply(s, ArmFile(false)), actions), s.lock.id)
  {
    ReachableStep(s, ArmFile(false));
    OnCourseEndsInStep(Apply(s, ArmFile(false)), actions, s.lock.id);
  }

  // ---- A missed update ----

  /** One step further, to a state written out. */
  lemma Further(s: System, a: Action, n: System)
    requires Reachable(s) && Enabled(s, a) && Apply(s, a) == n
    ensures Reachable(n)
  {
    ReachableStep(s, a);
  }

  function Begun(path: Path): System {
    INITIAL.(kernel := Kernel(map[path := 0], 1, map[3 := Descriptor(DirNode(path.dir), CallOf(1))], map[]),
             calls := map[1 := Call(path, 3)], nextId := 2, history := History(1, map[path := 1], map[], {}, {}))
  }

  lemma BegunReachable(path: Path)
    ensures Reachable(Begun(path))
  {
    InitiallyReachable();
    ReachableStep(INITIAL, Create(path));
    Further(Apply(INITIAL, Create(path)), BeginWatch(path, 3), Begun(path));
  }

  function Registered(path: Path): System {
    Begun(path).(kernel := Kernel(map[path := 0], 1, map[3 := Descriptor(DirNode(path.dir), DirOf(1))],
                                  map[3 := Knote(1, QUIET)]),
                 watches := map[1 := Watch(path, None, 3)], calls := map[], lock := Opening(1, true))
  }

  lemma RegisteredReachable(path: Path)
    ensures Reachable(Registered(path))
  {
    BegunReachable(path);
    Further(Begun(path), Register(1, true), Registered(path));
  }

  function Descriptors(path: Path): map<Fd, Descriptor> {
    map[3 := Descriptor(DirNode(path.dir), DirOf(1)), 4 := Descriptor(FileNode(0), FileOf(1))]
  }

  function OpenedForWatch(path: Path): System {
    Registered(path).(kernel := Kernel(map[path := 0], 1, Descriptors(path), map[3 := Knote(1, QUIET)]),
                      watches := map[1 := Watch(path, Some(4), 3)], lock := Arming(1, true))
  }

  lemma OpeningReachable(path: Path)
    ensures Reachable(OpenedForWatch(path))
  {
    RegisteredReachable(path);
    Further(Registered(path), OpenFile(4), OpenedForWatch(path));
  }

  /** The file exists, is opened for a new watch, and is deleted before its descriptor is armed. */
  function DeletedInTheWindow(path: Path): System {
    OpenedForWatch(path).(kernel := Kernel(map[], 1, Descriptors(path), map[3 := Knote(1, Notes(false, true))]))
  }

  lemma DeleteTheFile(path: Path)
    ensures Unlink(OpenedForWatch(path).kernel, path) == DeletedInTheWindow(path).kernel
  {
  }

  lemma DeletedReachable(path: Path)
    ensures Reachable(DeletedInTheWindow(path))
  {
    OpeningReachable(path);
    DeleteTheFile(path);
    Further(OpenedForWatch(path), Delete(path), DeletedInTheWindow(path));
  }

  function Adrift(path: Path): System {
    DeletedInTheWindow(path).(
    kernel := Kernel(map[], 1, Descriptors(path), map[3 := Knote(1, Notes(false, true)), 4 := Knote(1, QUIET)]),
    lock := Free, history := History(1, map[path := 1], map[1 := 1], {1}, {}))
  }

  lemma AdriftReachable(path: Path)
    ensures Reachable(Adrift(path))
  {
    DeletedReachable(path);
    Further(DeletedInTheWindow(path), ArmFile(true), Adrift(path));
  }

  /** A new file has come to the path and the worker waits. */
  function Recreated(path: Path): System {
    Adrift(path).(
    kernel := Kernel(map[path := 1], 2, Descriptors(path),
                     map[3 := Knote(1, Notes(false, true)), 4 := Knote(1, QUIET)]),
    history := History(2, map[path := 2], map[1 := 1], {1}, {}))
  }

  lemma CreateTheFile(path: Path)
    ensures CreateFile(Adrift(path), path) == Recreated(path)
  {
  }

  lemma RecreatedReachable(path: Path)
    ensures Reachable(Recreated(path))
  {
    AdriftReachable(path);
    CreateTheFile(path);
    Further(Adrift(path), Create(path), Recreated(path));
  }

  lemma WaitReachable(path: Path)
    ensures Reachable(Recreated(path).(pc := Wait))
  {
    RecreatedReachable(path);
    var s := Recreated(path);
    Further(s, ReadFlag(false), s.(pc := Drain));
    assert ToSet<Id>([]) == {};
    Further(s.(pc := Drain), DrainPending, s.(pc := Wait));
  }

  function Quieted(path: Path): Kernel {
    Kernel(map[path := 1], 2, Descriptors(path), map[3 := Knote(1, QUIET), 4 := Knote(1, QUIET)])
  }

  lemma DeliverTheDirectory(path: Path)
    ensures 3 in Recreated(path).kernel.knotes
    ensures Delivered(Recreated(path).kernel, [3]) == Quieted(path)
    ensures Batch(Recreated(path).kernel, [3]) == [Event(3, 1, Notes(false, true))]
  {
  }

  function LastEvent(path: Path): System {
    Recreated(path).(kernel := Quieted(path), pc := Handling([Event(3, 1, Notes(false, true))]))
  }

  lemma LastEventReachable(path: Path)
    ensures Reachable(LastEvent(path))
  {
    WaitReachable(path);
    DeliverTheDirectory(path);
    Further(Recreated(path).(pc := Wait), Deliver([3]), LastEvent(path));
  }

  /** A watch that is settled and will not hear of its file: the descriptor is on a deleted file, and a new file
      is at the path. */
  lemma UpdateCanBeMissed(path: Path) returns (s: System)
    ensures Reachable(s) && 1 in s.watches && s.lock.Free? && Settled(s, 1)
    ensures var w := s.watches[1];
            && w.path == path && path in s.kernel.files && w.fileFd.Some? && !OnPath(s, w) && !InStep(s, 1)
            && 1 in s.history.seen && path in s.history.changed && s.history.changed[path] > s.history.seen[1]
  {
    LastEventReachable(path);
    s := LastEvent(path).(pc := Handling([]));
    assert [Event(3, 1, Notes(false, true))][1..] == [];
    Further(LastEvent(path), HandleEvent, s);
  }
}
