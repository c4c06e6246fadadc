/**
 The guarantees of util::KqueueFileWatcher, over every run.
 */
module KqTheorems {
  import opened Collections
  import opened KqSystem
  import opened KqInvariants
  import opened KqEvents
  import opened KqTracking
  import opened KqStraying

  ghost predicate Inv(s: System) {
    Base(s) && EventsOk(s) && DirtyOk(s) && Tracking(s) && Straying(s)
  }

  lemma InvInitially()
    ensures Inv(INITIAL)
  {
    InitiallyBase();
  }

  lemma StepInv(s: System, a: Action)
    requires Inv(s) && Enabled(s, a)
    ensures Inv(Apply(s, a))
  {
    StepBase(s, a);
    StepEvents(s, a);
    StepDirty(s, a);
    StepTracking(s, a);
    StepStraying(s, a);
  }

  lemma {:induction false} RunInv(s: System, actions: seq<Action>)
    requires Inv(s) && IsRun(s, actions)
    ensures Inv(After(s, actions))
    decreases |actions|
  {
    if actions != [] {
      StepInv(s, actions[0]);
      RunInv(Apply(s, actions[0]), actions[1..]);
    }
  }

  /** Some run of the system ends here. */
  ghost predicate Reachable(s: System) {
    exists actions :: IsRun(INITIAL, actions) && After(INITIAL, actions) == s
  }

  lemma ReachableInv(s: System)
    requires Reachable(s)
    ensures Inv(s)
  {
    var actions :| IsRun(INITIAL, actions) && After(INITIAL, actions) == s;
    InvInitially();
    RunInv(INITIAL, actions);
  }

  lemma {:induction false} RunSnoc(s: System, actions: seq<Action>, a: Action)
    requires IsRun(s, actions) && Enabled(After(s, actions), a)
    ensures IsRun(s, actions + [a]) && After(s, actions + [a]) == Apply(After(s, actions), a)
    decreases |actions|
  {
    if actions == [] {
      assert [a][1..] == [];
    } else {
      assert (actions + [a])[1..] == actions[1..] + [a];
      RunSnoc(Apply(s, actions[0]), actions[1..], a);
    }
  }

  lemma ReachableStep(s: System, a: Action)
    requires Reachable(s) && Enabled(s, a)
    ensures Reachable(Apply(s, a))
  {
    var actions :| IsRun(INITIAL, actions) && After(INITIAL, actions) == s;
    RunSnoc(INITIAL, actions, a);
  }

  lemma InitiallyReachable()
    ensures Reachable(INITIAL)
  {
    assert IsRun(INITIAL, []) && After(INITIAL, []) == INITIAL;
  }

  lemma {:induction false} ReachableRun(s: System, actions: seq<Action>)
    requires Reachable(s) && IsRun(s, actions)
    ensures Reachable(After(s, actions))
    decreases |actions|
  {
    if actions != [] {
      ReachableStep(s, actions[0]);
      ReachableRun(Apply(s, actions[0]), actions[1..]);
    }
  }

  // ---- Descriptors ----

  /** Someone has the descriptor in hand and is going to close it. */
  ghost predicate Holds(s: System, owner: Owner, fd: Fd) {
    match owner
    case CallOf(id) => id in s.calls && s.calls[id].dirFd == fd
    case DirOf(id) => id in s.watches && s.watches[id].dirFd == fd
    case FileOf(id) => id in s.watches && s.watches[id].fileFd == Some(fd)
  }

  /** The open descriptors are exactly those of the watches and of the calls in progress, and each has one holder. */
  lemma DescriptorsConserved(s: System, fd: Fd)
    requires Reachable(s)
    ensures fd in s.kernel.open <==> exists owner :: Holds(s, owner, fd)
    ensures forall owner, other :: Holds(s, owner, fd) && Holds(s, other, fd) ==> owner == other
  {
    ReachableInv(s);
    if fd in s.kernel.open {
      assert Owned(s, fd, s.kernel.open[fd]);
      assert Holds(s, s.kernel.open[fd].owner, fd);
    }
    forall owner | Holds(s, owner, fd) ensures fd in s.kernel.open && s.kernel.open[fd].owner == owner {
      if owner.CallOf? {
        assert OwnedBy(s, s.calls[owner.id].dirFd, CallOf(owner.id));
      } else {
        assert WatchOk(s, owner.id, s.watches[owner.id]);
      }
    }
  }

  /** Unwatching in this order closes only descriptors that are open, none of them twice. */
  ghost predicate ClosesOpen(s: System, ids: seq<Id>)
    decreases |ids|
  {
    ids == [] ||
    (&& (ids[0] in s.watches ==>
           var w := s.watches[ids[0]];
           && w.dirFd in s.kernel.open && w.fileFd != Some(w.dirFd)
           && (w.fileFd.Some? ==> w.fileFd.value in s.kernel.open))
     && ClosesOpen(Unwatch(s, ids[0]), ids[1..]))
  }

  lemma {:induction false} UnwatchCloses(s: System, ids: seq<Id>)
    requires Conserved(s) && s.lock.Free?
    ensures ClosesOpen(s, ids)
    decreases |ids|
  {
    if ids != [] {
      assert ids[0] in s.watches ==> WatchOk(s, ids[0], s.watches[ids[0]]);
      UnwatchOwned(s, ids[0]);
      UnwatchHolders(s, ids[0]);
      UnwatchCloses(Unwatch(s, ids[0]), ids[1..]);
    }
  }

  lemma NoHolderNoDescriptor(s: System)
    requires OpenOwned(s) && s.watches == map[] && s.calls == map[]
    ensures s.kernel.open == map[]
  {
  }

  lemma TeardownMeans(s: System)
    requires Enabled(s, Teardown)
    ensures Apply(s, Teardown).watches == map[] && Apply(s, Teardown).calls == s.calls
  {
    UnwatchAllMeans(s, OrderOf(s.watches.Keys));
  }

  /** Draining closes each descriptor once, and so does the destructor, which leaves none open. */
  lemma NoneSurvive(s: System)
    requires Reachable(s)
    ensures s.lock.Free? ==> ClosesOpen(s, s.pending)
    ensures Enabled(s, Teardown) ==> ClosesOpen(s, OrderOf(s.watches.Keys)) && Apply(s, Teardown).kernel.open == map[]
  {
    ReachableInv(s);
    if s.lock.Free? {
      UnwatchCloses(s, s.pending);
      UnwatchCloses(s, OrderOf(s.watches.Keys));
    }
    if Enabled(s, Teardown) {
      StepConserved(s, Teardown);
      TeardownMeans(s);
      NoHolderNoDescriptor(Apply(s, Teardown));
    }
  }

  /** Whatever an action closes is open: the directory of a call that fails, the file that could not be armed, the
      file that has left its path, and what is unwatched. */
  ghost predicate ClosesOnlyOpen(s: System, a: Action)
    requires Enabled(s, a)
  {
    match a
    case Register(id, false) => s.calls[id].dirFd in s.kernel.open
    case ArmFile(false) => s.watches[s.lock.id].fileFd.value in s.kernel.open
    case HandleEvent => LeavesPath(s, s.pc.batch[0]) ==> s.pc.batch[0].fd in s.kernel.open
    case DrainPending => ClosesOpen(s, s.pending)
    case Teardown => ClosesOpen(s, OrderOf(s.watches.Keys))
    case _ => s.kernel.open.Keys <= Apply(s, a).kernel.open.Keys
  }

  lemma FilesOpenOnly(s: System, a: Action)
    requires Enabled(s, a) && OfFiles(a)
    ensures Apply(s, a).kernel.open == s.kernel.open
  {
    FilesLouder(s, a);
  }

  lemma LockedOpensOnly(s: System, a: Action)
    requires Enabled(s, a) && Locked(a) && a != ArmFile(false) && !(a.Register? && !a.armed)
    ensures s.kernel.open.Keys <= Apply(s, a).kernel.open.Keys
  {
  }

  lemma OwnersCloseOpen(s: System, a: Action)
    requires HoldersOpen(s) && Enabled(s, a) && (a.Register? || a.ArmFile? || a.HandleEvent?)
    ensures ClosesOnlyOpen(s, a)
  {
    match a {
      case Register(id, armed) =>
        assert OwnedBy(s, s.calls[id].dirFd, CallOf(id));
        if armed {
          LockedOpensOnly(s, a);
        }
      case ArmFile(ok) =>
        if ok {
          LockedOpensOnly(s, a);
        }
      case HandleEvent =>
        var e := s.pc.batch[0];
        assert e.id in s.watches ==> WatchOk(s, e.id, s.watches[e.id]);
    }
  }

  lemma RestClosesNothing(s: System, a: Action)
    requires Enabled(s, a) && (Quiet(a) || a.Deliver? || a.BeginWatch? || a.OpenFile?)
    ensures s.kernel.open.Keys <= Apply(s, a).kernel.open.Keys
  {
    if OfFiles(a) {
      FilesOpenOnly(s, a);
    } else if Locked(a) {
      LockedOpensOnly(s, a);
    } else if !a.Deliver? {
      QuietMeans(s, a);
    }
  }

  /** Every close is of a descriptor that is open. */
  lemma EveryCloseIsOfOpen(s: System, a: Action)
    requires Reachable(s) && Enabled(s, a)
    ensures ClosesOnlyOpen(s, a)
  {
    ReachableInv(s);
    if a.DrainPending? {
      UnwatchCloses(s, s.pending);
    } else if a.Teardown? {
      UnwatchCloses(s, OrderOf(s.watches.Keys));
    } else if a.Register? || a.ArmFile? || a.HandleEvent? {
      OwnersCloseOpen(s, a);
    } else {
      RestClosesNothing(s, a);
    }
  }

  /** An event that is handled is never stale: its watch exists and the descriptor is one that the watch has. */
  lemma NoStaleEvents(s: System, e: Event)
    requires Reachable(s) && s.pc.Handling? && e in s.pc.batch
    ensures e.id in s.watches && (s.watches[e.id].dirFd == e.fd || s.watches[e.id].fileFd == Some(e.fd))
  {
    ReachableInv(s);
    assert ReportsTo(s, e.fd, e.id) && Watched(s, e.fd, e.id);
    assert Owned(s, e.fd, s.kernel.open[e.fd]);
  }

  // ---- No missed update ----

  /** Nothing about the watch is on its way to the worker, and its callback is not about to run. */
  ghost predicate Settled(s: System, id: Id)
    requires id in s.watches
  {
    var w := s.watches[id];
    && !Due(s, w.dirFd, id, Either)
    && (w.fileFd.Some? ==> !Due(s, w.fileFd.value, id, Either))
    && !FireDue(s, id)
  }

  lemma EitherDue(s: System, fd: Fd, id: Id, want: Want)
    requires Due(s, fd, id, want)
    ensures Due(s, fd, id, Either)
  {
  }

  /** The descriptor is on the path's file exactly when there is one, there is none otherwise, and the callback
      started (or the watch was registered) after the file's last change. */
  ghost predicate InStep(s: System, id: Id)
    requires id in s.watches
  {
    var w := s.watches[id];
    && (w.path in s.kernel.files <==> OnPath(s, w))
    && (w.path !in s.kernel.files <==> w.fileFd.None?)
    && (w.path in s.kernel.files && w.path in s.history.changed ==>
          id in s.history.seen && s.history.changed[w.path] <= s.history.seen[id])
  }

  /** A settled watch that is not adrift is in step with its path. */
  lemma NoMissedUpdate(s: System, id: Id)
    requires Reachable(s) && InScope(s, id) && Settled(s, id)
    ensures InStep(s, id)
  {
    ReachableInv(s);
    var w := s.watches[id];
    assert Followed(s, id, w);
    if w.fileFd.Some? {
      forall want | Due(s, w.fileFd.value, id, want) ensures false {
        EitherDue(s, w.fileFd.value, id, want);
      }
    }
  }

  /** A settled watch that is adrift is not. */
  lemma AdriftIsOut(s: System, id: Id)
    requires Straying(s) && AtRest(s, id) && id in s.history.adrift && Settled(s, id)
    ensures !InStep(s, id)
  {
    var w := s.watches[id];
    assert Strayed(s, id, w);
    if w.fileFd.Some? && Due(s, w.fileFd.value, id, Gone) {
      EitherDue(s, w.fileFd.value, id, Gone);
    }
  }

  /** Over every run, whatever the file system does: a settled watch is in step with its path if and only if its
      last attempt to open its file did not leave it adrift. */
  lemma InStepExactly(s: System, id: Id)
    requires Reachable(s) && AtRest(s, id) && Settled(s, id)
    ensures InStep(s, id) <==> id !in s.history.adrift
  {
    ReachableInv(s);
    if id in s.history.adrift {
      AdriftIsOut(s, id);
    } else {
      NoMissedUpdate(s, id);
    }
  }

  // ---- Unwatch safety ----

  lemma TeardownHistory(s: System)
    requires Enabled(s, Teardown)
    ensures Apply(s, Teardown).history == s.history
  {
    UnwatchAllMeans(s, OrderOf(s.watches.Keys));
  }

  lemma DrainedStays(s: System, a: Action)
    requires Enabled(s, a)
    ensures s.history.drained <= Apply(s, a).history.drained
  {
    if a.Teardown? {
      TeardownHistory(s);
    }
  }

  lemma DrainedCannotFire(s: System, id: Id)
    requires Base(s) && id in s.history.drained
    ensures !Enabled(s, RunCallback(id))
  {
  }

  /** Once the worker has drained an id, its callback never runs again. */
  lemma {:induction false} UnwatchSafety(s: System, id: Id, actions: seq<Action>)
    requires Inv(s) && id in s.history.drained && IsRun(s, actions)
    ensures RunCallback(id) !in actions
    decreases |actions|
  {
    if actions != [] {
      DrainedCannotFire(s, id);
      StepInv(s, actions[0]);
      DrainedStays(s, actions[0]);
      UnwatchSafety(Apply(s, actions[0]), id, actions[1..]);
    }
  }

  lemma FiringGoesOn(s: System, a: Action)
    requires Enabled(s, a) && s.pc.Firing? && a != FinishFiring
    ensures Apply(s, a).pc.Firing? && s.pc.done <= Apply(s, a).pc.done
  {
  }

  /** Within one FireDirty, a callback that has run does not run again. */
  lemma {:induction false} FiresOnce(s: System, id: Id, actions: seq<Action>)
    requires Inv(s) && s.pc.Firing? && id in s.pc.done && IsRun(s, actions) && FinishFiring !in actions
    ensures RunCallback(id) !in actions
    decreases |actions|
  {
    if actions != [] {
      var a := actions[0];
      assert a in actions && a != FinishFiring;
      StepInv(s, a);
      FiringGoesOn(s, a);
      FiresOnce(Apply(s, a), id, actions[1..]);
    }
  }

  // ---- Coalescing ----

  /** A deadline is set exactly when something is dirty. */
  lemma DeadlineIffDirty(s: System)
    requires Reachable(s)
    ensures s.deadline.Some? <==> s.dirty != {}
  {
    ReachableInv(s);
  }

  /** A deadline that is set is not moved, only cleared. */
  lemma DeadlineNeverMoves(s: System, a: Action)
    requires Enabled(s, a) && s.deadline.Some?
    ensures var n := Apply(s, a); n.deadline == s.deadline || n.deadline.None?
  {
    if a.DrainPending? {
      UnwatchAllMeans(s, s.pending);
    } else if a.Teardown? {
      UnwatchAllMeans(s, OrderOf(s.watches.Keys));
    }
  }

  lemma DirtyLeavesBy(s: System, a: Action, id: Id)
    requires Enabled(s, a) && id in s.dirty && id !in Apply(s, a).dirty
    ensures a == FinishFiring
  {
    if a.DrainPending? {
      UnwatchAllMeans(s, s.pending);
    } else if a.Teardown? {
      UnwatchAllMeans(s, OrderOf(s.watches.Keys));
    }
  }

  /** A dirty id leaves by firing, or because it was unwatched. */
  lemma DirtyLeaves(s: System, a: Action, id: Id)
    requires Reachable(s) && Enabled(s, a) && id in s.dirty && id !in Apply(s, a).dirty
    ensures a == FinishFiring && (id in s.pc.done || id in s.history.drained)
  {
    ReachableInv(s);
    DirtyLeavesBy(s, a, id);
  }
}
