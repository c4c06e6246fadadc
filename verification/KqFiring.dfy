/**
 From a dirty id to its callback, from an unwatch to silence, and from destruction to the worker's end: what
 util::KqueueFileWatcher does in the end.
 */
module KqFiring {
  import opened Collections
  import opened KqSystem
  import opened KqInvariants
  import opened KqEvents
  import opened KqTracking
  import opened KqTheorems
  import opened KqArming

  // ---- What is dirty stays so until it fires ----

  /** The id is dirty, and its callback has not run in the firing that is under way. */
  ghost predicate Owed(s: System, id: Id) {
    id in s.dirty && (s.pc.Firing? ==> id !in s.pc.done)
  }

  lemma UnwatchOwed(s: System, a: Action, id: Id)
    requires Owed(s, id) && Enabled(s, a) && (a.DrainPending? || a.Teardown?)
    ensures Owed(Apply(s, a), id)
  {
    UnwatchAllMeans(s, if a.DrainPending? then s.pending else OrderOf(s.watches.Keys));
  }

  lemma LockedOwed(s: System, a: Action, id: Id)
    requires PhaseOk(s) && Owed(s, id) && Enabled(s, a) && (Locked(a) || a.HandleEvent? || a.Deliver?)
    ensures Owed(Apply(s, a), id)
  {
  }

  lemma QuietOwed(s: System, a: Action, id: Id)
    requires IdsOk(s) && DirtyOk(s) && Owed(s, id) && Enabled(s, a) && Quiet(a) && a != RunCallback(id)
    requires id in s.watches
    ensures Owed(Apply(s, a), id)
  {
  }

  lemma OwedStep(s: System, a: Action, id: Id)
    requires Inv(s) && Owed(s, id) && Enabled(s, a) && a != RunCallback(id) && id in s.watches
    ensures Owed(Apply(s, a), id)
  {
    if a.DrainPending? || a.Teardown? {
      UnwatchOwed(s, a, id);
    } else if Quiet(a) {
      QuietOwed(s, a, id);
    } else {
      LockedOwed(s, a, id);
    }
  }

  // ---- What makes a watch dirty ----

  /** The event says that the file at hand has changed and is still at hand. */
  predicate TellsOfChange(s: System, e: Event, id: Id) {
    e.id == id && id in s.watches && s.watches[id].fileFd == Some(e.fd) && e.notes.touched && !e.notes.gone
  }

  /** A step makes a watch dirty exactly when the worker handles such an event of it, or has opened and armed its
      file again. */
  predicate Dirties(s: System, a: Action, id: Id) {
    || (a == HandleEvent && s.pc.Handling? && s.pc.batch != [] && TellsOfChange(s, s.pc.batch[0], id))
    || (a == ArmFile(true) && LockOn(s, id) && !s.lock.registering)
  }

  lemma HandleDirties(s: System, id: Id)
    requires Enabled(s, HandleEvent) && id !in s.dirty
    ensures id in Apply(s, HandleEvent).dirty <==> Dirties(s, HandleEvent, id)
  {
  }

  lemma ArmDirties(s: System, a: Action, id: Id)
    requires Enabled(s, a) && a.ArmFile? && id !in s.dirty
    ensures id in Apply(s, a).dirty <==> Dirties(s, a, id)
  {
  }

  lemma RestDirties(s: System, a: Action)
    requires Enabled(s, a) && !a.ArmFile? && !a.HandleEvent?
    ensures Apply(s, a).dirty <= s.dirty
  {
    if a.DrainPending? || a.Teardown? {
      UnwatchAllMeans(s, if a.DrainPending? then s.pending else OrderOf(s.watches.Keys));
    }
  }

  lemma DirtiesExactly(s: System, a: Action, id: Id)
    requires Enabled(s, a) && id !in s.dirty
    ensures id in Apply(s, a).dirty <==> Dirties(s, a, id)
  {
    if a.HandleEvent? {
      HandleDirties(s, id);
    } else if a.ArmFile? {
      ArmDirties(s, a, id);
    } else {
      RestDirties(s, a);
    }
  }

  // ---- When it can fire ----

  /** Before the worker can fire again it has left, or unwatches the id. */
  ghost predicate Barred(s: System, id: Id) {
    s.pc.Exited? || (id in s.pending && (s.pc.Head? || s.pc.Drain?))
  }

  ghost predicate Ready(s: System, id: Id) {
    Inv(s) && Owed(s, id) && id in s.watches && !Barred(s, id)
  }

  /** More than every member. */
  ghost function Above(fds: set<Fd>): (bound: Fd)
    ensures forall fd :: fd in fds ==> fd < bound
  {
    if fds == {} then 0
    else
      var fd :| fd in fds;
      var rest := Above(fds - {fd});
      assert forall f :: f in fds ==> f == fd || f in fds - {fd};
      if fd < rest then rest else fd + 1
  }

  /** Whoever holds the mutex opens and arms the file. */
  ghost function Unlocks(s: System): Action
    requires !s.lock.Free?
  {
    if s.lock.Opening? then OpenFile(Above(s.kernel.open.Keys)) else ArmFile(true)
  }

  /** What happens next on the way to the callback; the worker waits for the deadline. */
  ghost function Onwards(s: System, id: Id): Action {
    if s.pc.Firing? then RunCallback(id)
    else if !s.lock.Free? then Unlocks(s)
    else
      match s.pc
      case Head => ReadFlag(false)
      case Drain => DrainPending
      case Wait => Deliver([])
      case Handling(batch) => if batch == [] then EndBatch else HandleEvent
      case SeeDeadline => if s.deadline.Some? && s.now < s.deadline.value then Tick else CheckDeadline
      case Firing(_, _) => RunCallback(id)
      case Exited => Tick
  }

  /** How many program points are ahead. */
  function Ahead(pc: Pc): nat {
    match pc
    case Head => 6
    case Drain => 5
    case Wait => 4
    case Handling(_) => 3
    case SeeDeadline => 2
    case Firing(_, _) => 1
    case Exited => 0
  }

  function Held(lock: Lock): nat {
    match lock
    case Free => 0
    case Opening(_, _) => 2
    case Arming(_, _) => 1
  }

  function Remaining(s: System): nat {
    if s.deadline.Some? && s.now < s.deadline.value then s.deadline.value - s.now else 0
  }

  lemma UnlocksEnabled(s: System)
    requires Base(s) && !s.lock.Free?
    ensures Enabled(s, Unlocks(s))
  {
    assert WatchOk(s, s.lock.id, s.watches[s.lock.id]);
  }

  /** The mutex is on its way to being released, and the worker stays where it is. */
  lemma UnlocksNearer(s: System)
    requires !s.lock.Free? && Enabled(s, Unlocks(s))
    ensures var n := Apply(s, Unlocks(s));
            Held(n.lock) < Held(s.lock) && n.pc == s.pc && n.pending == s.pending && n.watches.Keys == s.watches.Keys
  {
  }

  lemma OnwardsEnabled(s: System, id: Id)
    requires Ready(s, id)
    ensures Enabled(s, Onwards(s, id))
  {
    if !s.pc.Firing? && !s.lock.Free? {
      UnlocksEnabled(s);
    }
  }

  /** Nearer to the callback. */
  ghost predicate Nearer(s: System, n: System) {
    || Ahead(n.pc) < Ahead(s.pc)
    || (Ahead(n.pc) == Ahead(s.pc) && |Unhandled(n)| < |Unhandled(s)|)
    || (n.pc == s.pc && Held(n.lock) < Held(s.lock))
    || (n.pc == s.pc && n.lock == s.lock && Remaining(n) < Remaining(s))
  }

  lemma DrainGoesOn(s: System, id: Id)
    requires Enabled(s, DrainPending) && id in s.watches && id !in s.pending
    ensures var n := Apply(s, DrainPending); id in n.watches && n.pending == [] && n.pc.Wait?
  {
    UnwatchAllMeans(s, s.pending);
  }

  lemma HandleGoesOn(s: System, id: Id)
    requires Enabled(s, HandleEvent) && id in s.watches
    ensures var n := Apply(s, HandleEvent); id in n.watches && Nearer(s, n) && n.pc.Handling?
  {
  }

  lemma FreeGoesOn(s: System, id: Id)
    requires s.lock.Free? && Enabled(s, Onwards(s, id)) && id in s.watches && id in s.dirty && !Barred(s, id)
    requires !s.pc.Firing? && s.deadline.Some?
    ensures var n := Apply(s, Onwards(s, id)); id in n.watches && !Barred(n, id) && Nearer(s, n)
  {
    match s.pc {
      case Drain => DrainGoesOn(s, id);
      case Handling(batch) =>
        if batch != [] {
          HandleGoesOn(s, id);
        }
      case _ =>
    }
  }

  lemma OnwardsReady(s: System, id: Id)
    requires Ready(s, id) && !s.pc.Firing? && Enabled(s, Onwards(s, id))
    ensures Ready(Apply(s, Onwards(s, id)), id) && Nearer(s, Apply(s, Onwards(s, id)))
  {
    StepInv(s, Onwards(s, id));
    OwedStep(s, Onwards(s, id), id);
    if s.lock.Free? {
      FreeGoesOn(s, id);
    } else {
      UnlocksNearer(s);
    }
  }

  lemma Prepend(s: System, a: Action, rest: seq<Action>)
    requires Enabled(s, a) && IsRun(Apply(s, a), rest)
    ensures IsRun(s, [a] + rest) && After(s, [a] + rest) == After(Apply(s, a), rest)
  {
    assert ([a] + rest)[0] == a && ([a] + rest)[1..] == rest;
  }

  lemma {:induction false} WalkToCallback(s: System, id: Id) returns (actions: seq<Action>)
    requires Ready(s, id)
    ensures IsRun(s, actions) && RunCallback(id) in actions
    decreases Ahead(s.pc), |Unhandled(s)|, Held(s.lock), Remaining(s)
  {
    var a := Onwards(s, id);
    OnwardsEnabled(s, id);
    var rest: seq<Action> := [];
    if !s.pc.Firing? {
      OnwardsReady(s, id);
      rest := WalkToCallback(Apply(s, a), id);
    }
    actions := [a] + rest;
    Prepend(s, a, rest);
  }

  // ---- When it cannot ----

  /** Unwatched, or about to be; or the worker has left. */
  ghost predicate Silenced(s: System, id: Id) {
    id in s.history.seen && (id !in s.watches || Barred(s, id))
  }

  lemma SilencedCannotFire(s: System, id: Id)
    requires PhaseOk(s) && Silenced(s, id)
    ensures !Enabled(s, RunCallback(id))
  {
  }

  lemma DrainSilences(s: System, a: Action, id: Id)
    requires Enabled(s, a) && (a.DrainPending? || a.Teardown?) && Barred(s, id)
    ensures id !in Apply(s, a).watches || Barred(Apply(s, a), id)
  {
    UnwatchAllMeans(s, if a.DrainPending? then s.pending else OrderOf(s.watches.Keys));
  }

  lemma RestSilences(s: System, a: Action, id: Id)
    requires PhaseOk(s) && Enabled(s, a) && !a.DrainPending? && !a.Teardown? && Barred(s, id)
    ensures Barred(Apply(s, a), id)
  {
  }

  lemma {:induction false} SilencedStays(s: System, actions: seq<Action>, id: Id)
    requires Inv(s) && Silenced(s, id) && IsRun(s, actions)
    ensures RunCallback(id) !in actions
    decreases |actions|
  {
    if actions != [] {
      var a := actions[0];
      SilencedCannotFire(s, id);
      StepInv(s, a);
      GoneStaysGone(s, a, id);
      if id in s.watches {
        if a.DrainPending? || a.Teardown? {
          DrainSilences(s, a, id);
        } else {
          RestSilences(s, a, id);
        }
      }
      SilencedStays(Apply(s, a), actions[1..], id);
    }
  }

  /** A dirty, watched id can still fire if and only if the worker has not left and is not about to unwatch it. */
  lemma FiresExactly(s: System, id: Id)
    requires Reachable(s) && Owed(s, id) && id in s.watches
    ensures (exists actions :: IsRun(s, actions) && RunCallback(id) in actions) <==> !Barred(s, id)
  {
    ReachableInv(s);
    if Barred(s, id) {
      forall actions | IsRun(s, actions) ensures RunCallback(id) !in actions {
        SilencedStays(s, actions, id);
      }
    } else {
      var actions := WalkToCallback(s, id);
    }
  }

  /** A dirty id stays dirty until its callback runs or it is unwatched. */
  lemma {:induction false} OwedUntilItFires(s: System, actions: seq<Action>, id: Id)
    requires Inv(s) && Owed(s, id) && id in s.watches && IsRun(s, actions)
    requires RunCallback(id) !in actions && id in After(s, actions).watches
    ensures Owed(After(s, actions), id)
    decreases |actions|
  {
    if actions != [] {
      var a := actions[0];
      var n := Apply(s, a);
      StepInv(s, a);
      OwedStep(s, a, id);
      if id in n.watches {
        OwedUntilItFires(n, actions[1..], id);
      } else {
        GoneStaysGone(s, a, id);
        RunGone(n, actions[1..], id);
      }
    }
  }

  // ---- On time ----

  /** Callbacks run only once the deadline has come, and a deadline is at most one window of 50 ms away. */
  ghost predicate OnTime(s: System) {
    && (s.pc.Firing? ==> s.deadline.Some? && s.now >= s.deadline.value)
    && (s.deadline.Some? ==> s.deadline.value <= s.now + 50)
  }

  lemma UnwatchOnTime(s: System, a: Action)
    requires OnTime(s) && Enabled(s, a) && (a.DrainPending? || a.Teardown?)
    ensures OnTime(Apply(s, a))
  {
    UnwatchAllMeans(s, if a.DrainPending? then s.pending else OrderOf(s.watches.Keys));
  }

  lemma QuietOnTime(s: System, a: Action)
    requires OnTime(s) && Enabled(s, a) && Quiet(a)
    ensures OnTime(Apply(s, a))
  {
  }

  lemma LockedOnTime(s: System, a: Action)
    requires OnTime(s) && Enabled(s, a) && (Locked(a) || a.HandleEvent? || a.Deliver?)
    ensures OnTime(Apply(s, a))
  {
  }

  lemma StepOnTime(s: System, a: Action)
    requires OnTime(s) && Enabled(s, a)
    ensures OnTime(Apply(s, a))
  {
    if a.DrainPending? || a.Teardown? {
      UnwatchOnTime(s, a);
    } else if Quiet(a) {
      QuietOnTime(s, a);
    } else {
      LockedOnTime(s, a);
    }
  }

  lemma {:induction false} RunOnTime(s: System, actions: seq<Action>)
    requires OnTime(s) && IsRun(s, actions)
    ensures OnTime(After(s, actions))
    decreases |actions|
  {
    if actions != [] {
      StepOnTime(s, actions[0]);
      RunOnTime(Apply(s, actions[0]), actions[1..]);
    }
  }

  /** A callback runs only for a dirty, watched id, and not before the deadline. */
  lemma FiresOnlyWhenDue(s: System, id: Id)
    requires Reachable(s) && Enabled(s, RunCallback(id))
    ensures id in s.dirty && id in s.watches
    ensures s.deadline.Some? && s.now >= s.deadline.value
  {
    ReachableInv(s);
    var actions :| IsRun(INITIAL, actions) && After(INITIAL, actions) == s;
    RunOnTime(INITIAL, actions);
  }

  lemma QuietKeepsClean(s: System, a: Action)
    requires Enabled(s, a) && (Quiet(a) || a.DrainPending? || a.Teardown? || a.Deliver?) && s.dirty == {}
    ensures Apply(s, a).dirty == {}
  {
    if a.DrainPending? || a.Teardown? {
      UnwatchAllMeans(s, if a.DrainPending? then s.pending else OrderOf(s.watches.Keys));
    }
  }

  lemma LockedMarks(s: System, a: Action)
    requires Enabled(s, a) && (Locked(a) || a.HandleEvent?) && s.dirty == {} && s.deadline.None?
    ensures Apply(s, a).dirty != {} ==> Apply(s, a).deadline == Some(s.now + 50)
  {
  }

  /** The deadline is one window after the moment when something became dirty. */
  lemma DeadlineIsOneWindow(s: System, a: Action)
    requires Reachable(s) && Enabled(s, a) && s.dirty == {} && Apply(s, a).dirty != {}
    ensures Apply(s, a).deadline == Some(s.now + 50)
  {
    ReachableInv(s);
    if Quiet(a) || a.DrainPending? || a.Teardown? || a.Deliver? {
      QuietKeepsClean(s, a);
    } else {
      LockedMarks(s, a);
    }
  }

  // ---- From closing to silence ----

  ghost predicate Closed(s: System, id: Id) {
    id in s.pending || id in s.history.drained
  }

  lemma DrainTakes(s: System, a: Action, id: Id)
    requires Enabled(s, a) && (a.DrainPending? || a.Teardown?) && Closed(s, id)
    ensures Closed(Apply(s, a), id) && (a.DrainPending? ==> id in Apply(s, a).history.drained)
  {
    UnwatchAllMeans(s, if a.DrainPending? then s.pending else OrderOf(s.watches.Keys));
  }

  lemma QuietPending(s: System, a: Action)
    requires Enabled(s, a) && Quiet(a)
    ensures s.pending <= Apply(s, a).pending && Apply(s, a).history.drained == s.history.drained
  {
  }

  lemma LockedPending(s: System, a: Action)
    requires Enabled(s, a) && (Locked(a) || a.HandleEvent? || a.Deliver?)
    ensures Apply(s, a).pending == s.pending && Apply(s, a).history.drained == s.history.drained
  {
  }

  lemma ClosedStays(s: System, a: Action, id: Id)
    requires Enabled(s, a) && Closed(s, id)
    ensures Closed(Apply(s, a), id)
    ensures a == DrainPending ==> id in Apply(s, a).history.drained
  {
    if a.DrainPending? || a.Teardown? {
      DrainTakes(s, a, id);
    } else if Quiet(a) {
      QuietPending(s, a);
    } else {
      LockedPending(s, a);
    }
  }

  lemma {:induction false} ClosedIsDrained(s: System, actions: seq<Action>, id: Id, k: nat)
    requires Inv(s) && Closed(s, id) && IsRun(s, actions) && k < |actions| && actions[k] == DrainPending
    ensures IsRun(s, actions[..k + 1]) && id in After(s, actions[..k + 1]).history.drained
    ensures RunCallback(id) !in actions[k + 1..]
    decreases |actions|
  {
    var a := actions[0];
    var n := Apply(s, a);
    StepInv(s, a);
    ClosedStays(s, a, id);
    Slices(actions, k);
    if k == 0 {
      assert actions[1..][..0] == [];
      UnwatchSafety(n, id, actions[1..]);
      Prepend(s, a, []);
    } else {
      ClosedIsDrained(n, actions[1..], id, k - 1);
      Prepend(s, a, actions[1..][..k]);
    }
  }

  /** Once an unwatch has been called, the next time the worker drains it takes the id, and its callback never runs
      again. */
  lemma UnwatchTakesEffect(s: System, id: Id, actions: seq<Action>, k: nat)
    requires Reachable(s) && Enabled(s, CloseWatch(id)) && IsRun(Apply(s, CloseWatch(id)), actions)
    requires k < |actions| && actions[k] == DrainPending
    ensures IsRun(Apply(s, CloseWatch(id)), actions[..k + 1])
    ensures id in After(Apply(s, CloseWatch(id)), actions[..k + 1]).history.drained
    ensures RunCallback(id) !in actions[k + 1..]
  {
    ReachableInv(s);
    StepInv(s, CloseWatch(id));
    ClosedIsDrained(Apply(s, CloseWatch(id)), actions, id, k);
  }

  // ---- The end of the worker ----

  /** What happens next on the way out. */
  ghost function Outwards(s: System): Action {
    if s.pc.Firing? then
      if s.pc.left == {} then FinishFiring else var id :| id in s.pc.left; RunCallback(id)
    else if !s.lock.Free? then Unlocks(s)
    else
      match s.pc
      case Head => ReadFlag(true)
      case Drain => DrainPending
      case Wait => KeventFails
      case Handling(batch) => if batch == [] then EndBatch else HandleEvent
      case SeeDeadline => CheckDeadline
      case Firing(_, _) => FinishFiring
      case Exited => Tick
  }

  function BeforeExit(pc: Pc): nat {
    match pc
    case Drain => 6
    case Wait => 5
    case Handling(_) => 4
    case SeeDeadline => 3
    case Firing(_, _) => 2
    case Head => 1
    case Exited => 0
  }

  /** Events to handle, or callbacks to run. */
  function Work(pc: Pc): nat {
    match pc
    case Handling(batch) => |batch|
    case Firing(left, _) => |left|
    case _ => 0
  }

  ghost predicate NearerExit(s: System, n: System) {
    || BeforeExit(n.pc) < BeforeExit(s.pc)
    || (BeforeExit(n.pc) == BeforeExit(s.pc) && Work(n.pc) < Work(s.pc))
    || (n.pc == s.pc && Held(n.lock) < Held(s.lock))
  }

  lemma OutwardsEnabled(s: System)
    requires Base(s) && s.shutdown && !s.pc.Exited?
    ensures Enabled(s, Outwards(s))
  {
    if !s.pc.Firing? && !s.lock.Free? {
      UnlocksEnabled(s);
    }
  }

  lemma HandleNearer(s: System)
    requires Enabled(s, HandleEvent)
    ensures NearerExit(s, Apply(s, HandleEvent)) && Apply(s, HandleEvent).shutdown == s.shutdown
  {
  }

  lemma FreeOutwards(s: System)
    requires s.shutdown && !s.pc.Exited? && (s.lock.Free? || s.pc.Firing?) && Enabled(s, Outwards(s))
    ensures NearerExit(s, Apply(s, Outwards(s))) && Apply(s, Outwards(s)).shutdown
  {
    match s.pc {
      case Drain => UnwatchAllMeans(s, s.pending);
      case Handling(batch) =>
        if batch != [] {
          HandleNearer(s);
        }
      case _ =>
    }
  }

  lemma UnlocksShutdown(s: System)
    requires !s.lock.Free? && Enabled(s, Unlocks(s))
    ensures Apply(s, Unlocks(s)).shutdown == s.shutdown
  {
  }

  lemma {:induction false} WalkOut(s: System) returns (actions: seq<Action>)
    requires Inv(s) && s.shutdown
    ensures IsRun(s, actions) && After(s, actions).pc.Exited? && After(s, actions).shutdown
    decreases BeforeExit(s.pc), Work(s.pc), Held(s.lock)
  {
    if s.pc.Exited? {
      actions := [];
    } else {
      var a := Outwards(s);
      OutwardsEnabled(s);
      StepInv(s, a);
      if s.lock.Free? || s.pc.Firing? {
        FreeOutwards(s);
      } else {
        UnlocksNearer(s);
        UnlocksShutdown(s);
      }
      var rest := WalkOut(Apply(s, a));
      actions := [a] + rest;
      Prepend(s, a, rest);
    }
  }

  /** Once destruction has begun the worker can always leave, from wherever it is; then the destructor goes on and
      leaves no descriptor open. */
  lemma DestructionEnds(s: System) returns (actions: seq<Action>)
    requires Reachable(s) && s.shutdown
    ensures IsRun(s, actions) && After(s, actions).pc.Exited? && Enabled(After(s, actions), Teardown)
    ensures Apply(After(s, actions), Teardown).kernel.open == map[]
  {
    ReachableInv(s);
    actions := WalkOut(s);
    ReachableRun(s, actions);
    NoneSurvive(After(s, actions));
  }

  /** It begins with the destructor, and the worker does not leave before. */
  lemma DestructionBegins(s: System)
    requires Reachable(s)
    ensures Enabled(s, Destroy) ==> Apply(s, Destroy).shutdown
    ensures s.pc.Exited? ==> s.shutdown
  {
    ReachableInv(s);
  }

  // ---- A watch that was not made ----

  /** The id was given out and is not in use. */
  ghost predicate Spent(s: System, id: Id) {
    id < s.nextId && id !in s.calls && id !in s.watches && id !in s.history.seen
  }

  lemma QuietSpent(s: System, a: Action, id: Id)
    requires PhaseOk(s) && Spent(s, id) && Enabled(s, a) && (Quiet(a) || a.Deliver? || a.HandleEvent?)
    ensures Spent(Apply(s, a), id)
  {
  }

  lemma LockedSpent(s: System, a: Action, id: Id)
    requires IdsOk(s) && Spent(s, id) && Enabled(s, a) && Locked(a)
    ensures Spent(Apply(s, a), id)
  {
  }

  lemma SpentStays(s: System, a: Action, id: Id)
    requires Base(s) && Spent(s, id) && Enabled(s, a)
    ensures Spent(Apply(s, a), id)
  {
    if a.DrainPending? || a.Teardown? {
      UnwatchAllMeans(s, if a.DrainPending? then s.pending else OrderOf(s.watches.Keys));
    } else if Locked(a) {
      LockedSpent(s, a, id);
    } else {
      QuietSpent(s, a, id);
    }
  }

  lemma {:induction false} SpentNeverFires(s: System, actions: seq<Action>, id: Id)
    requires Inv(s) && Spent(s, id) && IsRun(s, actions)
    ensures RunCallback(id) !in actions
    decreases |actions|
  {
    if actions != [] {
      StepInv(s, actions[0]);
      SpentStays(s, actions[0], id);
      SpentNeverFires(Apply(s, actions[0]), actions[1..], id);
    }
  }

  /** A WatchFile whose directory cannot be armed closes it and leaves everything else, and its callback never
      runs. */
  lemma FailedWatchIsSilent(s: System, id: Id, actions: seq<Action>)
    requires Reachable(s) && Enabled(s, Register(id, false)) && IsRun(Apply(s, Register(id, false)), actions)
    ensures var n := Apply(s, Register(id, false));
            && n.watches == s.watches && n.history == s.history && n.calls == s.calls - {id}
            && n.kernel.open == s.kernel.open - {s.calls[id].dirFd}
    ensures RunCallback(id) !in actions
  {
    ReachableInv(s);
    StepInv(s, Register(id, false));
    SpentNeverFires(Apply(s, Register(id, false)), actions, id);
  }
}
