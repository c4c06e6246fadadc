/**
 util::KqueueFileWatcher itself: the object whose critical sections are the steps of the protocol.
 */
module KqWatcher {
  import opened Collections
  import opened KqSystem
  import opened KqInvariants
  import opened KqTheorems

  /** What the system answers when a file is opened and its descriptor armed. */
  datatype Answer = Answer(fd: Fd, ok: bool)

  /** TryOpenAndArmFile without anything in between. */
  ghost function OpenAndArm(s: System, answer: Answer): System
    requires Enabled(s, OpenFile(answer.fd))
  {
    var n := Opened(s, answer.fd);
    if n.lock.Arming? then Armed(n, answer.ok) else n
  }

  ghost predicate CanAnswer(s: System, answer: Answer)
    requires Enabled(s, HandleEvent)
  {
    answer.fd !in Apply(s, HandleEvent).kernel.open
  }

  /** One event handled to its end. */
  ghost function EventHandled(s: System, answer: Answer): System
    requires Enabled(s, HandleEvent) && CanAnswer(s, answer)
  {
    var n := Apply(s, HandleEvent);
    if n.lock.Opening? then OpenAndArm(n, answer) else n
  }

  /** The mutex is free again, and the worker has noted whether the file was opened. */
  lemma OpenAndArmMeans(s: System, answer: Answer)
    requires Enabled(s, OpenFile(answer.fd)) && !s.lock.registering
    ensures var n, armed := OpenAndArm(s, answer), s.watches[s.lock.id].path in s.kernel.files && answer.ok;
            n.lock.Free? && n.pc == s.pc && n.now == s.now && Noted(s, n, s.lock.id, armed)
  {
  }

  lemma EventHandledMeans(s: System, answer: Answer)
    requires Enabled(s, HandleEvent) && CanAnswer(s, answer)
    ensures var n := EventHandled(s, answer); n.lock.Free? && n.pc == Handling(s.pc.batch[1..]) && n.now == s.now
  {
    var n := Apply(s, HandleEvent);
    assert n.pc == Handling(s.pc.batch[1..]) && n.now == s.now;
    if n.lock.Opening? {
      OpenAndArmMeans(n, answer);
    }
  }

  /** What handling an event does to the worker's own variables. */
  ghost predicate Noted(s: System, n: System, id: Id, changed: bool) {
    var m := if changed then MarkDirty(s, id) else s;
    n.dirty == m.dirty && n.deadline == m.deadline && n.pending == s.pending && n.nextId == s.nextId
  }

  ghost predicate CanAnswerAll(s: System, answers: seq<Answer>)
    requires s.lock.Free? && s.pc.Handling? && |answers| == |s.pc.batch|
    decreases |answers|
  {
    answers == [] ||
    (CanAnswer(s, answers[0]) &&
     (EventHandledMeans(s, answers[0]); CanAnswerAll(EventHandled(s, answers[0]), answers[1..])))
  }

  /** A whole batch handled. */
  ghost function BatchHandled(s: System, answers: seq<Answer>): System
    requires s.lock.Free? && s.pc.Handling? && |answers| == |s.pc.batch| && CanAnswerAll(s, answers)
    decreases |answers|
  {
    if answers == [] then s
    else EventHandledMeans(s, answers[0]); BatchHandled(EventHandled(s, answers[0]), answers[1..])
  }

  lemma OpenAndArmReachable(s: System, answer: Answer)
    requires Reachable(s) && Enabled(s, OpenFile(answer.fd))
    ensures Reachable(OpenAndArm(s, answer))
  {
    ReachableStep(s, OpenFile(answer.fd));
    var n := Apply(s, OpenFile(answer.fd));
    if n.lock.Arming? {
      ReachableStep(n, ArmFile(answer.ok));
    }
  }

  lemma EventReachable(s: System, answer: Answer)
    requires Reachable(s) && Enabled(s, HandleEvent) && CanAnswer(s, answer)
    ensures Reachable(EventHandled(s, answer))
  {
    ReachableStep(s, HandleEvent);
    var n := Apply(s, HandleEvent);
    if n.lock.Opening? {
      OpenAndArmReachable(n, answer);
    }
  }

  /** Handling a batch in one go is a run of the protocol. */
  lemma {:induction false} BatchReachable(s: System, answers: seq<Answer>)
    requires Reachable(s) && s.lock.Free? && s.pc.Handling? && |answers| == |s.pc.batch| && CanAnswerAll(s, answers)
    ensures Reachable(BatchHandled(s, answers))
    decreases |answers|
  {
    if answers != [] {
      EventReachable(s, answers[0]);
      EventHandledMeans(s, answers[0]);
      BatchReachable(EventHandled(s, answers[0]), answers[1..]);
    }
  }

  // ---- Registering ----

  ghost function Registering(s: System, path: Path, dirFd: Fd, armed: bool): System
    requires Enabled(s, BeginWatch(path, dirFd)) && s.lock.Free?
  {
    Apply(Apply(s, BeginWatch(path, dirFd)), Register(s.nextId, armed))
  }

  lemma RegisteringMeans(s: System, path: Path, dirFd: Fd)
    requires Enabled(s, BeginWatch(path, dirFd)) && s.lock.Free?
    ensures var n, id := Registering(s, path, dirFd, true), s.nextId;
            && n.kernel.open == s.kernel.open[dirFd := Descriptor(DirNode(path.dir), DirOf(id))]
            && n.kernel.knotes == s.kernel.knotes[dirFd := Knote(id, QUIET)]
            && n.kernel.files == s.kernel.files && n.kernel.nextInode == s.kernel.nextInode
            && n.watches == s.watches[id := Watch(path, None, dirFd)] && n.lock == Opening(id, true)
            && n.pending == s.pending && n.nextId == id + 1 && n.dirty == s.dirty && n.deadline == s.deadline
  {
  }

  lemma NotRegistering(s: System, path: Path, dirFd: Fd)
    requires Enabled(s, BeginWatch(path, dirFd)) && s.lock.Free?
    ensures var n := Registering(s, path, dirFd, false);
            && n.kernel == s.kernel.(open := s.kernel.open - {dirFd}, knotes := s.kernel.knotes - {dirFd})
            && n.watches == s.watches && n.pending == s.pending && n.nextId == s.nextId + 1
            && n.dirty == s.dirty && n.deadline == s.deadline
  {
  }

  /** The steps of WatchFile once the directory is open. */
  ghost function Watching(s: System, path: Path, dirFd: Fd, armed: bool, answer: Answer): System
    requires Enabled(s, BeginWatch(path, dirFd)) && s.lock.Free? && answer.fd !in s.kernel.open && answer.fd != dirFd
  {
    if armed
    then RegisteringMeans(s, path, dirFd); OpenAndArm(Registering(s, path, dirFd, true), answer)
    else Registering(s, path, dirFd, false)
  }

  class KqueueFileWatcher {
    var kernel: Kernel
    var watches: map<Id, Watch>
    var pendingUnwatches: seq<Id>
    var nextWatchId: Id
    var dirty: set<Id>
    var deadline: Option<nat>

    /** The object's fields in a state of the protocol. */
    ghost predicate Shows(s: System)
      reads this
    {
      && kernel == s.kernel && watches == s.watches && pendingUnwatches == s.pending
      && nextWatchId + 1 == s.nextId && dirty == s.dirty && deadline == s.deadline
    }

    constructor ()
      ensures Shows(INITIAL)
    {
      kernel, watches, pendingUnwatches := Kernel(map[], 0, map[], map[]), map[], [];
      nextWatchId, dirty, deadline := 0, {}, None;
    }

    method DisarmFile(w: Watch) returns (disarmed: Watch)
      modifies this`kernel
      ensures kernel == KqSystem.DisarmFile(old(kernel), w) && disarmed == w.(fileFd := None)
    {
      if w.fileFd.Some? {
        kernel := Close(kernel, w.fileFd.value);
      }
      disarmed := w.(fileFd := None);
    }

    method DisarmWatch(w: Watch)
      modifies this`kernel
      ensures kernel == KqSystem.DisarmWatch(old(kernel), w)
    {
      var disarmed := DisarmFile(w);
      kernel := Close(kernel, disarmed.dirFd);
    }

    method TryOpenAndArmFile(id: Id, answer: Answer, ghost s: System) returns (armed: bool)
      requires Enabled(s, OpenFile(answer.fd)) && s.lock.id == id && kernel == s.kernel && watches == s.watches
      modifies this`kernel, this`watches
      ensures if old(watches)[id].fileFd.Some? then armed && kernel == old(kernel) && watches == old(watches)
              else var n := OpenAndArm(s, answer);
                && kernel == n.kernel && watches == n.watches
                && (armed <==> watches[id].fileFd.Some?)
                && (armed <==> watches[id].path in kernel.files && answer.ok)
    {
      var w := watches[id];
      if w.fileFd.Some? {
        return true;
      }
      if w.path !in kernel.files {
        return false;
      }
      kernel := kernel.(open := kernel.open[answer.fd := Descriptor(FileNode(kernel.files[w.path]), FileOf(id))]);
      watches := watches[id := w.(fileFd := Some(answer.fd))];
      if !answer.ok {
        kernel := Close(kernel, answer.fd);
        watches := watches[id := w];
        return false;
      }
      kernel := kernel.(knotes := kernel.knotes[answer.fd := Knote(id, QUIET)]);
      return true;
    }

    /** WatchFile, up to arming the directory. */
    method AddWatch(path: Path, dirFd: Fd, armed: bool, ghost s: System) returns (id: Id)
      requires Shows(s) && IdsOk(s) && Enabled(s, BeginWatch(path, dirFd)) && s.lock.Free?
      modifies this`kernel, this`watches, this`nextWatchId
      ensures id == old(nextWatchId) + 1 == nextWatchId
      ensures Shows(Registering(s, path, dirFd, armed))
    {
      nextWatchId := nextWatchId + 1;
      id := nextWatchId;
      kernel := kernel.(open := kernel.open[dirFd := Descriptor(DirNode(path.dir), DirOf(id))]);
      watches := watches[id := Watch(path, None, dirFd)];
      if !armed {
        kernel := Close(kernel, dirFd);
        watches := watches - {id};
        assert watches == old(watches) && kernel.open == old(kernel).open - {dirFd};
        NotRegistering(s, path, dirFd);
      } else {
        kernel := kernel.(knotes := kernel.knotes[dirFd := Knote(id, QUIET)]);
        RegisteringMeans(s, path, dirFd);
      }
    }

    /** `dirFd`, `armed` and `answer` are the system's answers. */
    method WatchFile(path: Path, dirFd: Option<Fd>, armed: bool, answer: Answer,
                     ghost s: System) returns (r: Option<Id>)
      requires Shows(s) && IdsOk(s) && s.lock.Free? && !s.shutdown
      requires dirFd.Some? ==> dirFd.value !in kernel.open && answer.fd != dirFd.value
      requires answer.fd !in kernel.open
      modifies this
      ensures r.Some? <==> dirFd.Some? && armed
      ensures r.Some? ==> r.value == old(nextWatchId) + 1
      ensures if dirFd.None? then Shows(s) else Shows(Watching(s, path, dirFd.value, armed, answer))
    {
      if dirFd.None? {
        return None;
      }
      var id := AddWatch(path, dirFd.value, armed, s);
      if !armed {
        return None;
      }
      RegisteringMeans(s, path, dirFd.value);
      var _ := TryOpenAndArmFile(id, answer, Registering(s, path, dirFd.value, true));
      return Some(id);
    }

    method CloseWatch(id: Id, ghost s: System)
      requires Shows(s) && Enabled(s, KqSystem.CloseWatch(id))
      modifies this`pendingUnwatches
      ensures Shows(Apply(s, KqSystem.CloseWatch(id)))
    {
      pendingUnwatches := pendingUnwatches + [id];
    }

    method DrainPendingUnwatches(ghost s: System)
      requires Shows(s) && Enabled(s, DrainPending)
      modifies this
      ensures Shows(Apply(s, DrainPending))
    {
      ghost var n := s;
      for i := 0 to |pendingUnwatches|
        invariant pendingUnwatches == s.pending && Shows(n)
        invariant UnwatchAll(n, pendingUnwatches[i..]) == UnwatchAll(s, s.pending)
      {
        var id := pendingUnwatches[i];
        assert pendingUnwatches[i..][1..] == pendingUnwatches[i + 1..];
        n := Unwatch(n, id);
        if id in watches {
          DisarmWatch(watches[id]);
          watches := watches - {id};
        }
      }
      UnwatchAllMeans(s, s.pending);
      pendingUnwatches := [];
    }

    method HandleFileEvent(e: Event, answer: Answer, ghost s: System) returns (changed: bool)
      requires kernel == s.kernel && watches == s.watches && Enabled(s, HandleEvent) && s.pc.batch[0] == e
      requires e.id in watches && watches[e.id].fileFd == Some(e.fd) && CanAnswer(s, answer)
      modifies this`kernel, this`watches
      ensures var n := EventHandled(s, answer);
              kernel == n.kernel && watches == n.watches && Noted(s, n, e.id, changed)
      ensures changed <==> if e.notes.gone then watches[e.id].fileFd.Some? else e.notes.touched
    {
      if e.notes.gone {
        var w := DisarmFile(watches[e.id]);
        watches := watches[e.id := w];
        OpenAndArmMeans(Apply(s, HandleEvent), answer);
        changed := TryOpenAndArmFile(e.id, answer, Apply(s, HandleEvent));
      } else {
        changed := e.notes.touched;
      }
    }

    method HandleDirEvent(e: Event, answer: Answer, ghost s: System) returns (changed: bool)
      requires kernel == s.kernel && watches == s.watches && Enabled(s, HandleEvent) && s.pc.batch[0] == e
      requires e.id in watches && watches[e.id].fileFd != Some(e.fd) && watches[e.id].dirFd == e.fd
      requires CanAnswer(s, answer)
      modifies this`kernel, this`watches
      ensures var n := EventHandled(s, answer);
              kernel == n.kernel && watches == n.watches && Noted(s, n, e.id, changed)
      ensures changed <==> old(watches)[e.id].fileFd.None? && watches[e.id].fileFd.Some?
    {
      if watches[e.id].fileFd.None? {
        OpenAndArmMeans(Apply(s, HandleEvent), answer);
        changed := TryOpenAndArmFile(e.id, answer, Apply(s, HandleEvent));
      } else {
        changed := false;
      }
    }

    /** One round of the loop below. */
    method HandleOne(e: Event, answer: Answer, now: nat, ghost s: System)
      requires Shows(s) && Enabled(s, HandleEvent) && s.pc.batch[0] == e && CanAnswer(s, answer) && s.now == now
      modifies this
      ensures Shows(EventHandled(s, answer))
    {
      var changed := false;
      if e.id in watches {
        if watches[e.id].fileFd == Some(e.fd) {
          changed := HandleFileEvent(e, answer, s);
        } else if watches[e.id].dirFd == e.fd {
          changed := HandleDirEvent(e, answer, s);
        }
      }
      assert Noted(s, EventHandled(s, answer), e.id, changed);
      if changed {
        dirty := dirty + {e.id};
        if deadline.None? {
          deadline := Some(now + COALESCE_WINDOW);
        }
      }
    }

    method HandleEvents(events: seq<Event>, answers: seq<Answer>, now: nat, ghost s: System)
      requires Shows(s) && s.lock.Free? && s.pc == Handling(events) && |answers| == |events| && CanAnswerAll(s, answers)
      requires s.now == now
      modifies this
      ensures Shows(BatchHandled(s, answers))
    {
      ghost var n := s;
      for i := 0 to |events|
        invariant Shows(n) && n.lock.Free? && n.pc == Handling(events[i..]) && n.now == now
        invariant CanAnswerAll(n, answers[i..])
        invariant BatchHandled(n, answers[i..]) == BatchHandled(s, answers)
      {
        assert events[i..][1..] == events[i + 1..] && answers[i..][1..] == answers[i + 1..];
        EventHandledMeans(n, answers[i]);
        HandleOne(events[i], answers[i], now, n);
        n := EventHandled(n, answers[i]);
      }
      assert answers[|events|..] == [];
    }

    /** Gathers the callbacks to run: one for each dirty id that is still watched. */
    method FireDirty() returns (callbacks: seq<(Id, Path)>)
      ensures forall i, j :: 0 <= i < j < |callbacks| ==> callbacks[i].0 != callbacks[j].0
      ensures forall c :: c in callbacks <==> c.0 in dirty && c.0 in watches && c.1 == watches[c.0].path
    {
      callbacks := [];
      var todo := dirty;
      while todo != {}
        invariant todo <= dirty
        invariant forall i, j :: 0 <= i < j < |callbacks| ==> callbacks[i].0 != callbacks[j].0
        invariant forall c :: c in callbacks <==>
                              c.0 in dirty && c.0 !in todo && c.0 in watches && c.1 == watches[c.0].path
        decreases todo
      {
        var id :| id in todo;
        if id in watches {
          assert forall i :: 0 <= i < |callbacks| ==> callbacks[i] in callbacks;
          callbacks := callbacks + [(id, watches[id].path)];
        }
        todo := todo - {id};
      }
    }

    /** The end of the worker's round: gathers what the protocol fires, and forgets it once that is done. */
    method FireIfDue(now: nat, ghost s: System) returns (callbacks: seq<(Id, Path)>)
      requires Shows(s) && Enabled(s, CheckDeadline) && s.now == now
      modifies this`dirty, this`deadline
      ensures forall i, j :: 0 <= i < j < |callbacks| ==> callbacks[i].0 != callbacks[j].0
      ensures var n := Apply(s, CheckDeadline);
              if n.pc.Firing?
              then dirty == {} && deadline == None
                   && forall c :: c in callbacks <==> c.0 in n.pc.left && c.0 in watches && c.1 == watches[c.0].path
              else dirty == old(dirty) && deadline == old(deadline) && callbacks == []
    {
      callbacks := [];
      if deadline.Some? && now >= deadline.value {
        callbacks := FireDirty();
        dirty := {};
        deadline := None;
      }
    }

    /** Disarms the watches, in any order. */
    method DisarmAll(ghost s: System)
      requires Shows(s) && Conserved(s) && s.lock.Free? && s.calls == map[]
      modifies this
      ensures watches == map[] && kernel.open == map[] && kernel.files == old(kernel).files
    {
      ghost var order: seq<Id> := [];
      var todo := watches.Keys;
      while todo != {}
        invariant todo <= watches.Keys && watches == s.watches && ToSet(order) == watches.Keys - todo
        invariant kernel == UnwatchAll(s, order).kernel
        decreases todo
      {
        var id :| id in todo;
        UnwatchNext(s, order, id);
        DisarmWatch(watches[id]);
        order := order + [id];
        todo := todo - {id};
      }
      AllUnwatched(s, order);
      watches := map[];
    }

    /** The destructor, once the worker has ended: no descriptor is left open. */
    method Destroy(ghost s: System)
      requires Shows(s) && Reachable(s) && Enabled(s, Teardown)
      modifies this
      ensures watches == map[] && kernel.open == map[] && kernel.files == old(kernel).files
    {
      TeardownIsQuiet(s);
      DisarmAll(s);
    }
  }

  /** What the destructor relies on. */
  lemma TeardownIsQuiet(s: System)
    requires Reachable(s) && Enabled(s, Teardown)
    ensures Conserved(s) && s.lock.Free? && s.calls == map[]
  {
    ReachableInv(s);
  }

  /** Disarming one more watch. */
  lemma UnwatchNext(s: System, order: seq<Id>, id: Id)
    requires id in s.watches && id !in order
    ensures UnwatchAll(s, order + [id]).kernel == DisarmWatch(UnwatchAll(s, order).kernel, s.watches[id])
    ensures ToSet(order + [id]) == ToSet(order) + {id}
  {
    UnwatchAllMeans(s, order);
    UnwatchSnoc(s, order, id);
  }

  lemma AllUnwatched(s: System, order: seq<Id>)
    requires Conserved(s) && s.lock.Free? && s.calls == map[] && ToSet(order) == s.watches.Keys
    ensures UnwatchAll(s, order).kernel.open == map[] && UnwatchAll(s, order).kernel.files == s.kernel.files
  {
    UnwatchAllMeans(s, order);
    UnwatchAllConserved(s, order);
    NoHolderNoDescriptor(UnwatchAll(s, order));
  }

  lemma {:induction false} UnwatchSnoc(s: System, ids: seq<Id>, id: Id)
    ensures UnwatchAll(s, ids + [id]) == Unwatch(UnwatchAll(s, ids), id)
    decreases |ids|
  {
    if ids == [] {
      assert [id][1..] == [];
    } else {
      assert (ids + [id])[1..] == ids[1..] + [id];
      UnwatchSnoc(Unwatch(s, ids[0]), ids[1..], id);
    }
  }
}
