/**
 What every interleaving of util::KqueueFileWatcher keeps: its ids, its phases and its descriptors.
 */
module KqInvariants {
  import opened Collections
  import opened KqSystem

  predicate LockOn(s: System, id: Id) {
    !s.lock.Free? && s.lock.id == id
  }

  // ---- Ids and phases ----

  /** Ids are handed out once; one that was unwatched is not watched again. */
  ghost predicate IdsOk(s: System) {
    var h := s.history;
    && (forall id :: id in s.calls || id in s.watches || id in h.seen ==> id < s.nextId)
    && s.calls.Keys !! s.watches.Keys && s.calls.Keys !! h.seen.Keys
    && (forall id :: id in s.watches ==> id in h.seen || (LockOn(s, id) && s.lock.registering))
    && (!s.lock.Free? ==> s.lock.id in s.watches && (s.lock.registering ==> s.lock.id !in h.seen))
    && ToSet(s.pending) <= h.seen.Keys
    && h.drained <= h.seen.Keys && h.drained !! s.watches.Keys
  }

  /** The worker opens files only while it handles events, and no call outlives the watcher. */
  ghost predicate PhaseOk(s: System) {
    && (!s.lock.Free? && !s.lock.registering ==> s.pc.Handling?)
    && (s.shutdown ==> s.calls == map[] && (s.lock.Free? || !s.lock.registering))
    && (s.pc.Exited? ==> s.shutdown)
    && s.dirty <= s.history.seen.Keys
    && (s.pc.Firing? ==> s.pc.left <= s.dirty && s.pc.left <= s.watches.Keys && s.pc.left !! s.pc.done)
  }

  // ---- Descriptors ----

  /** The owner on record does hold the descriptor. */
  ghost predicate Owned(s: System, fd: Fd, d: Descriptor) {
    match d.owner
    case CallOf(id) => id in s.calls && s.calls[id].dirFd == fd && d.node == DirNode(s.calls[id].path.dir)
    case DirOf(id) => id in s.watches && s.watches[id].dirFd == fd && d.node == DirNode(s.watches[id].path.dir)
    case FileOf(id) => id in s.watches && s.watches[id].fileFd == Some(fd) && d.node.FileNode?
  }

  ghost predicate OwnedBy(s: System, fd: Fd, owner: Owner) {
    fd in s.kernel.open && s.kernel.open[fd].owner == owner
  }

  ghost predicate ReportsTo(s: System, fd: Fd, id: Id) {
    fd in s.kernel.knotes && s.kernel.knotes[fd].id == id
  }

  /** Both descriptors of a watch are its own and armed, the file's except while it is being armed. */
  ghost predicate WatchOk(s: System, id: Id, w: Watch) {
    && OwnedBy(s, w.dirFd, DirOf(id)) && ReportsTo(s, w.dirFd, id)
    && (w.fileFd.Some? ==> OwnedBy(s, w.fileFd.value, FileOf(id)))
    && (w.fileFd.Some? && !(s.lock.Arming? && s.lock.id == id) ==> ReportsTo(s, w.fileFd.value, id))
    && (s.lock.Opening? && s.lock.id == id ==> w.fileFd.None?)
    && (s.lock.Arming? && s.lock.id == id ==> w.fileFd.Some? && w.fileFd.value !in s.kernel.knotes)
  }

  /** Only a watch's own descriptors report to it. */
  ghost predicate Watched(s: System, fd: Fd, id: Id) {
    OwnedBy(s, fd, DirOf(id)) || OwnedBy(s, fd, FileOf(id))
  }

  ghost predicate OpenOwned(s: System) {
    && (forall fd :: fd in s.kernel.open ==> Owned(s, fd, s.kernel.open[fd]))
    && (forall fd :: fd in s.kernel.knotes ==> Watched(s, fd, s.kernel.knotes[fd].id))
  }

  ghost predicate HoldersOpen(s: System) {
    && (forall id :: id in s.calls ==> OwnedBy(s, s.calls[id].dirFd, CallOf(id)))
    && (forall id :: id in s.watches ==> WatchOk(s, id, s.watches[id]))
  }

  /** Every open descriptor has an owner that holds it, and every holder's descriptor is open and its own. */
  ghost predicate Conserved(s: System) {
    OpenOwned(s) && HoldersOpen(s)
  }

  ghost predicate Base(s: System) {
    IdsOk(s) && PhaseOk(s) && Conserved(s)
  }

  lemma InitiallyBase()
    ensures Base(INITIAL)
  {
  }

  // ---- Raising notes ----

  /** Only notes are added. */
  ghost predicate Louder(k: Kernel, l: Kernel) {
    && l.open == k.open
    && l.knotes.Keys == k.knotes.Keys
    && forall fd :: fd in k.knotes ==> LouderAt(k.knotes[fd], l.knotes[fd])
  }

  predicate LouderAt(k: Knote, l: Knote) {
    l.id == k.id && (k.notes.gone ==> l.notes.gone) && (k.notes.touched ==> l.notes.touched)
  }

  lemma RaiseLouder(k: Kernel, node: Node, notes: Notes)
    ensures Louder(k, Raise(k, node, notes))
  {
  }

  lemma LouderTwice(k: Kernel, l: Kernel, m: Kernel)
    requires Louder(k, l) && Louder(l, m)
    ensures Louder(k, m)
  {
  }

  lemma UnlinkLouder(k: Kernel, path: Path)
    requires path in k.files
    ensures Louder(k, Unlink(k, path)) && Unlink(k, path).files == k.files - {path}
    ensures Unlink(k, path).nextInode == k.nextInode
  {
  }

  /** A step of the file system, or of the kernel's own. */
  predicate OfFiles(a: Action) {
    a.Create? || a.Write? || a.Delete? || a.Rename? || a.Notify?
  }

  lemma RenameLouder(s: System, path: Path, target: Path)
    requires path in s.kernel.files && target != path
    ensures Louder(s.kernel, RenameFile(s, path, target).kernel)
  {
    var cleared := if target in s.kernel.files then Unlink(s.kernel, target) else s.kernel;
    if target in s.kernel.files {
      UnlinkLouder(s.kernel, target);
    }
    assert Louder(s.kernel, cleared);
    UnlinkLouder(cleared, path);
    var moved := Unlink(cleared, path);
    LouderTwice(s.kernel, cleared, moved);
    var placed := moved.(files := moved.files[target := s.kernel.files[path]]);
    RaiseLouder(placed, DirNode(target.dir), Notes(false, true));
    LouderTwice(s.kernel, placed, Raise(placed, DirNode(target.dir), Notes(false, true)));
  }

  lemma FilesLouder(s: System, a: Action)
    requires Enabled(s, a) && OfFiles(a)
    ensures Louder(s.kernel, Apply(s, a).kernel)
  {
    match a {
      case Create(path) =>
        RaiseLouder(s.kernel.(files := s.kernel.files[path := s.kernel.nextInode], nextInode := s.kernel.nextInode + 1),
                    DirNode(path.dir), Notes(false, true));
      case Write(path) => RaiseLouder(s.kernel, FileNode(s.kernel.files[path]), Notes(false, true));
      case Delete(path) => UnlinkLouder(s.kernel, path);
      case Rename(path, target) => RenameLouder(s, path, target);
      case Notify(_, _) =>
    }
  }

  // ---- Unwatching ----

  /** What unwatching touches. */
  lemma {:induction false} UnwatchAllMeans(s: System, ids: seq<Id>)
    ensures var n := UnwatchAll(s, ids);
            && n == s.(kernel := n.kernel, watches := n.watches)
            && n.watches == s.watches - ToSet(ids)
            && n.kernel.files == s.kernel.files
    decreases |ids|
  {
    if ids != [] {
      UnwatchAllMeans(Unwatch(s, ids[0]), ids[1..]);
      assert ToSet(ids) == {ids[0]} + ToSet(ids[1..]);
      assert s.watches - {ids[0]} - ToSet(ids[1..]) == s.watches - ToSet(ids);
    }
  }

  lemma UnwatchOwned(s: System, id: Id)
    requires Conserved(s)
    ensures OpenOwned(Unwatch(s, id))
  {
    if id in s.watches {
      var n := Unwatch(s, id);
      assert WatchOk(s, id, s.watches[id]);
      forall fd | fd in n.kernel.open ensures Owned(n, fd, n.kernel.open[fd]) {
        assert Owned(s, fd, s.kernel.open[fd]);
      }
    }
  }

  lemma UnwatchHolders(s: System, id: Id)
    requires HoldersOpen(s) && s.lock.Free?
    ensures HoldersOpen(Unwatch(s, id))
  {
  }

  lemma {:induction false} UnwatchAllConserved(s: System, ids: seq<Id>)
    requires Conserved(s) && s.lock.Free?
    ensures Conserved(UnwatchAll(s, ids))
    decreases |ids|
  {
    if ids != [] {
      UnwatchOwned(s, ids[0]);
      UnwatchHolders(s, ids[0]);
      UnwatchAllConserved(Unwatch(s, ids[0]), ids[1..]);
    }
  }

  // ---- Ids at every step ----

  /** The parts that ids are kept in. */
  ghost predicate SameIds(s: System, n: System) {
    && n.calls == s.calls && n.watches.Keys == s.watches.Keys && n.pending == s.pending && n.nextId == s.nextId
    && n.history.drained == s.history.drained
  }

  lemma QuietIds(s: System, n: System)
    requires IdsOk(s) && SameIds(s, n) && n.history.seen == s.history.seen && (n.lock == s.lock || n.lock.Free?)
    requires n.lock == s.lock || !s.lock.registering
    ensures IdsOk(n)
  {
  }

  lemma ClientIds(s: System, a: Action)
    requires IdsOk(s) && Enabled(s, a) && (a.BeginWatch? || a.Register? || a.CloseWatch?)
    ensures IdsOk(Apply(s, a))
  {
  }

  /** The mutex is released; a registration now counts as seen. */
  lemma ReleaseIds(s: System, n: System, id: Id)
    requires IdsOk(s) && SameIds(s, n) && LockOn(s, id) && n.lock.Free?
    requires n.history.seen == if s.lock.registering then s.history.seen[id := s.history.clock] else s.history.seen
    ensures IdsOk(n)
  {
  }

  lemma LockIds(s: System, n: System, id: Id)
    requires IdsOk(s) && SameIds(s, n) && n.history.seen == s.history.seen && id in s.watches
    requires n.lock == Opening(id, false) && s.lock.Free?
    ensures IdsOk(n)
  {
  }

  lemma OpenIds(s: System, a: Action)
    requires IdsOk(s) && Enabled(s, a) && a.OpenFile?
    ensures IdsOk(Apply(s, a))
  {
    var n := Apply(s, a);
    assert n.watches.Keys == s.watches.Keys;
    if n.lock.Free? {
      ReleaseIds(s, n, s.lock.id);
    }
  }

  lemma ArmIds(s: System, a: Action)
    requires IdsOk(s) && Enabled(s, a) && a.ArmFile?
    ensures IdsOk(Apply(s, a))
  {
    var n := Apply(s, a);
    assert n.watches.Keys == s.watches.Keys;
    ReleaseIds(s, n, s.lock.id);
  }

  lemma DrainIds(s: System, a: Action)
    requires IdsOk(s) && Enabled(s, a) && a.DrainPending?
    ensures IdsOk(Apply(s, a))
  {
    UnwatchAllMeans(s, s.pending);
    assert ToSet<Id>([]) == {};
  }

  lemma HandleIds(s: System, a: Action)
    requires IdsOk(s) && Enabled(s, a) && a.HandleEvent?
    ensures IdsOk(Apply(s, a))
  {
    var n := Apply(s, a);
    assert n.watches.Keys == s.watches.Keys;
    if n.lock.Free? {
      QuietIds(s, n);
    } else {
      LockIds(s, n, s.pc.batch[0].id);
    }
  }

  lemma CallbackIds(s: System, a: Action)
    requires IdsOk(s) && PhaseOk(s) && Enabled(s, a) && a.RunCallback?
    ensures IdsOk(Apply(s, a))
  {
  }

  lemma TeardownIds(s: System, a: Action)
    requires IdsOk(s) && PhaseOk(s) && Enabled(s, a) && a.Teardown?
    ensures IdsOk(Apply(s, a))
  {
    UnwatchAllMeans(s, OrderOf(s.watches.Keys));
  }

  lemma RestIds(s: System, a: Action)
    requires IdsOk(s) && Enabled(s, a) && (Quiet(a) || a.Deliver?) && !a.CloseWatch? && !a.RunCallback?
    ensures IdsOk(Apply(s, a))
  {
    QuietIds(s, Apply(s, a));
  }

  lemma StepIds(s: System, a: Action)
    requires IdsOk(s) && PhaseOk(s) && Enabled(s, a)
    ensures IdsOk(Apply(s, a))
  {
    match a {
      case BeginWatch(_, _) => ClientIds(s, a);
      case Register(_, _) => ClientIds(s, a);
      case CloseWatch(_) => ClientIds(s, a);
      case OpenFile(_) => OpenIds(s, a);
      case ArmFile(_) => ArmIds(s, a);
      case DrainPending => DrainIds(s, a);
      case HandleEvent => HandleIds(s, a);
      case RunCallback(_) => CallbackIds(s, a);
      case Teardown => TeardownIds(s, a);
      case _ => RestIds(s, a);
    }
  }

  // ---- Phases at every step ----

  lemma DrainPhase(s: System, a: Action)
    requires PhaseOk(s) && Enabled(s, a) && (a.DrainPending? || a.Teardown?)
    ensures PhaseOk(Apply(s, a))
  {
    UnwatchAllMeans(s, if a.DrainPending? then s.pending else OrderOf(s.watches.Keys));
  }

  lemma HandlePhase(s: System, a: Action)
    requires PhaseOk(s) && IdsOk(s) && Enabled(s, a) && a.HandleEvent?
    ensures PhaseOk(Apply(s, a))
  {
  }

  lemma OpenPhase(s: System, a: Action)
    requires PhaseOk(s) && IdsOk(s) && Enabled(s, a) && a.OpenFile?
    ensures PhaseOk(Apply(s, a))
  {
  }

  lemma ArmPhase(s: System, a: Action)
    requires PhaseOk(s) && IdsOk(s) && Enabled(s, a) && a.ArmFile?
    ensures PhaseOk(Apply(s, a))
  {
  }

  lemma WorkerPhase(s: System, a: Action)
    requires PhaseOk(s) && Enabled(s, a)
    requires || a.ReadFlag? || a.KeventFails? || a.Deliver? || a.EndBatch?
             || a.CheckDeadline? || a.RunCallback? || a.FinishFiring?
    ensures PhaseOk(Apply(s, a))
  {
  }

  lemma ClientPhase(s: System, a: Action)
    requires PhaseOk(s) && Enabled(s, a)
    requires a.BeginWatch? || a.Register? || a.CloseWatch? || a.Destroy? || a.Tick? || OfFiles(a)
    ensures PhaseOk(Apply(s, a))
  {
  }

  lemma StepPhase(s: System, a: Action)
    requires IdsOk(s) && PhaseOk(s) && Enabled(s, a)
    ensures PhaseOk(Apply(s, a))
  {
    match a {
      case OpenFile(_) => OpenPhase(s, a);
      case ArmFile(_) => ArmPhase(s, a);
      case HandleEvent => HandlePhase(s, a);
      case DrainPending => DrainPhase(s, a);
      case Teardown => DrainPhase(s, a);
      case ReadFlag(_) => WorkerPhase(s, a);
      case KeventFails => WorkerPhase(s, a);
      case Deliver(_) => WorkerPhase(s, a);
      case EndBatch => WorkerPhase(s, a);
      case CheckDeadline => WorkerPhase(s, a);
      case RunCallback(_) => WorkerPhase(s, a);
      case FinishFiring => WorkerPhase(s, a);
      case _ => ClientPhase(s, a);
    }
  }

  // ---- Descriptors at every step ----

  lemma LouderConserved(s: System, n: System)
    requires Conserved(s) && Louder(s.kernel, n.kernel)
    requires n.watches == s.watches && n.calls == s.calls && n.lock == s.lock
    ensures Conserved(n)
  {
  }

  lemma BeginOwned(s: System, a: Action)
    requires OpenOwned(s) && IdsOk(s) && Enabled(s, a) && a.BeginWatch?
    ensures OpenOwned(Apply(s, a))
  {
    var n := Apply(s, a);
    forall fd | fd in n.kernel.open ensures Owned(n, fd, n.kernel.open[fd]) {
      assert fd != a.fd ==> Owned(s, fd, s.kernel.open[fd]);
    }
  }

  lemma BeginHolders(s: System, a: Action)
    requires HoldersOpen(s) && Enabled(s, a) && a.BeginWatch?
    ensures HoldersOpen(Apply(s, a))
  {
  }

  lemma RegisterOwned(s: System, a: Action)
    requires Conserved(s) && Enabled(s, a) && a.Register?
    requires s.calls.Keys !! s.watches.Keys
    ensures OpenOwned(Apply(s, a))
  {
    var n := Apply(s, a);
    var fd := s.calls[a.id].dirFd;
    assert OwnedBy(s, fd, CallOf(a.id)) && Owned(s, fd, s.kernel.open[fd]);
    forall f | f in n.kernel.open ensures Owned(n, f, n.kernel.open[f]) {
      assert Owned(s, f, s.kernel.open[f]);
    }
  }

  lemma RegisterHolders(s: System, a: Action)
    requires HoldersOpen(s) && Enabled(s, a) && a.Register?
    ensures HoldersOpen(Apply(s, a))
  {
    var n := Apply(s, a);
    assert OwnedBy(s, s.calls[a.id].dirFd, CallOf(a.id));
    forall i | i in n.watches ensures WatchOk(n, i, n.watches[i]) {
      assert i in s.watches ==> WatchOk(s, i, s.watches[i]);
    }
    forall i | i in n.calls ensures OwnedBy(n, n.calls[i].dirFd, CallOf(i)) {
      assert OwnedBy(s, s.calls[i].dirFd, CallOf(i));
    }
  }

  /** A watch gets a file descriptor. */
  ghost predicate Gets(s: System, n: System, id: Id, fd: Fd, d: Descriptor) {
    && id in s.watches && s.lock.Opening? && s.lock.id == id && fd !in s.kernel.open
    && d.owner == FileOf(id) && d.node.FileNode?
    && n.calls == s.calls && n.watches == s.watches[id := s.watches[id].(fileFd := Some(fd))]
    && n.kernel.open == s.kernel.open[fd := d] && n.kernel.knotes == s.kernel.knotes
    && n.lock == Arming(id, s.lock.registering)
  }

  lemma OpenOwns(s: System, n: System, id: Id, fd: Fd, d: Descriptor)
    requires OpenOwned(s) && Gets(s, n, id, fd, d) && s.watches[id].fileFd.None?
    ensures OpenOwned(n)
  {
  }

  lemma OpenHolders(s: System, n: System, id: Id, fd: Fd, d: Descriptor)
    requires Conserved(s) && Gets(s, n, id, fd, d)
    ensures HoldersOpen(n)
  {
    assert fd in s.kernel.knotes ==> Watched(s, fd, s.kernel.knotes[fd].id);
    forall i | i in n.watches ensures WatchOk(n, i, n.watches[i]) {
      assert WatchOk(s, i, s.watches[i]);
    }
    forall i | i in n.calls ensures OwnedBy(n, n.calls[i].dirFd, CallOf(i)) {
      assert OwnedBy(s, s.calls[i].dirFd, CallOf(i));
    }
  }

  /** The mutex is released with the watch's file descriptor armed, or without one. */
  lemma FreeConserved(s: System, n: System, id: Id)
    requires Conserved(s) && LockOn(s, id) && id in s.watches && n.lock.Free?
    requires n.calls == s.calls && n.watches == s.watches && n.kernel.open == s.kernel.open
    requires if s.lock.Arming? && s.watches[id].fileFd.Some?
             then n.kernel.knotes == s.kernel.knotes[s.watches[id].fileFd.value := Knote(id, QUIET)]
             else n.kernel.knotes == s.kernel.knotes
    ensures Conserved(n)
  {
    assert WatchOk(s, id, s.watches[id]);
    forall i | i in n.watches ensures WatchOk(n, i, n.watches[i]) {
      assert WatchOk(s, i, s.watches[i]);
    }
    forall f | f in n.kernel.open ensures Owned(n, f, n.kernel.open[f]) {
      assert Owned(s, f, s.kernel.open[f]);
    }
    forall i | i in n.calls ensures OwnedBy(n, n.calls[i].dirFd, CallOf(i)) {
      assert OwnedBy(s, s.calls[i].dirFd, CallOf(i));
    }
  }

  /** A watch gives up its file descriptor. */
  ghost predicate GivesUp(s: System, n: System, id: Id) {
    && id in s.watches && s.watches[id].fileFd.Some?
    && n.calls == s.calls && n.watches == s.watches[id := s.watches[id].(fileFd := None)]
    && n.kernel.open == s.kernel.open - {s.watches[id].fileFd.value}
    && n.kernel.knotes == s.kernel.knotes - {s.watches[id].fileFd.value}
    && (n.lock.Free? || n.lock == Opening(id, false))
    && (s.lock.Free? || LockOn(s, id))
  }

  lemma CloseOwned(s: System, n: System, id: Id)
    requires OpenOwned(s) && GivesUp(s, n, id)
    ensures OpenOwned(n)
  {
  }

  lemma CloseHolders(s: System, n: System, id: Id)
    requires HoldersOpen(s) && GivesUp(s, n, id)
    ensures HoldersOpen(n)
  {
  }

  lemma OpenFileConserved(s: System, a: Action)
    requires Conserved(s) && Enabled(s, a) && a.OpenFile?
    ensures Conserved(Apply(s, a))
  {
    var n := Apply(s, a);
    var id := s.lock.id;
    if s.watches[id].path in s.kernel.files {
      var d := Descriptor(FileNode(s.kernel.files[s.watches[id].path]), FileOf(id));
      assert WatchOk(s, id, s.watches[id]);
      OpenOwns(s, n, id, a.fd, d);
      OpenHolders(s, n, id, a.fd, d);
    } else {
      FreeConserved(s, n, id);
    }
  }

  lemma ArmConserved(s: System, a: Action)
    requires Conserved(s) && Enabled(s, a) && a.ArmFile?
    ensures Conserved(Apply(s, a))
  {
    var n := Apply(s, a);
    if a.ok {
      FreeConserved(s, n, s.lock.id);
    } else {
      CloseOwned(s, n, s.lock.id);
      CloseHolders(s, n, s.lock.id);
    }
  }

  lemma DeliverConserved(s: System, a: Action)
    requires Conserved(s) && Enabled(s, a) && a.Deliver?
    ensures Conserved(Apply(s, a))
  {
    var n := Apply(s, a);
    forall i | i in n.watches ensures WatchOk(n, i, n.watches[i]) {
      assert WatchOk(s, i, s.watches[i]);
    }
    forall f | f in n.kernel.open ensures Owned(n, f, n.kernel.open[f]) {
      assert Owned(s, f, s.kernel.open[f]);
    }
  }

  lemma LockConserved(s: System, n: System)
    requires Conserved(s) && s.lock.Free?
    requires n.watches == s.watches && n.calls == s.calls && n.kernel == s.kernel
    requires n.lock.Free? || (n.lock.Opening? && n.lock.id in s.watches && s.watches[n.lock.id].fileFd.None?)
    ensures Conserved(n)
  {
  }

  /** The event says that the watch's file has left its path. */
  predicate LeavesPath(s: System, e: Event) {
    e.id in s.watches && s.watches[e.id].fileFd == Some(e.fd) && e.notes.gone
  }

  lemma LeaveConserved(s: System, a: Action)
    requires Conserved(s) && Enabled(s, a) && a.HandleEvent? && LeavesPath(s, s.pc.batch[0])
    ensures Conserved(Apply(s, a))
  {
    var n, e := Apply(s, a), s.pc.batch[0];
    assert GivesUp(s, n, e.id);
    CloseOwned(s, n, e.id);
    CloseHolders(s, n, e.id);
  }

  lemma HandleConserved(s: System, a: Action)
    requires Conserved(s) && Enabled(s, a) && a.HandleEvent?
    ensures Conserved(Apply(s, a))
  {
    if LeavesPath(s, s.pc.batch[0]) {
      LeaveConserved(s, a);
    } else {
      LockConserved(s, Apply(s, a));
    }
  }

  lemma DrainConserved(s: System, a: Action)
    requires Conserved(s) && s.lock.Free? && Enabled(s, a) && (a.DrainPending? || a.Teardown?)
    ensures Conserved(Apply(s, a))
  {
    var ids := if a.DrainPending? then s.pending else OrderOf(s.watches.Keys);
    UnwatchAllMeans(s, ids);
    UnwatchAllConserved(s, ids);
    LockConserved(UnwatchAll(s, ids), Apply(s, a));
  }

  /** A step that neither opens nor closes a descriptor, nor takes the mutex. */
  predicate Quiet(a: Action) {
    || OfFiles(a) || a.Tick? || a.CloseWatch? || a.Destroy? || a.ReadFlag? || a.KeventFails? || a.EndBatch?
    || a.CheckDeadline? || a.RunCallback? || a.FinishFiring?
  }

  lemma QuietMeans(s: System, a: Action)
    requires Enabled(s, a) && Quiet(a)
    ensures var n := Apply(s, a); n.watches == s.watches && n.calls == s.calls && n.lock == s.lock
    ensures OfFiles(a) || Apply(s, a).kernel == s.kernel
  {
  }

  lemma QuietConserved(s: System, a: Action)
    requires Conserved(s) && Enabled(s, a) && Quiet(a)
    ensures Conserved(Apply(s, a))
  {
    var n := Apply(s, a);
    QuietMeans(s, a);
    assert Louder(s.kernel, n.kernel) by {
      if OfFiles(a) {
        FilesLouder(s, a);
      }
    }
    LouderConserved(s, n);
  }

  lemma StepConserved(s: System, a: Action)
    requires Base(s) && Enabled(s, a)
    ensures Conserved(Apply(s, a))
  {
    match a {
      case BeginWatch(_, _) => BeginOwned(s, a); BeginHolders(s, a);
      case Register(_, _) => RegisterOwned(s, a); RegisterHolders(s, a);
      case OpenFile(_) => OpenFileConserved(s, a);
      case ArmFile(_) => ArmConserved(s, a);
      case DrainPending => DrainConserved(s, a);
      case Teardown => DrainConserved(s, a);
      case HandleEvent => HandleConserved(s, a);
      case Deliver(_) => DeliverConserved(s, a);
      case _ => QuietConserved(s, a);
    }
  }

  lemma StepBase(s: System, a: Action)
    requires Base(s) && Enabled(s, a)
    ensures Base(Apply(s, a))
  {
    StepIds(s, a);
    StepPhase(s, a);
    StepConserved(s, a);
  }
}
