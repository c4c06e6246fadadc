/**
 How util::KqueueFileWatcher keeps following a path through create, write, delete, rename and replace: whatever
 it does not know yet is announced by a note that is raised, an event that is to be handled, or a dirty id.
 */
module KqTracking {
  import opened Collections
  import opened KqSystem
  import opened KqInvariants

  /** The worker is going to run the callback. */
  predicate FireDue(s: System, id: Id) {
    if s.pc.Firing? then id in s.pc.left else id in s.dirty
  }

  /** The file at the path has changed since the callback last started, or since registration. */
  predicate Stale(s: System, id: Id, w: Watch) {
    var h := s.history;
    w.path in h.changed && id in h.seen && h.changed[w.path] > h.seen[id]
  }

  ghost predicate Followed(s: System, id: Id, w: Watch) {
    && (w.fileFd.None? && w.path in s.kernel.files ==> Due(s, w.dirFd, id, Either))
    && (w.fileFd.Some? && !OnPath(s, w) ==> Due(s, w.fileFd.value, id, Gone))
    && (OnPath(s, w) && Stale(s, id, w) ==>
          FireDue(s, id) || Due(s, w.fileFd.value, id, Gone) || Due(s, w.fileFd.value, id, Touched))
  }

  /** The watch exists and nobody is opening its file. */
  ghost predicate AtRest(s: System, id: Id) {
    id in s.watches && !LockOn(s, id)
  }

  ghost predicate InScope(s: System, id: Id) {
    AtRest(s, id) && id !in s.history.adrift
  }

  ghost predicate ClockOk(s: System) {
    forall path :: path in s.history.changed ==> s.history.changed[path] <= s.history.clock
  }

  ghost predicate Tracking(s: System) {
    && ClockOk(s)
    && forall id :: InScope(s, id) ==> Followed(s, id, s.watches[id])
  }

  // ---- Steps that leave a watch as it is ----

  /** What was due still is. */
  ghost predicate Carried(s: System, n: System, id: Id, fd: Fd) {
    forall want :: Due(s, fd, id, want) ==> Due(n, fd, id, want)
  }

  /** Nothing has changed for the watch, and what was due to it still is. */
  ghost predicate Unmoved(s: System, n: System, id: Id, w: Watch) {
    && Carried(s, n, id, w.dirFd) && (w.fileFd.Some? ==> Carried(s, n, id, w.fileFd.value))
    && n.kernel.files == s.kernel.files && OnPath(n, w) == OnPath(s, w)
  }

  /** A change that the callback has yet to see is one that it had yet to see, and it is still going to. */
  ghost predicate NoStaler(s: System, n: System, id: Id, w: Watch) {
    Stale(n, id, w) ==> Stale(s, id, w) && (FireDue(s, id) ==> FireDue(n, id))
  }

  lemma StillFollowed(s: System, n: System, id: Id, w: Watch)
    requires Followed(s, id, w) && Unmoved(s, n, id, w) && NoStaler(s, n, id, w)
    ensures Followed(n, id, w)
  {
  }

  lemma SameDues(s: System, n: System, id: Id, fd: Fd)
    requires Unhandled(n) == Unhandled(s)
    requires fd in s.kernel.knotes ==> fd in n.kernel.knotes && LouderAt(s.kernel.knotes[fd], n.kernel.knotes[fd])
    ensures Carried(s, n, id, fd)
  {
  }

  // ---- The file system ----

  /** A change of the files is announced to the watch. */
  ghost predicate Announced(s: System, n: System, id: Id, w: Watch) {
    && (w.path in n.kernel.files && w.path !in s.kernel.files ==> Raised(n, w.dirFd, id, Either))
    && (OnPath(s, w) && !OnPath(n, w) ==> Raised(n, w.fileFd.value, id, Gone))
    && (OnPath(s, w) && Stale(n, id, w) && !Stale(s, id, w) ==>
          Raised(n, w.fileFd.value, id, Gone) || Raised(n, w.fileFd.value, id, Touched))
  }

  lemma AnnouncedFollows(s: System, n: System, id: Id, w: Watch)
    requires Followed(s, id, w) && Announced(s, n, id, w) && Louder(s.kernel, n.kernel)
    requires n.pc == s.pc && n.dirty == s.dirty
    ensures Followed(n, id, w)
  {
  }

  lemma CreateAnnounced(s: System, path: Path, id: Id, w: Watch)
    requires path !in s.kernel.files && WatchOk(s, id, w) && s.kernel.open[w.dirFd].node == DirNode(w.path.dir)
    ensures Announced(s, CreateFile(s, path), id, w)
  {
  }

  lemma WriteAnnounced(s: System, path: Path, id: Id, w: Watch)
    requires path in s.kernel.files && WatchOk(s, id, w) && !LockOn(s, id)
    ensures Announced(s, WriteFile(s, path), id, w)
  {
  }

  lemma DeleteAnnounced(s: System, path: Path, id: Id, w: Watch)
    requires path in s.kernel.files && WatchOk(s, id, w) && !LockOn(s, id)
    ensures Announced(s, s.(kernel := Unlink(s.kernel, path)), id, w)
  {
  }

  /** A file that is moved away or replaced hears of it, and so does the directory of a file that appears. */
  ghost predicate Told(k: Kernel, l: Kernel, path: Path, target: Path, fd: Fd)
    requires path in k.files && fd in k.open
  {
    && fd in l.knotes
    && (k.open[fd].node == FileNode(k.files[path]) ==> l.knotes[fd].notes.gone)
    && (target in k.files && k.open[fd].node == FileNode(k.files[target]) ==> l.knotes[fd].notes.gone)
    && (k.open[fd].node == DirNode(target.dir) ==> l.knotes[fd].notes.touched)
  }

  lemma RenameTold(s: System, path: Path, target: Path, fd: Fd)
    requires path in s.kernel.files && target != path && fd in s.kernel.knotes && fd in s.kernel.open
    ensures Told(s.kernel, RenameFile(s, path, target).kernel, path, target, fd)
  {
  }

  lemma RenameFiles(s: System, path: Path, target: Path)
    requires path in s.kernel.files && target != path
    ensures RenameFile(s, path, target).kernel.files == (s.kernel.files - {path})[target := s.kernel.files[path]]
  {
  }

  lemma ToldAnnounced(s: System, n: System, path: Path, target: Path, id: Id, w: Watch)
    requires path in s.kernel.files && target != path && WatchOk(s, id, w) && !LockOn(s, id)
    requires s.kernel.open[w.dirFd].node == DirNode(w.path.dir)
    requires Told(s.kernel, n.kernel, path, target, w.dirFd)
    requires w.fileFd.Some? ==> Told(s.kernel, n.kernel, path, target, w.fileFd.value)
    requires Louder(s.kernel, n.kernel) && n.history == Stamp(s.history, target)
    requires n.kernel.files == (s.kernel.files - {path})[target := s.kernel.files[path]]
    ensures Announced(s, n, id, w)
  {
  }

  lemma RenameAnnounced(s: System, path: Path, target: Path, id: Id, w: Watch)
    requires path in s.kernel.files && target != path && WatchOk(s, id, w) && !LockOn(s, id)
    requires s.kernel.open[w.dirFd].node == DirNode(w.path.dir) && w.dirFd in s.kernel.knotes
    ensures Announced(s, RenameFile(s, path, target), id, w)
  {
    RenameLouder(s, path, target);
    RenameTold(s, path, target, w.dirFd);
    if w.fileFd.Some? {
      RenameTold(s, path, target, w.fileFd.value);
    }
    RenameFiles(s, path, target);
    ToldAnnounced(s, RenameFile(s, path, target), path, target, id, w);
  }

  lemma FilesFollow(s: System, a: Action, id: Id)
    requires Base(s) && Tracking(s) && Enabled(s, a) && OfFiles(a) && InScope(s, id)
    ensures Followed(Apply(s, a), id, s.watches[id])
  {
    var w := s.watches[id];
    assert WatchOk(s, id, w) && Owned(s, w.dirFd, s.kernel.open[w.dirFd]);
    match a {
      case Create(path) => CreateAnnounced(s, path, id, w);
      case Write(path) => WriteAnnounced(s, path, id, w);
      case Delete(path) => DeleteAnnounced(s, path, id, w);
      case Rename(path, target) => RenameAnnounced(s, path, target, id, w);
      case Notify(_, _) =>
    }
    FilesLouder(s, a);
    AnnouncedFollows(s, Apply(s, a), id, w);
  }

  // ---- Opening, arming and closing other descriptors ----

  /** The watch's own descriptors are as they were. */
  ghost predicate SameDescriptor(s: System, n: System, fd: Fd) {
    && fd in s.kernel.open && fd in n.kernel.open && n.kernel.open[fd].node == s.kernel.open[fd].node
    && fd in s.kernel.knotes && fd in n.kernel.knotes && n.kernel.knotes[fd] == s.kernel.knotes[fd]
  }

  ghost predicate SameDescriptors(s: System, n: System, w: Watch) {
    SameDescriptor(s, n, w.dirFd) && (w.fileFd.Some? ==> SameDescriptor(s, n, w.fileFd.value))
  }

  lemma DescriptorsUnmoved(s: System, n: System, id: Id, w: Watch)
    requires SameDescriptors(s, n, w) && n.kernel.files == s.kernel.files && Unhandled(n) == Unhandled(s)
    ensures Unmoved(s, n, id, w)
  {
    SameDues(s, n, id, w.dirFd);
    if w.fileFd.Some? {
      SameDues(s, n, id, w.fileFd.value);
    }
  }

  /** Only descriptors of others are opened, armed or closed. */
  lemma OwnDescriptors(s: System, n: System, id: Id, fds: set<Fd>)
    requires HoldersOpen(s) && AtRest(s, id)
    requires forall fd :: fd in s.kernel.open && fd !in fds ==>
               fd in n.kernel.open && n.kernel.open[fd].node == s.kernel.open[fd].node
    requires forall fd :: fd in s.kernel.knotes && fd !in fds ==>
               fd in n.kernel.knotes && n.kernel.knotes[fd] == s.kernel.knotes[fd]
    requires forall fd :: fd in fds && fd in s.kernel.open ==>
               s.kernel.open[fd].owner != DirOf(id) && s.kernel.open[fd].owner != FileOf(id)
    ensures SameDescriptors(s, n, s.watches[id])
  {
  }

  lemma BeginKeeps(s: System, a: Action, id: Id)
    requires HoldersOpen(s) && Enabled(s, a) && (a.BeginWatch? || a.OpenFile?) && AtRest(s, id)
    ensures SameDescriptors(s, Apply(s, a), s.watches[id])
  {
    OwnDescriptors(s, Apply(s, a), id, {a.fd});
  }

  lemma RegisterKeeps(s: System, a: Action, id: Id)
    requires HoldersOpen(s) && Enabled(s, a) && a.Register? && AtRest(s, id)
    ensures SameDescriptors(s, Apply(s, a), s.watches[id])
  {
    var fd := s.calls[a.id].dirFd;
    assert OwnedBy(s, fd, CallOf(a.id));
    OwnDescriptors(s, Apply(s, a), id, {fd});
  }

  lemma ArmKeeps(s: System, a: Action, id: Id)
    requires HoldersOpen(s) && Enabled(s, a) && a.ArmFile? && AtRest(s, id)
    ensures SameDescriptors(s, Apply(s, a), s.watches[id])
  {
    assert WatchOk(s, s.lock.id, s.watches[s.lock.id]);
    OwnDescriptors(s, Apply(s, a), id, {s.watches[s.lock.id].fileFd.value});
  }

  lemma {:induction false} UnwatchAllKeeps(s: System, ids: seq<Id>, id: Id)
    requires Conserved(s) && s.lock.Free? && id in s.watches && id !in ids
    ensures SameDescriptors(s, UnwatchAll(s, ids), s.watches[id])
    decreases |ids|
  {
    assert WatchOk(s, id, s.watches[id]);
    if ids != [] {
      var n := Unwatch(s, ids[0]);
      if ids[0] in s.watches {
        assert WatchOk(s, ids[0], s.watches[ids[0]]);
      }
      UnwatchOwned(s, ids[0]);
      UnwatchHolders(s, ids[0]);
      UnwatchAllKeeps(n, ids[1..], id);
    }
  }

  /** A step of a client, or of whoever holds the mutex. */
  predicate Locked(a: Action) {
    a.BeginWatch? || a.Register? || a.OpenFile? || a.ArmFile?
  }

  lemma ArmSame(s: System, a: Action)
    requires Enabled(s, a) && a.ArmFile?
    ensures var n := Apply(s, a); n.kernel.files == s.kernel.files && n.pc == s.pc
    ensures var h, g := s.history, Apply(s, a).history; g.changed == h.changed && g.clock == h.clock
  {
  }

  lemma LockedSame(s: System, a: Action)
    requires Enabled(s, a) && Locked(a)
    ensures var n := Apply(s, a); n.kernel.files == s.kernel.files && n.pc == s.pc
    ensures var h, g := s.history, Apply(s, a).history; g.changed == h.changed && g.clock == h.clock
  {
    if a.ArmFile? {
      ArmSame(s, a);
    }
  }

  lemma LockedKeeps(s: System, a: Action, id: Id)
    requires HoldersOpen(s) && Enabled(s, a) && Locked(a) && AtRest(s, id)
    ensures SameDescriptors(s, Apply(s, a), s.watches[id])
  {
    if a.BeginWatch? || a.OpenFile? {
      BeginKeeps(s, a, id);
    } else if a.Register? {
      RegisterKeeps(s, a, id);
    } else {
      ArmKeeps(s, a, id);
    }
  }

  lemma LockedUnmoved(s: System, a: Action, id: Id)
    requires HoldersOpen(s) && Enabled(s, a) && Locked(a) && AtRest(s, id)
    ensures Unmoved(s, Apply(s, a), id, s.watches[id])
  {
    LockedKeeps(s, a, id);
    LockedSame(s, a);
    DescriptorsUnmoved(s, Apply(s, a), id, s.watches[id]);
  }

  lemma DrainUnmoved(s: System, a: Action, id: Id)
    requires Conserved(s) && Enabled(s, a) && a.DrainPending? && AtRest(s, id) && id in Apply(s, a).watches
    ensures Unmoved(s, Apply(s, a), id, s.watches[id])
  {
    UnwatchAllMeans(s, s.pending);
    UnwatchAllKeeps(s, s.pending, id);
    DescriptorsUnmoved(s, Apply(s, a), id, s.watches[id]);
  }

  lemma QuietUnhandled(s: System, a: Action)
    requires Enabled(s, a) && Quiet(a) && !OfFiles(a)
    ensures Unhandled(Apply(s, a)) == Unhandled(s)
  {
  }

  lemma QuietUnmoved(s: System, a: Action, id: Id)
    requires HoldersOpen(s) && Enabled(s, a) && Quiet(a) && !OfFiles(a) && AtRest(s, id)
    ensures Unmoved(s, Apply(s, a), id, s.watches[id])
  {
    assert WatchOk(s, id, s.watches[id]);
    QuietMeans(s, a);
    QuietUnhandled(s, a);
    DescriptorsUnmoved(s, Apply(s, a), id, s.watches[id]);
  }

  lemma DeliverCarries(s: System, n: System, fds: seq<Fd>, id: Id, fd: Fd)
    requires s.pc.Wait? && forall f :: f in fds ==> f in s.kernel.knotes
    requires n.kernel == Delivered(s.kernel, fds) && n.pc == Handling(Batch(s.kernel, fds))
    ensures Carried(s, n, id, fd)
  {
    forall want | Due(s, fd, id, want) ensures Due(n, fd, id, want) {
      if fd in fds {
        var i :| 0 <= i < |fds| && fds[i] == fd;
        var e := Batch(s.kernel, fds)[i];
        assert e in Unhandled(n) && Reports(e, fd, id, want);
      } else {
        assert Raised(n, fd, id, want);
      }
    }
  }

  /** Delivering notes as events forgets none of them. */
  lemma DeliverUnmoved(s: System, a: Action, id: Id)
    requires Enabled(s, a) && a.Deliver? && AtRest(s, id)
    ensures Unmoved(s, Apply(s, a), id, s.watches[id])
  {
    var n, w := Apply(s, a), s.watches[id];
    DeliverCarries(s, n, a.fds, id, w.dirFd);
    if w.fileFd.Some? {
      DeliverCarries(s, n, a.fds, id, w.fileFd.value);
    }
  }

  /** A step that is not about the watch. */
  predicate Bystander(a: Action) {
    !OfFiles(a) && !a.HandleEvent?
  }

  lemma BystanderUnmoved(s: System, a: Action, id: Id)
    requires Conserved(s) && Enabled(s, a) && Bystander(a) && AtRest(s, id) && AtRest(Apply(s, a), id)
    ensures Unmoved(s, Apply(s, a), id, s.watches[id])
  {
    if Locked(a) {
      LockedUnmoved(s, a, id);
    } else if a.DrainPending? {
      DrainUnmoved(s, a, id);
    } else if a.Teardown? {
      UnwatchAllMeans(s, OrderOf(s.watches.Keys));
    } else if a.Deliver? {
      DeliverUnmoved(s, a, id);
    } else {
      QuietUnmoved(s, a, id);
    }
  }

  // ---- What the callback has seen ----

  lemma LockedNoStaler(s: System, a: Action, id: Id)
    requires PhaseOk(s) && Enabled(s, a) && Locked(a) && AtRest(s, id) && (a.Register? ==> a.id != id)
    ensures NoStaler(s, Apply(s, a), id, s.watches[id])
  {
  }

  lemma QuietNoStaler(s: System, a: Action, id: Id)
    requires ClockOk(s) && Enabled(s, a) && Quiet(a) && !OfFiles(a) && AtRest(s, id)
    ensures NoStaler(s, Apply(s, a), id, s.watches[id])
  {
  }

  lemma DrainNoStaler(s: System, a: Action, id: Id)
    requires Enabled(s, a) && (a.DrainPending? || a.Deliver?) && AtRest(s, id)
    ensures NoStaler(s, Apply(s, a), id, s.watches[id])
  {
    UnwatchAllMeans(s, s.pending);
  }

  lemma BystanderNoStaler(s: System, a: Action, id: Id)
    requires Base(s) && ClockOk(s) && Enabled(s, a) && Bystander(a) && AtRest(s, id) && AtRest(Apply(s, a), id)
    ensures NoStaler(s, Apply(s, a), id, s.watches[id])
  {
    if Locked(a) {
      LockedNoStaler(s, a, id);
    } else if a.DrainPending? || a.Deliver? {
      DrainNoStaler(s, a, id);
    } else if a.Teardown? {
      UnwatchAllMeans(s, OrderOf(s.watches.Keys));
    } else {
      QuietNoStaler(s, a, id);
    }
  }

  lemma BystanderFollows(s: System, a: Action, id: Id)
    requires Base(s) && Tracking(s) && Enabled(s, a) && Bystander(a) && InScope(s, id) && AtRest(Apply(s, a), id)
    ensures Followed(Apply(s, a), id, s.watches[id])
  {
    BystanderUnmoved(s, a, id);
    BystanderNoStaler(s, a, id);
    StillFollowed(s, Apply(s, a), id, s.watches[id]);
  }

  // ---- Opening the watch's own file ----

  /** The watch whose file could not be opened: it is not there. */
  lemma OpenSettles(s: System, a: Action)
    requires Conserved(s) && Enabled(s, a) && a.OpenFile? && !LockOn(Apply(s, a), s.lock.id)
    ensures Followed(Apply(s, a), s.lock.id, Apply(s, a).watches[s.lock.id])
  {
    assert WatchOk(s, s.lock.id, s.watches[s.lock.id]);
  }

  /** The watch whose file has been armed on its path: the callback is to run, or was not owed yet. */
  lemma ArmedSettles(s: System)
    requires Conserved(s) && PhaseOk(s) && ClockOk(s) && Enabled(s, ArmFile(true)) && OnPath(s, s.watches[s.lock.id])
    ensures var n := Apply(s, ArmFile(true)); s.lock.id in n.watches && Followed(n, s.lock.id, n.watches[s.lock.id])
  {
    var n := Apply(s, ArmFile(true));
    assert OnPath(n, n.watches[s.lock.id]);
    if s.lock.registering {
      assert !Stale(n, s.lock.id, n.watches[s.lock.id]);
    } else {
      assert FireDue(n, s.lock.id);
    }
  }

  /** The watch whose file could not be armed knows what it has to exactly when it can recover. */
  lemma UnarmedSettles(s: System)
    requires Conserved(s) && Enabled(s, ArmFile(false))
    ensures var n, id := Apply(s, ArmFile(false)), s.lock.id;
            id in n.watches && (Followed(n, id, n.watches[id]) <==> Recoverable(s, id, s.watches[id]))
  {
    var n, id, w := Apply(s, ArmFile(false)), s.lock.id, s.watches[s.lock.id];
    assert WatchOk(s, id, w);
    assert n.kernel.knotes == s.kernel.knotes;
    assert Due(n, w.dirFd, id, Either) <==> Due(s, w.dirFd, id, Either);
  }

  lemma ArmSettles(s: System, a: Action)
    requires Conserved(s) && PhaseOk(s) && ClockOk(s) && Enabled(s, a) && a.ArmFile?
    requires s.lock.id !in Apply(s, a).history.adrift
    ensures Followed(Apply(s, a), s.lock.id, Apply(s, a).watches[s.lock.id])
  {
    if a.ok {
      ArmedSettles(s);
    } else {
      UnarmedSettles(s);
    }
  }

  // ---- Events ----

  /** Another watch's event. */
  lemma OthersEvent(s: System, n: System, id: Id, w: Watch)
    requires s.pc.Handling? && s.pc.batch != [] && n.pc == Handling(s.pc.batch[1..]) && s.pc.batch[0].id != id
    requires Followed(s, id, w) && SameDescriptors(s, n, w)
    requires n.kernel.files == s.kernel.files && n.history == s.history && s.dirty <= n.dirty
    ensures Followed(n, id, w)
  {
  }

  /** An event that does not make the worker look for the file again. */
  lemma OwnEvent(s: System, n: System, id: Id, w: Watch)
    requires s.pc.Handling? && s.pc.batch != [] && n.pc == Handling(s.pc.batch[1..]) && n.kernel == s.kernel
    requires Followed(s, id, w) && n.history == s.history && s.dirty <= n.dirty
    requires w.fileFd.None? ==> s.pc.batch[0].fd != w.dirFd
    requires w.fileFd == Some(s.pc.batch[0].fd) ==>
               !s.pc.batch[0].notes.gone && (s.pc.batch[0].notes.touched ==> id in n.dirty)
    ensures Followed(n, id, w)
  {
  }

  lemma OthersHandled(s: System, a: Action, id: Id)
    requires HoldersOpen(s) && Enabled(s, a) && a.HandleEvent? && s.pc.batch[0].id != id
    requires InScope(s, id) && Followed(s, id, s.watches[id])
    ensures Followed(Apply(s, a), id, s.watches[id])
  {
    var n, e := Apply(s, a), s.pc.batch[0];
    if n.kernel == s.kernel {
      OwnDescriptors(s, n, id, {});
    } else {
      assert WatchOk(s, e.id, s.watches[e.id]);
      OwnDescriptors(s, n, id, {s.watches[e.id].fileFd.value});
    }
    OthersEvent(s, n, id, s.watches[id]);
  }

  lemma OwnHandled(s: System, a: Action)
    requires Enabled(s, a) && a.HandleEvent? && InScope(s, s.pc.batch[0].id) && !LockOn(Apply(s, a), s.pc.batch[0].id)
    requires Followed(s, s.pc.batch[0].id, s.watches[s.pc.batch[0].id])
    ensures Followed(Apply(s, a), s.pc.batch[0].id, s.watches[s.pc.batch[0].id])
  {
    var id := s.pc.batch[0].id;
    OwnEvent(s, Apply(s, a), id, s.watches[id]);
  }

  lemma HandleFollows(s: System, a: Action, id: Id)
    requires HoldersOpen(s) && Enabled(s, a) && a.HandleEvent?
    requires InScope(s, id) && Followed(s, id, s.watches[id]) && !LockOn(Apply(s, a), id)
    ensures Followed(Apply(s, a), id, s.watches[id])
  {
    if s.pc.batch[0].id == id {
      OwnHandled(s, a);
    } else {
      OthersHandled(s, a, id);
    }
  }

  // ---- Every step and every run ----

  lemma DrainScope(s: System, a: Action, id: Id)
    requires Enabled(s, a) && (a.DrainPending? || a.Teardown?) && AtRest(Apply(s, a), id)
    ensures AtRest(s, id) && Apply(s, a).watches[id] == s.watches[id] && Apply(s, a).history.adrift == s.history.adrift
  {
    UnwatchAllMeans(s, if a.DrainPending? then s.pending else OrderOf(s.watches.Keys));
  }

  lemma OpenScope(s: System, a: Action, id: Id)
    requires Enabled(s, a) && (a.OpenFile? || a.ArmFile?) && AtRest(Apply(s, a), id) && !LockOn(s, id)
    ensures AtRest(s, id) && Apply(s, a).watches[id] == s.watches[id]
    ensures id in Apply(s, a).history.adrift <==> id in s.history.adrift
  {
  }

  lemma RestScope(s: System, a: Action, id: Id)
    requires Enabled(s, a) && (Quiet(a) || a.Deliver? || a.BeginWatch? || a.Register?) && AtRest(Apply(s, a), id)
    ensures AtRest(s, id) && Apply(s, a).watches[id] == s.watches[id] && Apply(s, a).history.adrift == s.history.adrift
  {
  }

  lemma HandleScope(s: System, a: Action, id: Id)
    requires Enabled(s, a) && a.HandleEvent? && AtRest(Apply(s, a), id)
    ensures AtRest(s, id) && Apply(s, a).watches[id] == s.watches[id] && Apply(s, a).history.adrift == s.history.adrift
  {
  }

  /** A step that opens or arms the watch's own file. */
  predicate Opens(s: System, a: Action, id: Id) {
    (a.OpenFile? || a.ArmFile?) && LockOn(s, id)
  }

  /** Only such a step puts a watch at rest, changes it at rest, or changes whether it is adrift. */
  lemma StepScope(s: System, a: Action, id: Id)
    requires Enabled(s, a) && AtRest(Apply(s, a), id) && !Opens(s, a, id)
    ensures AtRest(s, id) && Apply(s, a).watches[id] == s.watches[id]
    ensures id in Apply(s, a).history.adrift <==> id in s.history.adrift
  {
    if a.OpenFile? || a.ArmFile? {
      OpenScope(s, a, id);
    } else if a.DrainPending? || a.Teardown? {
      DrainScope(s, a, id);
    } else if a.HandleEvent? {
      HandleScope(s, a, id);
    } else {
      RestScope(s, a, id);
    }
  }

  lemma StepFollowed(s: System, a: Action, id: Id)
    requires Base(s) && Tracking(s) && Enabled(s, a) && InScope(Apply(s, a), id)
    ensures Followed(Apply(s, a), id, Apply(s, a).watches[id])
  {
    if Opens(s, a, id) {
      if a.OpenFile? {
        OpenSettles(s, a);
      } else {
        ArmSettles(s, a);
      }
    } else {
      StepScope(s, a, id);
      if OfFiles(a) {
        FilesFollow(s, a, id);
      } else if a.HandleEvent? {
        HandleFollows(s, a, id);
      } else {
        BystanderFollows(s, a, id);
      }
    }
  }

  lemma DrainClock(s: System, a: Action)
    requires ClockOk(s) && Enabled(s, a) && (a.DrainPending? || a.Teardown?)
    ensures ClockOk(Apply(s, a))
  {
    UnwatchAllMeans(s, if a.DrainPending? then s.pending else OrderOf(s.watches.Keys));
  }

  lemma FilesClock(s: System, a: Action)
    requires ClockOk(s) && Enabled(s, a) && OfFiles(a)
    ensures ClockOk(Apply(s, a))
  {
  }

  lemma RestClock(s: System, a: Action)
    requires Enabled(s, a) && Bystander(a) && !Locked(a) && !a.DrainPending? && !a.Teardown?
    ensures Apply(s, a).history.changed == s.history.changed && Apply(s, a).history.clock == s.history.clock
  {
  }

  lemma HandleClock(s: System, a: Action)
    requires Enabled(s, a) && a.HandleEvent?
    ensures Apply(s, a).history == s.history
  {
  }

  lemma StepClock(s: System, a: Action)
    requires ClockOk(s) && Enabled(s, a)
    ensures ClockOk(Apply(s, a))
  {
    if OfFiles(a) {
      FilesClock(s, a);
    } else if a.DrainPending? || a.Teardown? {
      DrainClock(s, a);
    } else if Locked(a) {
      LockedSame(s, a);
    } else if a.HandleEvent? {
      HandleClock(s, a);
    } else {
      RestClock(s, a);
    }
  }

  lemma StepTracking(s: System, a: Action)
    requires Base(s) && Tracking(s) && Enabled(s, a)
    ensures Tracking(Apply(s, a))
  {
    StepClock(s, a);
    var n := Apply(s, a);
    forall id | InScope(n, id) ensures Followed(n, id, n.watches[id]) {
      StepFollowed(s, a, id);
    }
  }
}
