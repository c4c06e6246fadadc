/**
 How a watch of util::KqueueFileWatcher that was armed off its path, or not armed at all, stays out of step with
 it until its file is opened again.
 */
module KqStraying {
  import opened Collections
  import opened KqSystem
  import opened KqInvariants
  import opened KqTracking

  /** The descriptor is off the path, or there is none though there is a file; unless the worker is about to learn
      of it. */
  ghost predicate Strayed(s: System, id: Id, w: Watch) {
    && (w.fileFd.Some? ==> !OnPath(s, w) || Due(s, w.fileFd.value, id, Gone))
    && (w.fileFd.None? ==> w.path in s.kernel.files || Due(s, w.dirFd, id, Either))
  }

  /** New files get inodes that no file and no descriptor has had. */
  ghost predicate InodesOk(s: System) {
    && (forall path :: path in s.kernel.files ==> s.kernel.files[path] < s.kernel.nextInode)
    && (forall fd :: fd in s.kernel.open && s.kernel.open[fd].node.FileNode? ==>
          s.kernel.open[fd].node.inode < s.kernel.nextInode)
  }

  ghost predicate Straying(s: System) {
    && InodesOk(s)
    && forall id :: AtRest(s, id) && id in s.history.adrift ==> Strayed(s, id, s.watches[id])
  }

  // ---- Inodes ----

  lemma FilesInodes(s: System, a: Action)
    requires InodesOk(s) && Enabled(s, a) && OfFiles(a)
    ensures InodesOk(Apply(s, a))
  {
    FilesLouder(s, a);
    match a {
      case Delete(path) => UnlinkLouder(s.kernel, path);
      case Rename(path, target) => RenameInodes(s, path, target);
      case _ =>
    }
  }

  lemma RenameInodes(s: System, path: Path, target: Path)
    requires InodesOk(s) && path in s.kernel.files && target != path
    ensures InodesOk(RenameFile(s, path, target))
  {
    RenameLouder(s, path, target);
    RenameFiles(s, path, target);
  }

  lemma {:induction false} UnwatchAllOpen(s: System, ids: seq<Id>)
    ensures var k := UnwatchAll(s, ids).kernel;
            && k.nextInode == s.kernel.nextInode
            && forall fd :: fd in k.open ==> fd in s.kernel.open && k.open[fd] == s.kernel.open[fd]
    decreases |ids|
  {
    if ids != [] {
      UnwatchAllOpen(Unwatch(s, ids[0]), ids[1..]);
    }
  }

  lemma UnwatchInodes(s: System, a: Action)
    requires InodesOk(s) && Enabled(s, a) && (a.DrainPending? || a.Teardown?)
    ensures InodesOk(Apply(s, a))
  {
    var ids := if a.DrainPending? then s.pending else OrderOf(s.watches.Keys);
    UnwatchAllMeans(s, ids);
    UnwatchAllOpen(s, ids);
  }

  lemma LockedInodes(s: System, a: Action)
    requires InodesOk(s) && Enabled(s, a) && Locked(a)
    ensures InodesOk(Apply(s, a))
  {
  }

  lemma RestInodes(s: System, a: Action)
    requires InodesOk(s) && Enabled(s, a) && (a.HandleEvent? || a.Deliver?)
    ensures InodesOk(Apply(s, a))
  {
  }

  lemma StepInodes(s: System, a: Action)
    requires InodesOk(s) && Enabled(s, a)
    ensures InodesOk(Apply(s, a))
  {
    if OfFiles(a) {
      FilesInodes(s, a);
    } else if a.DrainPending? || a.Teardown? {
      UnwatchInodes(s, a);
    } else if Locked(a) {
      LockedInodes(s, a);
    } else if a.HandleEvent? || a.Deliver? {
      RestInodes(s, a);
    } else {
      QuietMeans(s, a);
    }
  }

  // ---- Steps that are not about the watch ----

  lemma StillStrayed(s: System, n: System, id: Id, w: Watch)
    requires Strayed(s, id, w) && Unmoved(s, n, id, w)
    ensures Strayed(n, id, w)
  {
  }

  // ---- The file system ----

  /** A change that could put the watch in step is announced to it. */
  ghost predicate Admitted(s: System, n: System, id: Id, w: Watch) {
    && (w.path in s.kernel.files && w.path !in n.kernel.files ==> Raised(n, w.dirFd, id, Either))
    && (w.fileFd.Some? && !OnPath(s, w) && OnPath(n, w) ==> Raised(n, w.fileFd.value, id, Gone))
  }

  lemma AdmittedStrays(s: System, n: System, id: Id, w: Watch)
    requires Strayed(s, id, w) && Admitted(s, n, id, w) && Louder(s.kernel, n.kernel) && n.pc == s.pc
    ensures Strayed(n, id, w)
  {
    SameDues(s, n, id, w.dirFd);
    if w.fileFd.Some? {
      SameDues(s, n, id, w.fileFd.value);
    }
  }

  lemma CreateAdmitted(s: System, path: Path, id: Id, w: Watch)
    requires path !in s.kernel.files && InodesOk(s)
    ensures Admitted(s, CreateFile(s, path), id, w)
  {
  }

  lemma DeleteAdmitted(s: System, path: Path, id: Id, w: Watch)
    requires path in s.kernel.files && WatchOk(s, id, w) && s.kernel.open[w.dirFd].node == DirNode(w.path.dir)
    ensures Admitted(s, s.(kernel := Unlink(s.kernel, path)), id, w)
  {
    UnlinkLouder(s.kernel, path);
  }

  /** The directory that a file leaves hears of it. */
  lemma RenameLeaves(s: System, path: Path, target: Path, fd: Fd)
    requires path in s.kernel.files && target != path && fd in s.kernel.knotes && fd in s.kernel.open
    requires s.kernel.open[fd].node == DirNode(path.dir)
    ensures var l := RenameFile(s, path, target).kernel; fd in l.knotes && l.knotes[fd].notes.touched
  {
  }

  lemma RenameAdmitted(s: System, path: Path, target: Path, id: Id, w: Watch)
    requires path in s.kernel.files && target != path && WatchOk(s, id, w) && !LockOn(s, id)
    requires s.kernel.open[w.dirFd].node == DirNode(w.path.dir)
    ensures Admitted(s, RenameFile(s, path, target), id, w)
  {
    RenameFiles(s, path, target);
    RenameLouder(s, path, target);
    if path == w.path {
      RenameLeaves(s, path, target, w.dirFd);
    }
    if w.fileFd.Some? {
      RenameTold(s, path, target, w.fileFd.value);
    }
  }

  lemma FilesStray(s: System, a: Action, id: Id)
    requires Conserved(s) && InodesOk(s) && Enabled(s, a) && OfFiles(a) && AtRest(s, id)
    requires Strayed(s, id, s.watches[id])
    ensures Strayed(Apply(s, a), id, s.watches[id])
  {
    var w := s.watches[id];
    assert WatchOk(s, id, w) && Owned(s, w.dirFd, s.kernel.open[w.dirFd]);
    match a {
      case Create(path) => CreateAdmitted(s, path, id, w);
      case Write(_) =>
      case Delete(path) => DeleteAdmitted(s, path, id, w);
      case Rename(path, target) => RenameAdmitted(s, path, target, id, w);
      case Notify(_, _) =>
    }
    FilesLouder(s, a);
    AdmittedStrays(s, Apply(s, a), id, w);
  }

  // ---- Events ----

  /** The event is another's, or says nothing that makes the worker look for the file. */
  lemma EventStrays(s: System, n: System, id: Id, w: Watch)
    requires s.pc.Handling? && s.pc.batch != [] && n.pc == Handling(s.pc.batch[1..])
    requires Strayed(s, id, w) && SameDescriptors(s, n, w) && n.kernel.files == s.kernel.files
    requires var e := s.pc.batch[0];
             e.id == id ==> (w.fileFd.None? ==> e.fd != w.dirFd) && (w.fileFd == Some(e.fd) ==> !e.notes.gone)
    ensures Strayed(n, id, w)
  {
  }

  lemma HandleStrays(s: System, a: Action, id: Id)
    requires HoldersOpen(s) && Enabled(s, a) && a.HandleEvent? && AtRest(s, id) && AtRest(Apply(s, a), id)
    requires Strayed(s, id, s.watches[id])
    ensures Strayed(Apply(s, a), id, s.watches[id])
  {
    var n, e := Apply(s, a), s.pc.batch[0];
    if n.kernel == s.kernel {
      OwnDescriptors(s, n, id, {});
    } else {
      assert WatchOk(s, e.id, s.watches[e.id]);
      OwnDescriptors(s, n, id, {s.watches[e.id].fileFd.value});
    }
    EventStrays(s, n, id, s.watches[id]);
  }

  // ---- Opening the watch's own file ----

  /** A watch is left adrift only off its path, or with its file there and no descriptor. */
  lemma OpenStrays(s: System, a: Action)
    requires Conserved(s) && Enabled(s, a) && (a.OpenFile? || a.ArmFile?)
    requires AtRest(Apply(s, a), s.lock.id) && s.lock.id in Apply(s, a).history.adrift
    ensures Strayed(Apply(s, a), s.lock.id, Apply(s, a).watches[s.lock.id])
  {
    assert WatchOk(s, s.lock.id, s.watches[s.lock.id]);
  }

  // ---- Every step ----

  lemma StepStrayed(s: System, a: Action, id: Id)
    requires Base(s) && Straying(s) && Enabled(s, a) && AtRest(Apply(s, a), id) && id in Apply(s, a).history.adrift
    ensures Strayed(Apply(s, a), id, Apply(s, a).watches[id])
  {
    if Opens(s, a, id) {
      OpenStrays(s, a);
    } else {
      StepScope(s, a, id);
      if OfFiles(a) {
        FilesStray(s, a, id);
      } else if a.HandleEvent? {
        HandleStrays(s, a, id);
      } else {
        BystanderUnmoved(s, a, id);
        StillStrayed(s, Apply(s, a), id, s.watches[id]);
      }
    }
  }

  lemma StepStraying(s: System, a: Action)
    requires Base(s) && Straying(s) && Enabled(s, a)
    ensures Straying(Apply(s, a))
  {
    StepInodes(s, a);
    var n := Apply(s, a);
    forall id | AtRest(n, id) && id in n.history.adrift ensures Strayed(n, id, n.watches[id]) {
      StepStrayed(s, a, id);
    }
  }
}
