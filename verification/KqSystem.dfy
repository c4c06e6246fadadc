/**
 util::KqueueFileWatcher as a concurrent protocol over a small kernel.

 The kernel keeps the files of the system, the watcher's open descriptors, and for every armed descriptor the
 notes that have been raised and not yet delivered.  The file system may change at any time, also while a
 thread holds the watcher's mutex; in particular between opening a file and arming its descriptor.
 */
module KqSystem {
  import opened Collections

  type Id = nat
  type Fd = nat
  type Inode = nat
  datatype Dir = Dir(name: string)
  datatype Path = Path(dir: Dir, name: string)

  // ---- The kernel ----

  datatype Node = FileNode(inode: Inode) | DirNode(dir: Dir)

  /** Who is to close a descriptor. */
  datatype Owner = CallOf(id: Id) | DirOf(id: Id) | FileOf(id: Id)

  datatype Descriptor = Descriptor(node: Node, owner: Owner)

  /** NOTE_DELETE, NOTE_RENAME or NOTE_REVOKE; and any of the other notes. */
  datatype Notes = Notes(gone: bool, touched: bool)
  {
    predicate Any() {
      gone || touched
    }
  }

  const QUIET := Notes(false, false)

  /** An armed descriptor, with the watch id it reports. */
  datatype Knote = Knote(id: Id, notes: Notes)

  datatype Kernel = Kernel(files: map<Path, Inode>, nextInode: Inode, open: map<Fd, Descriptor>, knotes: map<Fd, Knote>)

  datatype Event = Event(fd: Fd, id: Id, notes: Notes)

  function Both(a: Notes, b: Notes): Notes {
    Notes(a.gone || b.gone, a.touched || b.touched)
  }

  /** Raises notes on every armed descriptor of a node. */
  function Raise(k: Kernel, node: Node, notes: Notes): Kernel {
    k.(knotes := map fd | fd in k.knotes ::
         if fd in k.open && k.open[fd].node == node
         then Knote(k.knotes[fd].id, Both(k.knotes[fd].notes, notes)) else k.knotes[fd])
  }

  /** Raises notes on one armed descriptor, for reasons of the system's own. */
  function RaiseOn(k: Kernel, fd: Fd, notes: Notes): Kernel
    requires fd in k.knotes
  {
    k.(knotes := k.knotes[fd := Knote(k.knotes[fd].id, Both(k.knotes[fd].notes, notes))])
  }

  function Close(k: Kernel, fd: Fd): Kernel {
    k.(open := k.open - {fd}, knotes := k.knotes - {fd})
  }

  // ---- The watcher ----

  /** `fileFd` is None where the source has -1. */
  datatype Watch = Watch(path: Path, fileFd: Option<Fd>, dirFd: Fd)

  /** What the holder of the mutex is in the middle of. */
  datatype Lock =
    | Free
    | Opening(id: Id, registering: bool)   // TryOpenAndArmFile, before open
    | Arming(id: Id, registering: bool)    // between open and kevent

  datatype Pc =
    | Head                                 // about to read the shutdown flag
    | Drain                                // about to unwatch what is pending
    | Wait                                 // in kevent
    | Handling(batch: seq<Event>)          // events still to be handled
    | SeeDeadline
    | Firing(left: set<Id>, done: set<Id>)
    | Exited

  datatype Call = Call(path: Path, dirFd: Fd)

  datatype History = History(
    clock: nat,                            // changes of any file so far
    changed: map<Path, nat>,               // when the file at a path last changed
    seen: map<Id, nat>,                    // when a watch was registered, or its callback last started
    adrift: set<Id>,                       // watches whose last attempt to open their file left them off its path
    drained: set<Id>)                      // ids that the worker has unwatched

  datatype System = System(
    kernel: Kernel,
    watches: map<Id, Watch>,
    pending: seq<Id>,
    lock: Lock,
    pc: Pc,
    dirty: set<Id>,
    deadline: Option<nat>,
    nextId: Id,
    calls: map<Id, Call>,                  // WatchFile calls that have opened their directory
    shutdown: bool,
    now: nat,
    history: History)

  const COALESCE_WINDOW: nat := 50
  const BATCH: nat := 16

  const INITIAL := System(Kernel(map[], 0, map[], map[]), map[], [], Free, Head, {}, None, 1, map[], false, 0,
                          History(0, map[], map[], {}, {}))

  datatype Action =
    // the file system
    | Create(path: Path)
    | Write(path: Path)
    | Delete(path: Path)
    | Rename(path: Path, target: Path)
    | Notify(fd: Fd, notes: Notes)
    // the clock
    | Tick
    // clients
    | BeginWatch(path: Path, fd: Fd)
    | Register(id: Id, armed: bool)
    | CloseWatch(id: Id)
    | Destroy
    // whoever holds the mutex
    | OpenFile(fd: Fd)
    | ArmFile(ok: bool)
    // the worker
    | ReadFlag(seen: bool)
    | DrainPending
    | KeventFails
    | Deliver(fds: seq<Fd>)
    | HandleEvent
    | EndBatch
    | CheckDeadline
    | RunCallback(id: Id)
    | FinishFiring
    | Teardown

  predicate Distinct(fds: seq<Fd>) {
    forall i, j :: 0 <= i < j < |fds| ==> fds[i] != fds[j]
  }

  predicate Enabled(s: System, a: Action) {
    var k := s.kernel;
    match a
    case Create(path) => path !in k.files
    case Write(path) => path in k.files
    case Delete(path) => path in k.files
    case Rename(path, target) => path in k.files && target != path
    case Notify(fd, _) => fd in k.knotes
    case Tick => true
    case BeginWatch(_, fd) => fd !in k.open && !s.shutdown
    case Register(id, _) => s.lock.Free? && id in s.calls
    case CloseWatch(id) => s.lock.Free? && id in s.history.seen && !s.shutdown
    case Destroy => s.calls == map[] && !s.shutdown && !(!s.lock.Free? && s.lock.registering)
    case OpenFile(fd) => s.lock.Opening? && s.lock.id in s.watches && fd !in k.open
    case ArmFile(_) => s.lock.Arming? && s.lock.id in s.watches && s.watches[s.lock.id].fileFd.Some?
                       && s.watches[s.lock.id].fileFd.value in k.open
    case ReadFlag(seen) => s.pc.Head? && (seen ==> s.shutdown)
    case DrainPending => s.lock.Free? && s.pc.Drain?
    case KeventFails => s.pc.Wait?
    case Deliver(fds) => s.pc.Wait? && |fds| <= BATCH && Distinct(fds)
                         && forall fd :: fd in fds ==> fd in k.knotes && k.knotes[fd].notes.Any()
    case HandleEvent => s.lock.Free? && s.pc.Handling? && s.pc.batch != []
    case EndBatch => s.lock.Free? && s.pc == Handling([])
    case CheckDeadline => s.lock.Free? && s.pc.SeeDeadline?
    case RunCallback(id) => s.pc.Firing? && id in s.pc.left
    case FinishFiring => s.pc.Firing? && s.pc.left == {}
    case Teardown => s.pc.Exited? && s.shutdown
  }

  // ---- The file system ----

  /** The file at `path` has just changed. */
  function Stamp(h: History, path: Path): History {
    h.(clock := h.clock + 1, changed := h.changed[path := h.clock + 1])
  }

  function CreateFile(s: System, path: Path): System {
    var k := s.kernel.(files := s.kernel.files[path := s.kernel.nextInode], nextInode := s.kernel.nextInode + 1);
    s.(kernel := Raise(k, DirNode(path.dir), Notes(false, true)), history := Stamp(s.history, path))
  }

  function WriteFile(s: System, path: Path): System
    requires path in s.kernel.files
  {
    s.(kernel := Raise(s.kernel, FileNode(s.kernel.files[path]), Notes(false, true)), history := Stamp(s.history, path))
  }

  /** Takes the file off its path: its own descriptors and those of the directory are told. */
  function Unlink(k: Kernel, path: Path): Kernel
    requires path in k.files
  {
    Raise(Raise(k.(files := k.files - {path}), FileNode(k.files[path]), Notes(true, false)),
          DirNode(path.dir), Notes(false, true))
  }

  /** A file already at the target is replaced. */
  function RenameFile(s: System, path: Path, target: Path): System
    requires path in s.kernel.files && target != path
  {
    var inode := s.kernel.files[path];
    var cleared := if target in s.kernel.files then Unlink(s.kernel, target) else s.kernel;
    var moved := Unlink(cleared, path);
    s.(kernel := Raise(moved.(files := moved.files[target := inode]), DirNode(target.dir), Notes(false, true)),
       history := Stamp(s.history, target))
  }

  // ---- What the worker has still to learn ----

  datatype Want = Gone | Touched | Either

  predicate Has(n: Notes, want: Want) {
    match want
    case Gone => n.gone
    case Touched => n.touched
    case Either => n.Any()
  }

  function Unhandled(s: System): seq<Event> {
    if s.pc.Handling? then s.pc.batch else []
  }

  predicate Reports(e: Event, fd: Fd, id: Id, want: Want) {
    e.fd == fd && e.id == id && Has(e.notes, want)
  }

  ghost predicate Raised(s: System, fd: Fd, id: Id, want: Want) {
    fd in s.kernel.knotes && s.kernel.knotes[fd].id == id && Has(s.kernel.knotes[fd].notes, want)
  }

  /** The worker is going to learn of this. */
  ghost predicate Due(s: System, fd: Fd, id: Id, want: Want) {
    Raised(s, fd, id, want) || exists e :: e in Unhandled(s) && Reports(e, fd, id, want)
  }

  // ---- Opening and arming ----

  function MarkDirty(s: System, id: Id): System {
    s.(dirty := s.dirty + {id}, deadline := if s.deadline.None? then Some(s.now + COALESCE_WINDOW) else s.deadline)
  }

  /** The mutex is released after a successful TryOpenAndArmFile. */
  function Released(s: System, id: Id, registering: bool): System {
    if registering then s.(lock := Free, history := s.history.(seen := s.history.seen[id := s.history.clock]))
    else MarkDirty(s.(lock := Free), id)
  }

  /** The mutex is released after it failed. */
  function NotOpened(s: System, id: Id, registering: bool): System {
    if registering then s.(lock := Free, history := s.history.(seen := s.history.seen[id := s.history.clock]))
    else s.(lock := Free)
  }

  function Opened(s: System, fd: Fd): System
    requires s.lock.Opening? && s.lock.id in s.watches
  {
    var Opening(id, registering) := s.lock;
    var w := s.watches[id];
    if w.path !in s.kernel.files then
      NotOpened(s.(history := s.history.(adrift := s.history.adrift - {id})), id, registering)
    else
      var d := Descriptor(FileNode(s.kernel.files[w.path]), FileOf(id));
      s.(kernel := s.kernel.(open := s.kernel.open[fd := d]),
         watches := s.watches[id := w.(fileFd := Some(fd))],
         lock := Arming(id, registering))
  }

  /** The descriptor is on the file that the path names. */
  predicate OnPath(s: System, w: Watch) {
    && w.fileFd.Some? && w.fileFd.value in s.kernel.open
    && w.path in s.kernel.files
    && s.kernel.open[w.fileFd.value].node == FileNode(s.kernel.files[w.path])
  }

  /** A watch without a descriptor will look for its file again, or there is none. */
  ghost predicate Recoverable(s: System, id: Id, w: Watch) {
    w.path !in s.kernel.files || Due(s, w.dirFd, id, Either)
  }

  ghost function Armed(s: System, ok: bool): System
    requires s.lock.Arming? && s.lock.id in s.watches && s.watches[s.lock.id].fileFd.Some?
  {
    var Arming(id, registering) := s.lock;
    var w := s.watches[id];
    var fd := w.fileFd.value;
    if ok then
      var adrift := if OnPath(s, w) then s.history.adrift - {id} else s.history.adrift + {id};
      Released(s.(kernel := s.kernel.(knotes := s.kernel.knotes[fd := Knote(id, QUIET)]),
                  history := s.history.(adrift := adrift)), id, registering)
    else
      var adrift := if Recoverable(s, id, w) then s.history.adrift - {id} else s.history.adrift + {id};
      NotOpened(s.(kernel := Close(s.kernel, fd), watches := s.watches[id := w.(fileFd := None)],
                   history := s.history.(adrift := adrift)), id, registering)
  }

  // ---- Closing ----

  function DisarmFile(k: Kernel, w: Watch): Kernel {
    if w.fileFd.None? then k else Close(k, w.fileFd.value)
  }

  function DisarmWatch(k: Kernel, w: Watch): Kernel {
    Close(DisarmFile(k, w), w.dirFd)
  }

  function Unwatch(s: System, id: Id): System {
    if id !in s.watches then s
    else s.(kernel := DisarmWatch(s.kernel, s.watches[id]), watches := s.watches - {id})
  }

  function UnwatchAll(s: System, ids: seq<Id>): System
    decreases ids
  {
    if ids == [] then s else UnwatchAll(Unwatch(s, ids[0]), ids[1..])
  }

  // ---- Events ----

  function Delivered(k: Kernel, fds: seq<Fd>): Kernel {
    k.(knotes := map fd | fd in k.knotes :: if fd in fds then k.knotes[fd].(notes := QUIET) else k.knotes[fd])
  }

  function Batch(k: Kernel, fds: seq<Fd>): seq<Event>
    requires forall fd :: fd in fds ==> fd in k.knotes
  {
    seq(|fds|, i requires 0 <= i < |fds| =>
      assert fds[i] in fds; Event(fds[i], k.knotes[fds[i]].id, k.knotes[fds[i]].notes))
  }

  /** HandleFileEvent and HandleDirEvent, up to the attempt to open the file. */
  function Handled(s: System, e: Event): System {
    if e.id !in s.watches then s
    else
      var w := s.watches[e.id];
      if w.fileFd == Some(e.fd) then
        if e.notes.gone then
          s.(kernel := DisarmFile(s.kernel, w), watches := s.watches[e.id := w.(fileFd := None)],
             lock := Opening(e.id, false))
        else if e.notes.touched then MarkDirty(s, e.id)
        else s
      else if w.dirFd == e.fd && w.fileFd.None? then s.(lock := Opening(e.id, false))
      else s
  }

  // ---- Steps ----

  ghost function Apply(s: System, a: Action): System
    requires Enabled(s, a)
  {
    match a
    case Create(path) => CreateFile(s, path)
    case Write(path) => WriteFile(s, path)
    case Delete(path) => s.(kernel := Unlink(s.kernel, path))
    case Rename(path, target) => RenameFile(s, path, target)
    case Notify(fd, notes) => s.(kernel := RaiseOn(s.kernel, fd, notes))
    case Tick => s.(now := s.now + 1)
    case BeginWatch(path, fd) =>
      s.(kernel := s.kernel.(open := s.kernel.open[fd := Descriptor(DirNode(path.dir), CallOf(s.nextId))]),
         calls := s.calls[s.nextId := Call(path, fd)], nextId := s.nextId + 1)
    case Register(id, armed) =>
      var Call(path, fd) := s.calls[id];
      if armed then
        s.(kernel := s.kernel.(open := s.kernel.open[fd := Descriptor(DirNode(path.dir), DirOf(id))],
                               knotes := s.kernel.knotes[fd := Knote(id, QUIET)]),
           watches := s.watches[id := Watch(path, None, fd)],
           calls := s.calls - {id},
           lock := Opening(id, true))
      else s.(kernel := Close(s.kernel, fd), calls := s.calls - {id})
    case CloseWatch(id) => s.(pending := s.pending + [id])
    case Destroy => s.(shutdown := true)
    case OpenFile(fd) => Opened(s, fd)
    case ArmFile(ok) => Armed(s, ok)
    case ReadFlag(seen) => s.(pc := if seen then Exited else Drain)
    case DrainPending =>
      UnwatchAll(s, s.pending).(pending := [], pc := Wait,
                                history := s.history.(drained := s.history.drained + ToSet(s.pending)))
    case KeventFails => s.(pc := Head)
    case Deliver(fds) => s.(kernel := Delivered(s.kernel, fds), pc := Handling(Batch(s.kernel, fds)))
    case HandleEvent => Handled(s.(pc := Handling(s.pc.batch[1..])), s.pc.batch[0])
    case EndBatch => s.(pc := SeeDeadline)
    case CheckDeadline =>
      if s.deadline.Some? && s.now >= s.deadline.value
      then s.(pc := Firing(s.dirty * s.watches.Keys, {})) else s.(pc := Head)
    case RunCallback(id) =>
      s.(pc := Firing(s.pc.left - {id}, s.pc.done + {id}),
         history := s.history.(seen := s.history.seen[id := s.history.clock]))
    case FinishFiring => s.(pc := Head, dirty := {}, deadline := None)
    case Teardown => UnwatchAll(s, OrderOf(s.watches.Keys)).(pc := Exited)
  }

  /** The watches in some order. */
  ghost function OrderOf(ids: set<Id>): (order: seq<Id>)
    ensures ToSet(order) == ids
    decreases ids
  {
    if ids == {} then [] else
    var id :| id in ids;
    var rest := OrderOf(ids - {id});
    assert forall i :: i in [id] + rest <==> i == id || i in ToSet(rest);
    [id] + rest
  }

  // ---- Runs ----

  ghost predicate IsRun(s: System, actions: seq<Action>)
    decreases |actions|
  {
    actions == [] || (Enabled(s, actions[0]) && IsRun(Apply(s, actions[0]), actions[1..]))
  }

  ghost function After(s: System, actions: seq<Action>): System
    requires IsRun(s, actions)
    decreases |actions|
  {
    if actions == [] then s else After(Apply(s, actions[0]), actions[1..])
  }
}
