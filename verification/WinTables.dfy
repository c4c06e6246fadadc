/**
 The tables of util::WinFileWatcher: what its mutex guards, and what each critical section does to it.

 A directory watcher is named by a handle (`Ref`) that is never used twice; the tables of the directory
 watchers are kept in one map from handle to table.
 */
module WinTables {
  import opened Collections

  type Id = nat
  type Ref = nat
  datatype DirKey = DirKey(name: string)
  datatype FileKey = FileKey(name: string)
  datatype Path = Path(name: string)

  datatype Entry = Entry(id: Id, path: Path)
  datatype Location = Location(dir: DirKey, file: FileKey)

  /** WinDirWatcher::m_watches: never an empty bucket. */
  type Table = map<FileKey, seq<Entry>>

  /** What a completed read tells: the names that changed, or that too many did. */
  datatype Report = Names(names: seq<FileKey>) | Overflow

  datatype Shared = Shared(dirs: map<DirKey, Ref>, tables: map<Ref, Table>, locations: map<Id, Location>,
                           pending: seq<Id>, draining: set<Ref>, nextRef: Ref)

  const NOTHING := Shared(map[], map[], map[], [], {}, 0)

  // ---- One directory's table ----

  function Bucket(t: Table, f: FileKey): seq<Entry> {
    if f in t then t[f] else []
  }

  function AddEntry(t: Table, f: FileKey, e: Entry): Table {
    t[f := Bucket(t, f) + [e]]
  }

  function Without(entries: seq<Entry>, id: Id): seq<Entry> {
    if entries == [] then []
    else (if entries[0].id == id then [] else [entries[0]]) + Without(entries[1..], id)
  }

  /** Drops the id from one bucket, and the bucket if it becomes empty. */
  function RemoveEntry(t: Table, f: FileKey, id: Id): Table {
    if f !in t then t
    else if Without(t[f], id) == [] then t - {f}
    else t[f := Without(t[f], id)]
  }

  predicate Holds(t: Table, f: FileKey, e: Entry) {
    f in t && e in t[f]
  }

  /** The ids that a report touches. */
  function Touched(t: Table, report: Report): set<Id> {
    set f, e | f in t && e in t[f] && (report.Overflow? || f in report.names) :: e.id
  }

  /** The entry with this id, in whatever bucket. */
  ghost function FindEntry(t: Table, id: Id): Option<Entry> {
    if f, e :| Holds(t, f, e) && e.id == id then Some(e) else None
  }

  // ---- Critical sections ----

  ghost function Active(s: Shared): set<Ref> {
    s.dirs.Values
  }

  /** WatchFile, when the directory is watched already. */
  function JoinDir(s: Shared, id: Id, at: Location, path: Path): Shared
    requires at.dir in s.dirs && s.dirs[at.dir] in s.tables
  {
    var r := s.dirs[at.dir];
    s.(tables := s.tables[r := AddEntry(s.tables[r], at.file, Entry(id, path))],
       locations := s.locations[id := at])
  }

  /** WatchFile, when the directory is opened and its first read issued. */
  function OpenDir(s: Shared, id: Id, at: Location, path: Path): Shared {
    s.(dirs := s.dirs[at.dir := s.nextRef],
       tables := s.tables[s.nextRef := map[at.file := [Entry(id, path)]]],
       locations := s.locations[id := at],
       nextRef := s.nextRef + 1)
  }

  /** WatchFile, when the first read of a newly opened directory fails: only the handle is used up. */
  function FailToOpen(s: Shared): Shared {
    s.(nextRef := s.nextRef + 1)
  }

  function CloseWatch(s: Shared, id: Id): Shared {
    s.(pending := s.pending + [id])
  }

  /** One round of DrainPendingUnwatches. */
  function DrainOne(s: Shared, id: Id): Shared {
    if id !in s.locations then s
    else
      var at := s.locations[id];
      var s1 := s.(locations := s.locations - {id});
      if at.dir !in s.dirs || s.dirs[at.dir] !in s.tables then s1
      else
        var r := s.dirs[at.dir];
        var t := RemoveEntry(s.tables[r], at.file, id);
        var s2 := s1.(tables := s.tables[r := t]);
        if t == map[] then s2.(dirs := s.dirs - {at.dir}, draining := s.draining + {r}) else s2
  }

  function DrainAll(s: Shared, ids: seq<Id>): Shared
    decreases ids
  {
    if ids == [] then s else DrainAll(DrainOne(s, ids[0]), ids[1..])
  }

  function Drain(s: Shared): Shared {
    DrainAll(s, s.pending).(pending := [])
  }

  /** The first pass of Run that sees the shutdown flag. */
  ghost function Retire(s: Shared): Shared {
    s.(dirs := map[], locations := map[], draining := s.draining + Active(s))
  }

  /** The final completion of a draining directory. */
  function Release(s: Shared, r: Ref): Shared {
    s.(draining := s.draining - {r})
  }

  /** A directory whose read could not be issued again; its locations stay. */
  function DropDir(s: Shared, r: Ref): Shared {
    s.(dirs := map d | d in s.dirs && s.dirs[d] != r :: s.dirs[d])
  }

  /** The two-level lookup of FireDirty. */
  ghost function Lookup(s: Shared, id: Id): Option<Path> {
    if id in s.locations && s.locations[id].dir in s.dirs && s.dirs[s.locations[id].dir] in s.tables then
      match FindEntry(s.tables[s.dirs[s.locations[id].dir]], id)
      case Some(e) => Some(e.path)
      case None => None
    else None
  }
}
