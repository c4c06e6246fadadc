/**
 The two-level tables refine a plain map from watch id to watch.
 */
module WinRegistry {
  import opened Collections
  import opened WinTables

  datatype Watch = Watch(at: Location, path: Path)

  /** The watches that can still fire. */
  type Registry = map<Id, Watch>

  // ---- The invariant ----

  /** Handles are used by one directory at a time, and never again once past. */
  ghost predicate RefsOk(s: Shared) {
    && (forall d :: d in s.dirs ==> s.dirs[d] in s.tables && s.dirs[d] < s.nextRef && s.dirs[d] !in s.draining)
    && (forall d, e :: d in s.dirs && e in s.dirs && s.dirs[d] == s.dirs[e] ==> d == e)
    && (forall r :: r in s.draining || r in s.tables ==> r < s.nextRef)
  }

  ghost predicate DistinctIds(entries: seq<Entry>) {
    forall i, j :: 0 <= i < j < |entries| ==> entries[i].id != entries[j].id
  }

  /** No bucket is empty, no id twice in one. */
  ghost predicate BucketsOk(t: Table) {
    forall f :: f in t ==> t[f] != [] && DistinctIds(t[f])
  }

  ghost predicate TablesOk(s: Shared)
    requires RefsOk(s)
  {
    forall d :: d in s.dirs ==> s.tables[s.dirs[d]] != map[] && BucketsOk(s.tables[s.dirs[d]])
  }

  /** The active directory `d` has the entry `e` for the file `f`. */
  ghost predicate Enters(s: Shared, d: DirKey, f: FileKey, e: Entry)
    requires RefsOk(s)
  {
    d in s.dirs && Holds(s.tables[s.dirs[d]], f, e)
  }

  /** Every entry of an active directory is registered under exactly that directory and file. */
  ghost predicate EntriesRegistered(s: Shared, reg: Registry)
    requires RefsOk(s)
  {
    forall d, f, e :: Enters(s, d, f, e) ==> e.id in reg && reg[e.id] == Watch(Location(d, f), e.path)
  }

  /** Every registered watch has its entry and its location. */
  ghost predicate RegisteredEntered(s: Shared, reg: Registry)
    requires RefsOk(s)
  {
    forall id :: id in reg ==>
                   && Enters(s, reg[id].at.dir, reg[id].at.file, Entry(id, reg[id].path))
                   && id in s.locations && s.locations[id] == reg[id].at
  }

  /** `orphans` are the ids whose directory was dropped: only their locations may be left. */
  ghost predicate Refines(s: Shared, reg: Registry, orphans: set<Id>) {
    && RefsOk(s)
    && TablesOk(s)
    && EntriesRegistered(s, reg)
    && RegisteredEntered(s, reg)
    && (forall id :: id in s.locations ==> id in reg || id in orphans)
    && reg.Keys !! orphans
  }

  // ---- What it means ----

  /** The two-level lookup is the plain map. */
  lemma LookupRefines(s: Shared, reg: Registry, orphans: set<Id>, id: Id)
    requires Refines(s, reg, orphans)
    ensures Lookup(s, id) == if id in reg then Some(reg[id].path) else None
  {
    if id in reg {
      assert Enters(s, reg[id].at.dir, reg[id].at.file, Entry(id, reg[id].path));
    }
    if id in s.locations && s.locations[id].dir in s.dirs {
      var d := s.locations[id].dir;
      var found := FindEntry(s.tables[s.dirs[d]], id);
      if found.Some? {
        var f :| Holds(s.tables[s.dirs[d]], f, found.value);
        assert Enters(s, d, f, found.value);
      }
    }
  }

  /** An id has one entry at most, in all active directories together. */
  lemma EntryUnique(s: Shared, reg: Registry, orphans: set<Id>, d: DirKey, f: FileKey, e: Entry, d': DirKey,
                    f': FileKey, e': Entry)
    requires Refines(s, reg, orphans) && Enters(s, d, f, e) && Enters(s, d', f', e') && e.id == e'.id
    ensures d == d' && f == f' && e == e'
  {
  }

  // ---- Tables ----

  lemma {:induction false} WithoutHolds(entries: seq<Entry>, id: Id, e: Entry)
    ensures e in Without(entries, id) <==> e in entries && e.id != id
  {
    if entries != [] {
      WithoutHolds(entries[1..], id, e);
      assert entries == [entries[0]] + entries[1..];
    }
  }

  lemma {:induction false} WithoutDistinct(entries: seq<Entry>, id: Id)
    requires DistinctIds(entries)
    ensures DistinctIds(Without(entries, id))
  {
    if entries != [] {
      var rest := Without(entries[1..], id);
      WithoutDistinct(entries[1..], id);
      forall e | e in rest ensures e.id != entries[0].id {
        WithoutHolds(entries[1..], id, e);
      }
    }
  }

  lemma {:induction false} WithoutAbsent(entries: seq<Entry>, id: Id)
    requires forall e :: e in entries ==> e.id != id
    ensures Without(entries, id) == entries
  {
    if entries != [] {
      WithoutAbsent(entries[1..], id);
    }
  }

  lemma RemoveHolds(t: Table, f: FileKey, id: Id, g: FileKey, e: Entry)
    ensures Holds(RemoveEntry(t, f, id), g, e) <==> Holds(t, g, e) && !(g == f && e.id == id)
  {
    if f in t {
      WithoutHolds(t[f], id, e);
    }
  }

  lemma RemoveBuckets(t: Table, f: FileKey, id: Id)
    requires BucketsOk(t)
    ensures BucketsOk(RemoveEntry(t, f, id))
  {
    if f in t {
      WithoutDistinct(t[f], id);
    }
  }

  lemma RemoveAbsent(t: Table, f: FileKey, id: Id)
    requires BucketsOk(t) && forall e :: Holds(t, f, e) ==> e.id != id
    ensures RemoveEntry(t, f, id) == t
  {
    if f in t {
      forall e | e in t[f] ensures e.id != id {
        assert Holds(t, f, e);
      }
      WithoutAbsent(t[f], id);
    }
  }

  lemma AddHolds(t: Table, f: FileKey, e: Entry, g: FileKey, e': Entry)
    ensures Holds(AddEntry(t, f, e), g, e') <==> Holds(t, g, e') || (g == f && e' == e)
  {
  }

  lemma AddBuckets(t: Table, f: FileKey, e: Entry)
    requires BucketsOk(t) && forall e' :: Holds(t, f, e') ==> e'.id != e.id
    ensures BucketsOk(AddEntry(t, f, e))
  {
  }

  // ---- WatchFile ----

  /** `n` is `s` with one more entry. */
  ghost predicate Adds(s: Shared, n: Shared, id: Id, at: Location, path: Path)
    requires RefsOk(s) && RefsOk(n)
  {
    && n.locations == s.locations[id := at]
    && forall d, f, e :: Enters(n, d, f, e) <==>
                         Enters(s, d, f, e) || (d == at.dir && f == at.file && e == Entry(id, path))
  }

  lemma AddRegisters(s: Shared, reg: Registry, n: Shared, id: Id, at: Location, path: Path)
    requires RefsOk(s) && EntriesRegistered(s, reg) && RefsOk(n) && Adds(s, n, id, at, path) && id !in reg
    ensures EntriesRegistered(n, reg[id := Watch(at, path)])
  {
  }

  lemma AddEnters(s: Shared, reg: Registry, n: Shared, id: Id, at: Location, path: Path)
    requires RefsOk(s) && RegisteredEntered(s, reg) && RefsOk(n) && Adds(s, n, id, at, path) && id !in reg
    ensures RegisteredEntered(n, reg[id := Watch(at, path)])
  {
  }

  lemma AddRefines(s: Shared, reg: Registry, orphans: set<Id>, n: Shared, id: Id, at: Location, path: Path)
    requires Refines(s, reg, orphans) && RefsOk(n) && TablesOk(n) && Adds(s, n, id, at, path)
    requires id !in reg && id !in s.locations && id !in orphans
    ensures Refines(n, reg[id := Watch(at, path)], orphans)
  {
    AddRegisters(s, reg, n, id, at, path);
    AddEnters(s, reg, n, id, at, path);
  }

  lemma JoinAdds(s: Shared, id: Id, at: Location, path: Path)
    requires RefsOk(s) && TablesOk(s) && at.dir in s.dirs
    requires forall e :: Holds(s.tables[s.dirs[at.dir]], at.file, e) ==> e.id != id
    ensures var n := JoinDir(s, id, at, path); RefsOk(n) && TablesOk(n) && Adds(s, n, id, at, path)
  {
    var t := s.tables[s.dirs[at.dir]];
    var e := Entry(id, path);
    AddBuckets(t, at.file, e);
    forall f, e' ensures Holds(AddEntry(t, at.file, e), f, e') <==> Holds(t, f, e') || (f == at.file && e' == e) {
      AddHolds(t, at.file, e, f, e');
    }
    assert at.file in AddEntry(t, at.file, e);
  }

  lemma OpenAdds(s: Shared, id: Id, at: Location, path: Path)
    requires RefsOk(s) && TablesOk(s) && at.dir !in s.dirs
    ensures var n := OpenDir(s, id, at, path); RefsOk(n) && TablesOk(n) && Adds(s, n, id, at, path)
  {
    var t: Table := map[at.file := [Entry(id, path)]];
    assert at.file in t && BucketsOk(t);
    forall f, e ensures Holds(t, f, e) <==> f == at.file && e == Entry(id, path) {
    }
  }

  lemma JoinRefines(s: Shared, reg: Registry, orphans: set<Id>, id: Id, at: Location, path: Path)
    requires Refines(s, reg, orphans) && at.dir in s.dirs
    requires id !in reg && id !in s.locations && id !in orphans
    ensures Refines(JoinDir(s, id, at, path), reg[id := Watch(at, path)], orphans)
  {
    JoinAdds(s, id, at, path);
    AddRefines(s, reg, orphans, JoinDir(s, id, at, path), id, at, path);
  }

  lemma OpenRefines(s: Shared, reg: Registry, orphans: set<Id>, id: Id, at: Location, path: Path)
    requires Refines(s, reg, orphans) && at.dir !in s.dirs
    requires id !in reg && id !in s.locations && id !in orphans
    ensures Refines(OpenDir(s, id, at, path), reg[id := Watch(at, path)], orphans)
  {
    OpenAdds(s, id, at, path);
    AddRefines(s, reg, orphans, OpenDir(s, id, at, path), id, at, path);
  }

  // ---- Unwatching ----

  /** A change that leaves the active directories and their tables alone. */
  lemma SameDirs(s: Shared, n: Shared)
    requires RefsOk(s) && RefsOk(n) && n.dirs == s.dirs && n.tables == s.tables
    ensures forall d, f, e :: Enters(n, d, f, e) <==> Enters(s, d, f, e)
  {
  }

  lemma DrainOrphan(s: Shared, reg: Registry, orphans: set<Id>, id: Id)
    requires Refines(s, reg, orphans) && id !in reg
    ensures DrainOne(s, id) == s.(locations := s.locations - {id})
  {
    if id in s.locations && s.locations[id].dir in s.dirs {
      var at := s.locations[id];
      var r := s.dirs[at.dir];
      RemoveAbsent(s.tables[r], at.file, id);
      assert s.tables[r := s.tables[r]] == s.tables;
    }
  }

  /** Draining a registered id: its directory keeps its other entries, and leaves when there are none. */
  lemma DrainKeepsRefs(s: Shared, id: Id, at: Location)
    requires RefsOk(s) && TablesOk(s)
    requires id in s.locations && s.locations[id] == at && at.dir in s.dirs
    ensures var n := DrainOne(s, id);
            && RefsOk(n)
            && TablesOk(n)
            && forall d, f, e :: Enters(n, d, f, e) <==>
                                 Enters(s, d, f, e) && !(d == at.dir && f == at.file && e.id == id)
  {
    var n := DrainOne(s, id);
    var r := s.dirs[at.dir];
    var t := RemoveEntry(s.tables[r], at.file, id);
    RemoveBuckets(s.tables[r], at.file, id);
    forall f, e ensures Holds(t, f, e) <==> Holds(s.tables[r], f, e) && !(f == at.file && e.id == id) {
      RemoveHolds(s.tables[r], at.file, id, f, e);
    }
    assert t == map[] ==> forall f, e :: !Holds(t, f, e);
  }

  lemma DrainRegistered(s: Shared, reg: Registry, orphans: set<Id>, id: Id)
    requires Refines(s, reg, orphans) && id in reg
    ensures Refines(DrainOne(s, id), reg - {id}, orphans)
  {
    assert Enters(s, reg[id].at.dir, reg[id].at.file, Entry(id, reg[id].path));
    DrainKeepsRefs(s, id, reg[id].at);
    assert DrainOne(s, id).locations == s.locations - {id};
  }

  /** Unwatching an id removes it from the map, and nothing else. */
  lemma DrainOneRefines(s: Shared, reg: Registry, orphans: set<Id>, id: Id)
    requires Refines(s, reg, orphans)
    ensures Refines(DrainOne(s, id), reg - {id}, orphans)
  {
    if id in reg {
      DrainRegistered(s, reg, orphans, id);
    } else {
      DrainOrphan(s, reg, orphans, id);
      assert reg - {id} == reg;
      SameDirs(s, DrainOne(s, id));
    }
  }

  lemma {:induction false} DrainAllRefines(s: Shared, reg: Registry, orphans: set<Id>, ids: seq<Id>)
    requires Refines(s, reg, orphans)
    ensures Refines(DrainAll(s, ids), reg - ToSet(ids), orphans)
    decreases ids
  {
    if ids == [] {
      assert reg - ToSet(ids) == reg;
    } else {
      assert reg - {ids[0]} - ToSet(ids[1..]) == reg - ToSet(ids);
      DrainOneRefines(s, reg, orphans, ids[0]);
      DrainAllRefines(DrainOne(s, ids[0]), reg - {ids[0]}, orphans, ids[1..]);
    }
  }

  lemma PendingIrrelevant(s: Shared, ids: seq<Id>, reg: Registry, orphans: set<Id>)
    requires Refines(s, reg, orphans)
    ensures Refines(s.(pending := ids), reg, orphans)
  {
    SameDirs(s, s.(pending := ids));
  }

  lemma DrainRefines(s: Shared, reg: Registry, orphans: set<Id>)
    requires Refines(s, reg, orphans)
    ensures Refines(Drain(s), reg - ToSet(s.pending), orphans)
  {
    DrainAllRefines(s, reg, orphans, s.pending);
    PendingIrrelevant(DrainAll(s, s.pending), [], reg - ToSet(s.pending), orphans);
  }

  // ---- Losing directories ----

  /** The ids registered in the directory with this handle. */
  ghost function IdsOf(s: Shared, reg: Registry, r: Ref): set<Id> {
    set id | id in reg && reg[id].at.dir in s.dirs && s.dirs[reg[id].at.dir] == r
  }

  /** Dropping a directory forgets its watches but leaves their locations: they become orphans. */
  lemma DropRefines(s: Shared, reg: Registry, orphans: set<Id>, r: Ref)
    requires Refines(s, reg, orphans)
    ensures Refines(DropDir(s, r), reg - IdsOf(s, reg, r), orphans + IdsOf(s, reg, r))
  {
    var n := DropDir(s, r);
    forall d, f, e ensures Enters(n, d, f, e) <==> Enters(s, d, f, e) && s.dirs[d] != r {
    }
  }

  lemma ReleaseRefines(s: Shared, reg: Registry, orphans: set<Id>, r: Ref)
    requires Refines(s, reg, orphans)
    ensures Refines(Release(s, r), reg, orphans)
  {
    SameDirs(s, Release(s, r));
  }

  lemma RetireRefines(s: Shared, reg: Registry, orphans: set<Id>)
    requires Refines(s, reg, orphans)
    ensures Refines(Retire(s), map[], orphans)
  {
  }

  lemma FailRefines(s: Shared, reg: Registry, orphans: set<Id>)
    requires Refines(s, reg, orphans)
    ensures Refines(FailToOpen(s), reg, orphans)
  {
    SameDirs(s, FailToOpen(s));
  }
}
