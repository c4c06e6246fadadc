/**
 util::WinFileWatcher as an object: the critical sections of its methods, proved against the functions that
 the protocol's actions use.
 */
module WinWatcher {
  import opened Collections
  import opened WinTables
  import opened WinRegistry
  import opened WinInvariants
  import opened WinSystem

  // ---- WinDirWatcher ----

  /** std::erase_if on one bucket. */
  method EraseId(entries: seq<Entry>, id: Id) returns (kept: seq<Entry>)
    ensures kept == Without(entries, id)
  {
    kept := [];
    for i := 0 to |entries|
      invariant kept + Without(entries[i..], id) == Without(entries, id)
    {
      var rest := entries[i + 1..];
      assert entries[i..][1..] == rest && entries[i..][0] == entries[i];
      JoinRest(kept, entries[i], Without(rest, id));
      if entries[i].id != id {
        kept := kept + [entries[i]];
      }
    }
    assert entries[|entries|..] == [];
  }

  lemma JoinRest<T>(kept: seq<T>, x: T, rest: seq<T>)
    ensures kept + ([x] + rest) == kept + [x] + rest && [] + rest == rest && kept + [] == kept
  {
  }

  method Remove(t: Table, id: Id, f: FileKey) returns (n: Table, removed: bool)
    ensures n == RemoveEntry(t, f, id)
    ensures removed <==> exists e :: Holds(t, f, e) && e.id == id
  {
    n, removed := t, false;
    if f in t {
      var kept := EraseId(t[f], id);
      forall e ensures e in kept <==> Holds(t, f, e) && e.id != id {
        WithoutHolds(t[f], id, e);
      }
      removed := kept != t[f];
      if kept == t[f] {
        forall e | Holds(t, f, e) ensures e.id != id {
          assert e in kept;
        }
      } else {
        Shrinks(t[f], id);
      }
      n := if kept == [] then t - {f} else t[f := kept];
    }
  }

  lemma Shrinks(entries: seq<Entry>, id: Id)
    requires Without(entries, id) != entries
    ensures exists e :: e in entries && e.id == id
  {
  }

  /** Inserts the ids of one bucket. */
  method InsertIds(dirty: set<Id>, entries: seq<Entry>) returns (n: set<Id>)
    ensures n == dirty + set e | e in entries :: e.id
  {
    n := dirty;
    for i := 0 to |entries|
      invariant n == dirty + set e | e in entries[..i] :: e.id
    {
      assert entries[..i + 1] == entries[..i] + [entries[i]];
      n := n + {entries[i].id};
    }
    assert entries[..|entries|] == entries;
  }

  method CollectAllDirty(t: Table, dirty: set<Id>) returns (n: set<Id>)
    ensures n == dirty + Touched(t, Overflow)
  {
    n := dirty;
    var todo := t.Keys;
    while todo != {}
      invariant todo <= t.Keys
      invariant n == dirty + set f, e | f in t && f !in todo && e in t[f] :: e.id
      decreases todo
    {
      var f :| f in todo;
      n := InsertIds(n, t[f]);
      todo := todo - {f};
    }
  }

  method CollectDirty(t: Table, report: Report, dirty: set<Id>) returns (n: set<Id>)
    ensures n == dirty + Touched(t, report)
  {
    if report.Overflow? {
      n := CollectAllDirty(t, dirty);
    } else {
      n := dirty;
      for i := 0 to |report.names|
        invariant n == dirty + Touched(t, Names(report.names[..i]))
      {
        var f := report.names[i];
        assert report.names[..i + 1] == report.names[..i] + [f];
        if f in t {
          n := InsertIds(n, t[f]);
        }
      }
      assert report.names[..|report.names|] == report.names;
    }
  }

  method FindInBucket(entries: seq<Entry>, id: Id) returns (found: Option<Entry>)
    ensures match found
            case Some(e) => e in entries && e.id == id
            case None => forall e :: e in entries ==> e.id != id
  {
    for i := 0 to |entries|
      invariant forall k :: 0 <= k < i ==> entries[k].id != id
    {
      if entries[i].id == id {
        return Some(entries[i]);
      }
    }
    return None;
  }

  /** The first entry with the id, over all buckets. */
  method ForEachEntry(t: Table, id: Id) returns (found: Option<Entry>)
    ensures match found
            case Some(e) => e.id == id && exists f :: Holds(t, f, e)
            case None => forall f, e :: Holds(t, f, e) ==> e.id != id
  {
    var todo := t.Keys;
    while todo != {}
      invariant todo <= t.Keys
      invariant forall f, e :: f !in todo && Holds(t, f, e) ==> e.id != id
      decreases todo
    {
      var f :| f in todo;
      found := FindInBucket(t[f], id);
      if found.Some? {
        assert Holds(t, f, found.value);
        return;
      }
      todo := todo - {f};
    }
    return None;
  }

  lemma FirstEntry(f: FileKey, e: Entry)
    ensures AddEntry(map[], f, e) == map[f := [e]]
  {
    assert Bucket(map[], f) + [e] == [e];
  }

  lemma PutTwice<K, V>(m: map<K, V>, k: K, v: V, w: V)
    ensures m[k := v][k := w] == m[k := w]
  {
  }

  lemma PutAndRemove<K, V>(m: map<K, V>, k: K, v: V)
    requires k !in m
    ensures m[k := v] - {k} == m
  {
  }

  lemma DrainOneRefs(s: Shared, id: Id)
    requires RefsOk(s)
    ensures RefsOk(DrainOne(s, id))
  {
  }

  // ---- WinFileWatcher ----

  lemma DistinctMore(entries: seq<Entry>, e: Entry)
    requires DistinctIds(entries) && forall other :: other in entries ==> other.id != e.id
    ensures DistinctIds(entries + [e])
  {
    assert forall i :: 0 <= i < |entries| ==> entries[i] in entries;
  }

  class WinFileWatcher {
    var dirWatchers: map<DirKey, Ref>
    var tables: map<Ref, Table>
    var watchLocations: map<Id, Location>
    var pendingUnwatches: seq<Id>
    var draining: set<Ref>
    var nextRef: Ref

    ghost function View(): Shared
      reads this
    {
      Shared(dirWatchers, tables, watchLocations, pendingUnwatches, draining, nextRef)
    }

    constructor ()
      ensures View() == NOTHING
    {
      dirWatchers, tables, watchLocations := map[], map[], map[];
      pendingUnwatches, draining, nextRef := [], {}, 0;
    }

    /** Adds an entry to a directory that is there, and its location. */
    method AddWatch(r: Ref, id: Id, at: Location, path: Path)
      requires r in tables
      modifies this`tables, this`watchLocations
      ensures tables == old(tables)[r := AddEntry(old(tables)[r], at.file, Entry(id, path))]
      ensures watchLocations == old(watchLocations)[id := at]
    {
      tables := tables[r := AddEntry(tables[r], at.file, Entry(id, path))];
      watchLocations := watchLocations[id := at];
    }

    /** WatchFile for a directory that is not watched yet. */
    method OpenDirectory(id: Id, at: Location, path: Path, canIssue: bool) returns (ok: bool)
      requires nextRef !in tables && id !in watchLocations && at.dir !in dirWatchers
      modifies this
      ensures ok == canIssue
      ensures View() == if ok then OpenDir(old(View()), id, at, path) else FailToOpen(old(View()))
    {
      var r := nextRef;
      nextRef := nextRef + 1;
      tables := tables[r := map[]];
      dirWatchers := dirWatchers[at.dir := r];
      AddWatch(r, id, at, path);
      FirstEntry(at.file, Entry(id, path));
      PutTwice(old(tables), r, map[], map[at.file := [Entry(id, path)]]);
      if !canIssue {
        watchLocations := watchLocations - {id};
        dirWatchers := dirWatchers - {at.dir};
        tables := tables - {r};
        PutAndRemove(old(tables), r, map[at.file := [Entry(id, path)]]);
        PutAndRemove(old(dirWatchers), at.dir, r);
        PutAndRemove(old(watchLocations), id, at);
      }
      ok := canIssue;
    }

    /** The locked part of WatchFile; `canOpen` and `canIssue` are the system's answers. */
    method WatchFile(id: Id, at: Location, path: Path, canOpen: bool, canIssue: bool)
      returns (ok: bool, issued: Option<Ref>)
      requires RefsOk(View()) && id !in watchLocations
      modifies this
      ensures at.dir in old(dirWatchers) ==> ok && issued == None && View() == JoinDir(old(View()), id, at, path)
      ensures at.dir !in old(dirWatchers) ==>
                if !canOpen then !ok && issued == None && View() == old(View())
                else if !canIssue then !ok && issued == None && View() == FailToOpen(old(View()))
                else ok && issued == Some(old(nextRef)) && View() == OpenDir(old(View()), id, at, path)
    {
      issued := None;
      if at.dir in dirWatchers {
        AddWatch(dirWatchers[at.dir], id, at, path);
        ok := true;
      } else if !canOpen {
        ok := false;
      } else {
        var r := nextRef;
        ok := OpenDirectory(id, at, path, canIssue);
        issued := if ok then Some(r) else None;
      }
    }

    method CloseWatch(id: Id)
      modifies this`pendingUnwatches
      ensures View() == WinTables.CloseWatch(old(View()), id)
    {
      pendingUnwatches := pendingUnwatches + [id];
    }

    /** One round of the loop below. */
    method DrainOne(id: Id) returns (toCancel: set<Ref>)
      requires RefsOk(View())
      modifies this`watchLocations, this`tables, this`dirWatchers, this`draining
      ensures View() == WinTables.DrainOne(old(View()), id)
      ensures toCancel == draining - old(draining) && old(draining) <= draining
    {
      toCancel := {};
      if id !in watchLocations {
        return;
      }
      var at := watchLocations[id];
      watchLocations := watchLocations - {id};
      if at.dir !in dirWatchers {
        return;
      }
      var r := dirWatchers[at.dir];
      var t, _ := Remove(tables[r], id, at.file);
      tables := tables[r := t];
      if t == map[] {
        dirWatchers := dirWatchers - {at.dir};
        draining := draining + {r};
        toCancel := {r};
      }
    }

    /** Unwatches what is pending, and returns the directories whose reads are to be cancelled. */
    method DrainPendingUnwatches() returns (toCancel: set<Ref>)
      requires RefsOk(View())
      modifies this
      ensures View() == Drain(old(View()))
      ensures toCancel == draining - old(draining)
    {
      toCancel := {};
      for i := 0 to |pendingUnwatches|
        invariant pendingUnwatches == old(pendingUnwatches) && RefsOk(View())
        invariant DrainAll(View(), pendingUnwatches[i..]) == DrainAll(old(View()), pendingUnwatches)
        invariant old(draining) <= draining && toCancel == draining - old(draining)
      {
        assert pendingUnwatches[i..][1..] == pendingUnwatches[i + 1..];
        DrainOneRefs(View(), pendingUnwatches[i]);
        var cancelled := DrainOne(pendingUnwatches[i]);
        toCancel := toCancel + cancelled;
      }
      pendingUnwatches := [];
    }

    /** Hands every active directory over to the draining set. */
    method BeginShutdown() returns (toCancel: set<Ref>)
      modifies this
      ensures View() == Retire(old(View()))
      ensures toCancel == old(dirWatchers.Values)
    {
      toCancel := {};
      var todo := dirWatchers.Keys;
      while todo != {}
        invariant todo <= dirWatchers.Keys
        invariant toCancel == set d | d in dirWatchers && d !in todo :: dirWatchers[d]
        invariant View() == old(View()).(draining := old(draining) + toCancel)
        decreases todo
      {
        var d :| d in todo;
        draining := draining + {dirWatchers[d]};
        toCancel := toCancel + {dirWatchers[d]};
        todo := todo - {d};
      }
      dirWatchers := map[];
      watchLocations := map[];
    }

    /** Finds who owns a completion; a draining owner is let go. */
    method FindOwner(r: Ref) returns (live: bool, wasDraining: bool)
      modifies this`draining
      ensures wasDraining == (r in old(draining))
      ensures View() == if wasDraining then Release(old(View()), r) else old(View())
      ensures live <==> wasDraining || r in dirWatchers.Values
    {
      live, wasDraining := false, false;
      if r in draining {
        draining := draining - {r};
        return true, true;
      }
      var todo := dirWatchers.Keys;
      while todo != {}
        invariant todo <= dirWatchers.Keys
        invariant forall d :: d in dirWatchers && d !in todo ==> dirWatchers[d] != r
        decreases todo
      {
        var d :| d in todo;
        if dirWatchers[d] == r {
          return true, false;
        }
        todo := todo - {d};
      }
    }

    /** Takes a directory out of the active table, leaving its locations. */
    method DropDirectory(r: Ref)
      requires RefsOk(View())
      modifies this`dirWatchers
      ensures View() == DropDir(old(View()), r)
    {
      var todo := dirWatchers.Keys;
      while todo != {}
        invariant todo <= dirWatchers.Keys
        invariant forall d :: d in dirWatchers && d !in todo ==> dirWatchers[d] != r
        invariant dirWatchers == old(dirWatchers)
        decreases todo
      {
        var d :| d in todo;
        if dirWatchers[d] == r {
          dirWatchers := dirWatchers - {d};
          assert dirWatchers == DropDir(old(View()), r).dirs;
          return;
        }
        todo := todo - {d};
      }
      assert dirWatchers == DropDir(old(View()), r).dirs;
    }

    /** One round of the loop below: the two-level lookup. */
    method FindWatch(id: Id, ghost reg: Registry, ghost orphans: set<Id>) returns (found: Option<Entry>)
      requires Refines(View(), reg, orphans)
      ensures found == if id in reg then Some(Entry(id, reg[id].path)) else None
    {
      if id in reg {
        assert Enters(View(), reg[id].at.dir, reg[id].at.file, Entry(id, reg[id].path));
      }
      if id !in watchLocations || watchLocations[id].dir !in dirWatchers {
        return None;
      }
      var d := watchLocations[id].dir;
      found := ForEachEntry(tables[dirWatchers[d]], id);
      if found.Some? {
        ghost var f :| Holds(tables[dirWatchers[d]], f, found.value);
        assert Enters(View(), d, f, found.value);
      }
    }

    /** Gathers the callbacks to run: one for each dirty id that is still registered. */
    method FireDirty(dirty: set<Id>, ghost reg: Registry, ghost orphans: set<Id>) returns (callbacks: seq<Entry>)
      requires Refines(View(), reg, orphans)
      ensures DistinctIds(callbacks)
      ensures forall e :: e in callbacks <==> e.id in dirty && e.id in reg && e.path == reg[e.id].path
    {
      callbacks := [];
      var todo := dirty;
      while todo != {}
        invariant todo <= dirty && DistinctIds(callbacks)
        invariant forall e :: e in callbacks <==>
                              e.id in dirty && e.id !in todo && e.id in reg && e.path == reg[e.id].path
        decreases todo
      {
        var id :| id in todo;
        var found := FindWatch(id, reg, orphans);
        if found.Some? {
          DistinctMore(callbacks, found.value);
          callbacks := callbacks + [found.value];
        }
        todo := todo - {id};
      }
    }

    /** The end of the worker's round: gathers what the protocol fires, and forgets it once that is done. */
    method FireIfDue(dirty: set<Id>, deadline: Option<nat>, now: nat, ghost s: System)
      returns (callbacks: seq<Entry>, left: set<Id>, due: Option<nat>)
      requires Refines(View(), s.history.registry, s.history.orphans) && View() == s.shared
      requires Enabled(s, CheckDeadline) && s.worker.dirty == dirty && s.worker.deadline == deadline && s.now == now
      ensures DistinctIds(callbacks)
      ensures var n := Apply(s, CheckDeadline);
              if n.worker.pc.Firing?
              then && left == {} && due == None
                   && forall e :: e in callbacks <==>
                                  && e.id in n.worker.pc.left && e.id in s.history.registry
                                  && e.path == s.history.registry[e.id].path
              else left == dirty && due == deadline && callbacks == []
    {
      callbacks, left, due := [], dirty, deadline;
      if deadline.Some? && now >= deadline.value {
        FoundRegistered(s);
        callbacks := FireDirty(dirty, s.history.registry, s.history.orphans);
        left, due := {}, None;
      }
    }
  }
}
