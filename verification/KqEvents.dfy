/**
 What every interleaving of util::KqueueFileWatcher keeps of its events, its dirty ids and its deadline.
 */
module KqEvents {
  import opened Collections
  import opened KqSystem
  import opened KqInvariants

  // ---- Events ----

  ghost predicate BatchOk(s: System, batch: seq<Event>) {
    && (forall e :: e in batch ==> ReportsTo(s, e.fd, e.id) && e.notes.Any())
    && (forall i, j :: 0 <= i < j < |batch| ==> batch[i].fd != batch[j].fd)
  }

  /** Every event still to be handled has something to say of a descriptor that its watch still has. */
  ghost predicate EventsOk(s: System) {
    s.pc.Handling? ==> BatchOk(s, s.pc.batch)
  }

  /** Armed descriptors stay armed. */
  ghost predicate KeepsArmed(s: System, n: System) {
    forall fd :: fd in s.kernel.knotes ==> ReportsTo(n, fd, s.kernel.knotes[fd].id)
  }

  lemma ArmedEvents(s: System, n: System)
    requires EventsOk(s) && KeepsArmed(s, n) && (n.pc.Handling? ==> n.pc == s.pc)
    ensures EventsOk(n)
  {
  }

  lemma QuietArmed(s: System, a: Action)
    requires Enabled(s, a) && Quiet(a)
    ensures KeepsArmed(s, Apply(s, a))
  {
    QuietMeans(s, a);
    if OfFiles(a) {
      FilesLouder(s, a);
      forall fd | fd in s.kernel.knotes ensures ReportsTo(Apply(s, a), fd, s.kernel.knotes[fd].id) {
        assert LouderAt(s.kernel.knotes[fd], Apply(s, a).kernel.knotes[fd]);
      }
    }
  }

  lemma RegisterArmed(s: System, a: Action)
    requires Conserved(s) && Enabled(s, a) && a.Register?
    ensures KeepsArmed(s, Apply(s, a))
  {
  }

  lemma ArmArmed(s: System, a: Action)
    requires Conserved(s) && Enabled(s, a) && (a.ArmFile? || a.OpenFile? || a.BeginWatch?)
    ensures KeepsArmed(s, Apply(s, a))
  {
    if a.ArmFile? {
      assert WatchOk(s, s.lock.id, s.watches[s.lock.id]);
    }
  }

  lemma DropEvents(s: System, n: System)
    requires EventsOk(s) && s.pc.Handling? && s.pc.batch != [] && n.pc == Handling(s.pc.batch[1..])
    requires forall fd :: fd in s.kernel.knotes && fd != s.pc.batch[0].fd ==> ReportsTo(n, fd, s.kernel.knotes[fd].id)
    ensures EventsOk(n)
  {
  }

  lemma HandleEvents(s: System, a: Action)
    requires EventsOk(s) && Enabled(s, a) && a.HandleEvent?
    ensures EventsOk(Apply(s, a))
  {
    DropEvents(s, Apply(s, a));
  }

  lemma DeliverEvents(s: System, a: Action)
    requires Enabled(s, a) && a.Deliver?
    ensures EventsOk(Apply(s, a))
  {
  }

  lemma WorkerMoves(s: System, a: Action)
    requires Enabled(s, a) && !a.HandleEvent? && !a.Deliver? && !a.DrainPending? && !a.Teardown?
    ensures Apply(s, a).pc.Handling? ==> Apply(s, a).pc == s.pc
  {
  }

  lemma RestArmed(s: System, a: Action)
    requires Base(s) && Enabled(s, a) && !a.HandleEvent? && !a.Deliver? && !a.DrainPending? && !a.Teardown?
    ensures KeepsArmed(s, Apply(s, a))
  {
    match a {
      case Register(_, _) => RegisterArmed(s, a);
      case BeginWatch(_, _) => ArmArmed(s, a);
      case OpenFile(_) => ArmArmed(s, a);
      case ArmFile(_) => ArmArmed(s, a);
      case _ => QuietArmed(s, a);
    }
  }

  lemma StepEvents(s: System, a: Action)
    requires Base(s) && EventsOk(s) && Enabled(s, a)
    ensures EventsOk(Apply(s, a))
  {
    if a.HandleEvent? {
      HandleEvents(s, a);
    } else if a.Deliver? {
      DeliverEvents(s, a);
    } else if !a.DrainPending? && !a.Teardown? {
      WorkerMoves(s, a);
      RestArmed(s, a);
      ArmedEvents(s, Apply(s, a));
    }
  }

  // ---- Dirty ids ----

  ghost predicate DirtyOk(s: System) {
    && (s.deadline.Some? <==> s.dirty != {})
    && (forall id :: id in s.dirty ==> id in s.watches || id in s.history.drained || s.pc.Exited?)
    && (s.pc.Firing? ==> forall id :: id in s.dirty ==> id in s.pc.left || id in s.pc.done || id in s.history.drained)
  }

  lemma DrainDirty(s: System, a: Action)
    requires DirtyOk(s) && Enabled(s, a) && (a.DrainPending? || a.Teardown?)
    ensures DirtyOk(Apply(s, a))
  {
    UnwatchAllMeans(s, if a.DrainPending? then s.pending else OrderOf(s.watches.Keys));
  }

  lemma OpenDirty(s: System, a: Action)
    requires DirtyOk(s) && PhaseOk(s) && Enabled(s, a) && a.OpenFile?
    ensures DirtyOk(Apply(s, a))
  {
  }

  lemma ArmDirty(s: System, a: Action)
    requires DirtyOk(s) && PhaseOk(s) && Enabled(s, a) && a.ArmFile?
    ensures DirtyOk(Apply(s, a))
  {
  }

  lemma HandleDirty(s: System, a: Action)
    requires DirtyOk(s) && Enabled(s, a) && a.HandleEvent?
    ensures DirtyOk(Apply(s, a))
  {
  }

  lemma FireDirty(s: System, a: Action)
    requires DirtyOk(s) && Enabled(s, a) && (a.CheckDeadline? || a.RunCallback? || a.FinishFiring?)
    ensures DirtyOk(Apply(s, a))
  {
  }

  lemma QuietDirty(s: System, a: Action)
    requires DirtyOk(s) && Enabled(s, a) && (Quiet(a) || a.Deliver?) && !a.CheckDeadline? && !a.RunCallback?
    requires !a.FinishFiring?
    ensures DirtyOk(Apply(s, a))
  {
  }

  lemma ClientDirty(s: System, a: Action)
    requires DirtyOk(s) && Enabled(s, a) && (a.BeginWatch? || a.Register?)
    ensures DirtyOk(Apply(s, a))
  {
  }

  lemma StepDirty(s: System, a: Action)
    requires Base(s) && DirtyOk(s) && Enabled(s, a)
    ensures DirtyOk(Apply(s, a))
  {
    match a {
      case HandleEvent => HandleDirty(s, a);
      case DrainPending => DrainDirty(s, a);
      case Teardown => DrainDirty(s, a);
      case OpenFile(_) => OpenDirty(s, a);
      case ArmFile(_) => ArmDirty(s, a);
      case BeginWatch(_, _) => ClientDirty(s, a);
      case Register(_, _) => ClientDirty(s, a);
      case CheckDeadline => FireDirty(s, a);
      case RunCallback(_) => FireDirty(s, a);
      case FinishFiring => FireDirty(s, a);
      case _ => QuietDirty(s, a);
    }
  }
}
