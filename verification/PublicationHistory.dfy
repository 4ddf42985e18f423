/** What holds over every history of backup runs, kills and power cuts. */
module PublicationHistory {
  import opened BackupRoot
  import opened Publication
  import opened PublicationSafety

  lemma StepKeeps(m: Machine, o: Outcome)
    requires Inv(m)
    ensures Inv(Step(m, o))
  {
    if IsBuilding(m.pc) {
      BuildingKeeps(m.disk, m.pc, m.run, m.undone, o);
    } else if m.pc.ReadPrevious? {
      ReadKeeps(m, o);
    } else if IsPublishing(m.pc) {
      PublishingKeeps(m, o);
    } else if IsRestoring(m.pc) {
      RestoringKeeps(m, o);
    } else if IsDemoting(m.pc) {
      DemotingKeeps(m, o);
    } else {
      RetainingKeeps(m, o);
    }
  }

  lemma PublishingKeeps(m: Machine, o: Outcome)
    requires Inv(m) && IsPublishing(m.pc)
    ensures Inv(Step(m, o))
  {
    if m.pc.WriteTemp? {
      WriteTempKeeps(m.disk, m.run, o);
    } else if m.pc.Promote? {
      PromoteKeeps(m.disk, m.run, o);
    } else if m.pc.SyncPromoted? {
      SyncPromotedKeeps(m.disk, m.run, o);
    } else if m.pc.SwapMarker? {
      SwapKeeps(m.disk, m.run, o);
    } else {
      SyncMarkerKeeps(m.disk, m.run, o);
    }
  }

  lemma RetainingKeeps(m: Machine, o: Outcome)
    requires Inv(m)
    requires m.pc.ListSets? || m.pc.DeleteSet? || m.pc.SyncDeleted? || Ended(m.pc)
    ensures Inv(Step(m, o))
  {
    hide Holds, CrashSafe, StepListing, StepDeleting, Flush;
    if m.pc.ListSets? {
      ListingKeeps(m, o);
    } else if m.pc.DeleteSet? {
      DeleteSetKeeps(m, o);
    } else if m.pc.SyncDeleted? {
      SyncStepKeeps(m, o);
    }
  }

  lemma DeleteSetKeeps(m: Machine, o: Outcome)
    requires Inv(m) && m.pc.DeleteSet?
    ensures Inv(StepDeleting(m, o))
  {
    var after := StepDeleting(m, o);
    DeletingKeeps(m, o);
    DeletingHolds(after.pc, after.disk, after.run, after.undone);
  }

  lemma DeletingHolds(pc: Pc, disk: Disk, run: Run, undone: bool)
    requires Served(disk, run.job) && Deleting(disk.view, run)
    requires || pc == RetentionFailed
             || (pc == DeleteSet && run.deleted < |run.plan.doomed|)
             || (pc == SyncDeleted && run.deleted == |run.plan.doomed|)
    ensures Holds(pc, disk, run, undone)
  {
  }

  lemma SyncStepKeeps(m: Machine, o: Outcome)
    requires Inv(m) && m.pc.SyncDeleted?
    ensures Inv(Step(m, o))
  {
    hide CrashSafe, Served, Chosen, Cleared;
    SyncDeletedKeeps(m.disk, m.run, o);
  }

  lemma RestoringKeeps(m: Machine, o: Outcome)
    requires Inv(m)
    requires IsRestoring(m.pc)
    ensures Inv(Step(m, o))
  {
    hide Inv, Step;
    if m.pc.RereadMarker? || m.pc.UnlinkMarker? || m.pc.WriteRollback? {
      MarkerUndoneKeeps(m, o);
    } else {
      MarkerRestoredKeeps(m, o);
    }
  }

  lemma MarkerUndoneKeeps(m: Machine, o: Outcome)
    requires Inv(m)
    requires m.pc.RereadMarker? || m.pc.UnlinkMarker? || m.pc.WriteRollback?
    ensures Inv(Step(m, o))
  {
    hide CrashSafe, BothStay, Unclaimed, SameButTemp, Swapped, Promoted, CanRename, ReadMarker, TrustedMarker;
    if m.pc.RereadMarker? {
      RereadKeeps(m.disk, m.run, o);
    } else if m.pc.UnlinkMarker? {
      UnlinkKeeps(m.disk, m.run, o);
    } else {
      WriteRollbackKeeps(m.disk, m.run, o);
    }
  }

  lemma MarkerRestoredKeeps(m: Machine, o: Outcome)
    requires Inv(m)
    requires m.pc.ReplaceRollback? || m.pc.SyncRestored? || m.pc.RemoveRollback?
    ensures Inv(Step(m, o))
  {
    hide CrashSafe, BothStay, Unclaimed, SameButTemp, Swapped, Promoted, CanRename, ReadMarker, TrustedMarker;
    if m.pc.ReplaceRollback? {
      ReplaceRollbackKeeps(m.disk, m.run, o);
    } else if m.pc.SyncRestored? {
      SyncRestoredKeeps(m.disk, m.run, o);
    } else {
      DropIsSafe(m.disk, m.run, Rollback(m.run.job.nonce));
    }
  }

  lemma DemotingKeeps(m: Machine, o: Outcome)
    requires Inv(m)
    requires IsDemoting(m.pc)
    ensures Inv(Step(m, o))
  {
    if m.pc == Demote {
      DemoteKeeps(m.disk, m.run, o);
    } else {
      RemoveKeeps(m.disk, m.pc, m.run, m.undone, o);
    }
  }

  lemma ApplyKeeps(m: Machine, e: Event)
    requires Inv(m)
    ensures Inv(Apply(m, e))
  {
    match e
    case Continue(o) => StepKeeps(m, o);
    case PowerCut(after) =>
      if CanLeave(m.disk, after) {
        PowerCutKeepsMarker(m.disk, after);
      }
    case _ =>
  }

  lemma {:induction false} ReplayKeeps(m: Machine, events: seq<Event>)
    requires Inv(m)
    ensures Inv(Replay(m, events))
    decreases |events|
  {
    if events != [] {
      ReplayKeeps(m, events[..|events| - 1]);
      ApplyKeeps(Replay(m, events[..|events| - 1]), events[|events| - 1]);
    }
  }

  // ---------- crash safety ----------

  /** In every reachable state, and after any power cut in it, a marker that is present is accepted by both readers
      and names a set that is there with every file its manifest lists. */
  lemma MarkerAlwaysNamesACompleteSet(m0: Machine, events: seq<Event>, after: Dir)
    requires AtRest(m0)
    requires var m := Replay(m0, events); after == m.disk.view || CanLeave(m.disk, after)
    ensures Marker in after ==>
      && after[Marker].File? && Backed(after[Marker].bytes, after)
      && ReadMarker(after) == Found(after[Marker].bytes)
      && Inspect(after) == Some(after[Marker].bytes.metadata.created)
  {
    ReplayKeeps(m0, events);
    var m := Replay(m0, events);
    if after == m.disk.view {
      assert m.disk.view in m.disk.since;
    } else {
      PowerCutKeepsMarker(m.disk, after);
    }
    if Marker in after {
      MarkerIsAccepted(after);
    }
  }

  /** A publication that raised leaves exactly the entries it found (the partial set back, the final one gone, the
      marker as before, the temporary name free) if and only if no step of its rollback failed while it had something
      to undo. The temporary name is freed even if it was taken before. */
  lemma RollbackRestoresEntries(m0: Machine, events: seq<Event>)
    requires AtRest(m0) && Replay(m0, events).pc.RolledBack?
    ensures var m := Replay(m0, events);
      m.undone <==> m.disk.view == m.run.prior - {Temp(m.run.job.nonce)}
  {
    ReplayKeeps(m0, events);
    RolledBackExactly(Replay(m0, events));
  }

  lemma RolledBackExactly(m: Machine)
    requires Inv(m) && m.pc.RolledBack?
    ensures m.undone <==> m.disk.view == m.run.prior - {Temp(m.run.job.nonce)}
  {
  }

  predicate HasPublished(pc: Pc) {
    pc.ListSets? || pc.DeleteSet? || pc.SyncDeleted? || pc.Succeeded? || pc.RetentionFailed?
  }

  /** A publication that returned leaves, durably, a marker from which the independent reader accepts this set and
      reads back the instant that was written. */
  lemma PublishedIsReadBack(m0: Machine, events: seq<Event>, after: Dir)
    requires AtRest(m0) && HasPublished(Replay(m0, events).pc)
    requires var m := Replay(m0, events); after == m.disk.view || CanLeave(m.disk, after)
    ensures var job := Replay(m0, events).run.job;
      && Marker in after && after[Marker] == File(MetadataOf(job), true)
      && Inspect(after) == Some(Instant(job.setName))
      && Final(job.setName) in after && after[Final(job.setName)] == Built(job)
  {
    ReplayKeeps(m0, events);
    ServedIsReadBack(Replay(m0, events), after);
  }

  lemma ServedIsReadBack(m: Machine, after: Dir)
    requires Inv(m) && HasPublished(m.pc)
    requires after == m.disk.view || CanLeave(m.disk, after)
    ensures var job := m.run.job;
      && Marker in after && after[Marker] == File(MetadataOf(job), true)
      && Inspect(after) == Some(Instant(job.setName))
      && Final(job.setName) in after && after[Final(job.setName)] == Built(job)
  {
    hide Deleting, Chosen, Cleared;
    assert m.disk.view in m.disk.since;
    if after != m.disk.view {
      PowerCutKeepsMarker(m.disk, after);
      assert exists d :: d in m.disk.since && Survives(Entry(d, Marker), Entry(after, Marker));
      assert exists d :: d in m.disk.since && Survives(Entry(d, Final(m.run.job.setName)), Entry(after, Final(m.run.job.setName)));
    }
  }

  /** A run that succeeded removed exactly the sets retention gives up, and no other entry. */
  lemma RetentionRemovesOnlyDoomed(m0: Machine, events: seq<Event>, n: Name)
    requires AtRest(m0) && Replay(m0, events).pc.Succeeded?
    ensures var m := Replay(m0, events); var plan := m.run.plan;
      && Chosen(plan, m.run.job)
      && Entry(m.disk.view, n) == if n.Final? && n.setName in plan.doomed then None else Entry(plan.listing, n)
  {
    hide Replay, Chosen, Cleared;
    ReplayKeeps(m0, events);
    var m := Replay(m0, events);
    ClearedExactly(m.disk.view, m.run.plan.listing, m.run.plan.doomed, n);
  }

  /** Retention that raised has touched no entry but sets it gives up, and added none. */
  lemma FailedRetentionTouchesOnlyDoomed(m0: Machine, events: seq<Event>, n: Name)
    requires AtRest(m0) && Replay(m0, events).pc.RetentionFailed?
    ensures var m := Replay(m0, events); var plan := m.run.plan;
      && (plan.doomed != [] ==> Chosen(plan, m.run.job))
      && (n in m.disk.view ==> n in plan.listing)
      && ((n.Final? ==> n.setName !in plan.doomed) ==> Entry(m.disk.view, n) == Entry(plan.listing, n))
  {
    hide Replay, Chosen;
    ReplayKeeps(m0, events);
  }

  lemma ClearedExactly(v: Dir, listing: Dir, all: seq<string>, n: Name)
    requires Cleared(v, listing, all, |all|)
    ensures Entry(v, n) == if n.Final? && n.setName in all then None else Entry(listing, n)
  {
    if n.Final? && n.setName in all {
      var i :| 0 <= i < |all| && all[i] == n.setName;
      assert Final(all[i]) !in v;
    }
  }
}
