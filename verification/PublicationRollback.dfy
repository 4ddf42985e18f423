/** What runs come to when calls do as asked: publication succeeds, a rollback restores the root, retention finishes. */
module PublicationRollback {
  import opened BackupRoot
  import opened Publication
  import opened PublicationSafety
  import opened PublicationHistory
  import Retention

  predicate IsUndoing(pc: Pc) {
    IsRestoring(pc) || IsDemoting(pc)
  }

  predicate IsRetaining(pc: Pc) {
    pc.ListSets? || pc.DeleteSet? || pc.SyncDeleted? || pc.Succeeded?
  }

  /** A call that does as asked. */
  predicate Well(e: Event) {
    e.Continue? && e.o.end.Done?
  }

  ghost predicate AllWell(events: seq<Event>) {
    forall i :: 0 <= i < |events| ==> Well(events[i])
  }

  /** The calls that did not. */
  function Failures(events: seq<Event>): nat {
    if events == [] then 0
    else Failures(events[..|events| - 1]) + if Well(events[|events| - 1]) then 0 else 1
  }

  lemma OneFailureMore(events: seq<Event>, e: Event)
    ensures Failures(events + [e]) == Failures(events) + if Well(e) then 0 else 1
  {
    assert (events + [e])[..|events|] == events;
  }

  lemma OneLess(m: Machine, events: seq<Event>)
    requires events != [] && AllWell(events)
    ensures var n := |events| - 1;
      AllWell(events[..n]) && Well(events[n]) && Replay(m, events) == Step(Replay(m, events[..n]), events[n].o)
  {
  }

  lemma {:induction false} ReplaySplit(m: Machine, a: seq<Event>, b: seq<Event>)
    ensures Replay(m, a + b) == Replay(Replay(m, a), b)
    decreases |b|
  {
    hide Apply;
    if b == [] {
      assert a + b == a;
    } else {
      ReplaySplit(m, a, b[..|b| - 1]);
      assert (a + b)[..|a + b| - 1] == a + b[..|b| - 1];
    }
  }

  // ---------- the rollback ----------

  /** The rollback will need its private file, to put the earlier marker back. */
  predicate NeedsFile(m: Machine) {
    m.run.previous.Found? && (m.pc.WriteRollback? || (m.pc.RereadMarker? && ReadMarker(m.disk.view) != m.run.previous))
  }

  predicate Blocked(m: Machine) {
    NeedsFile(m) && Rollback(m.run.job.nonce) in m.disk.view
  }

  /** Everything there was to undo so far has been undone. */
  ghost predicate Clean(m: Machine) {
    && Inv(m) && m.undone && !Blocked(m)
    && (m.pc.RolledBack? || (IsUndoing(m.pc) && !m.pc.RemoveRollback?))
  }

  /** The most calls that are left of a rollback. */
  function Left(pc: Pc): nat {
    if pc.RereadMarker? then 7 else if pc.WriteRollback? then 6 else if pc.ReplaceRollback? || pc.UnlinkMarker? then 5
    else if pc.SyncRestored? then 4 else if pc.Demote? || pc.RemoveRollback? then 3 else if pc.SyncDemoted? then 2
    else if pc.RemoveTemp? then 1 else 0
  }

  lemma RestoringGoesOn(m: Machine, o: Outcome)
    requires Clean(m) && o.end.Done?
    requires m.pc.RereadMarker? || m.pc.UnlinkMarker? || m.pc.WriteRollback? || m.pc.ReplaceRollback?
    ensures var after := Step(m, o);
      after.undone && !Blocked(after) && IsUndoing(after.pc) && !after.pc.RemoveRollback? && Left(after.pc) < Left(m.pc)
    ensures IsRestoring(Step(m, o).pc)
  {
    hide CrashSafe, SetStays, PreviousStays;
    if m.pc.RereadMarker? {
      RereadFacts(m);
    }
  }

  /** What the rollback finds: the marker is the earlier one or this run's, and the earlier one can still be trusted. */
  lemma RereadFacts(m: Machine)
    requires Inv(m) && m.pc.RereadMarker?
    ensures var v, run := m.disk.view, m.run;
      && !run.previous.Unreadable? && run.previous != Found(MetadataOf(run.job))
      && (ReadMarker(v) == run.previous || ReadMarker(v) == Found(MetadataOf(run.job)))
      && (run.previous.Found? ==> TrustedMarker(run.previous.bytes, v))
  {
    RereadTells(m.disk, m.run);
    assert m.disk.view in m.disk.since;
  }

  lemma DemotingGoesOn(m: Machine, o: Outcome)
    requires Clean(m) && o.end.Done?
    requires m.pc.SyncRestored? || IsDemoting(m.pc)
    ensures var after := Step(m, o);
      && after.undone && !Blocked(after) && Left(after.pc) < Left(m.pc)
      && (after.pc.RolledBack? || (IsUndoing(after.pc) && !after.pc.RemoveRollback?))
    ensures m.pc.SyncRestored? ==> Step(m, o).pc.Demote?
  {
    hide CrashSafe, SetStays, PreviousStays;
    if m.pc.Demote? {
      var src, dst := Final(m.run.job.setName), Partial(m.run.job.setName);
      assert Entry(m.disk.view, dst) == Entry(Promoted(m.run), dst) || Entry(m.disk.view, src) == Entry(m.run.prior, src);
      hide Rename;
    }
  }

  lemma RollbackGoesOn(m: Machine, o: Outcome)
    requires Clean(m) && o.end.Done?
    ensures Clean(Step(m, o)) && Step(m, o).run == m.run
    ensures !m.pc.RolledBack? ==> Left(Step(m, o).pc) < Left(m.pc)
  {
    StepKeeps(m, o);
    if m.pc.RereadMarker? || m.pc.UnlinkMarker? || m.pc.WriteRollback? || m.pc.ReplaceRollback? {
      RestoringGoesOn(m, o);
    } else if !m.pc.RolledBack? {
      DemotingGoesOn(m, o);
    }
  }

  lemma {:induction false} RollbackRuns(m: Machine, log: seq<Event>)
    requires Clean(m) && AllWell(log)
    ensures var r := Replay(m, log); Clean(r) && r.run == m.run && (r.pc.RolledBack? || Left(r.pc) + |log| <= Left(m.pc))
    decreases |log|
  {
    hide Clean, Step, Replay, Apply, Left;
    if log == [] {
      assert Replay(m, log) == m by { ReplayNothing(m); }
    } else {
      OneLess(m, log);
      RollbackRuns(m, log[..|log| - 1]);
      RollbackGoesOn(Replay(m, log[..|log| - 1]), log[|log| - 1].o);
      assert Replay(m, log[..|log| - 1]).pc.RolledBack? ==> Replay(m, log).pc.RolledBack? by {
        EndedStays(Replay(m, log[..|log| - 1]), log[|log| - 1].o);
      }
    }
  }

  lemma ReplayNothing(m: Machine)
    ensures Replay(m, []) == m
  {
  }

  lemma EndedStays(m: Machine, o: Outcome)
    ensures Ended(m.pc) ==> Step(m, o) == m
  {
  }

  /** A rollback that could undo everything so far and whose calls all do as asked ends with the earlier entries restored,
      unless it needs its private file and that name is taken; then it does not. */
  lemma FaultlessRollbackExactly(m: Machine, log: seq<Event>)
    requires Inv(m) && m.undone && IsUndoing(m.pc) && !m.pc.RemoveRollback?
    requires AllWell(log) && |log| >= 7
    ensures var r := Replay(m, log);
      r.pc.RolledBack? && (r.disk.view == r.run.prior - {Temp(r.run.job.nonce)} <==> !Blocked(m))
  {
    hide Inv, Step, Replay;
    if Blocked(m) {
      BlockedRuns(m, log);
    } else {
      RollbackRuns(m, log);
    }
    ReplayKeeps(m, log);
    RolledBackExactly(Replay(m, log));
  }

  /** The rollback has given up, or is bound to. */
  ghost predicate GivesUp(m: Machine) {
    && Inv(m)
    && (|| (Blocked(m) && m.undone) || m.pc.RemoveRollback?
        || (!m.undone && (m.pc.RemoveTemp? || m.pc.RolledBack?)))
  }

  lemma GivingUpGoesOn(m: Machine, o: Outcome)
    requires GivesUp(m) && o.end.Done?
    ensures GivesUp(Step(m, o)) && (!m.pc.RolledBack? ==> Left(Step(m, o).pc) < Left(m.pc))
  {
    StepKeeps(m, o);
    hide Inv;
    if m.pc.RereadMarker? {
      RereadFacts(m);
      BlockedRereadGivesUp(m, o);
    } else {
      hide ReadMarker;
    }
  }

  lemma BlockedRereadGivesUp(m: Machine, o: Outcome)
    requires m.pc.RereadMarker? && Blocked(m) && m.undone && o.end.Done?
    requires var v, run := m.disk.view, m.run;
      && run.previous != Found(MetadataOf(run.job)) && TrustedMarker(run.previous.bytes, v)
      && (ReadMarker(v) == run.previous || ReadMarker(v) == Found(MetadataOf(run.job)))
    ensures var after := Step(m, o); after.pc.WriteRollback? && Blocked(after) && after.undone
  {
    hide ReadMarker, TrustedMarker;
  }

  lemma {:induction false} BlockedRuns(m: Machine, log: seq<Event>)
    requires GivesUp(m) && AllWell(log)
    ensures var r := Replay(m, log); GivesUp(r) && (r.pc.RolledBack? || Left(r.pc) + |log| <= Left(m.pc))
    decreases |log|
  {
    hide GivesUp, Step, Replay, Apply, Left;
    if log == [] {
      ReplayNothing(m);
    } else {
      var n := |log| - 1;
      OneLess(m, log);
      BlockedRuns(m, log[..n]);
      GivingUpGoesOn(Replay(m, log[..n]), log[n].o);
      EndedStays(Replay(m, log[..n]), log[n].o);
    }
  }

  /** Publication and the reading of the earlier marker before it. */
  predicate IsTrying(pc: Pc) {
    pc.ReadPrevious? || IsPublishing(pc)
  }

  /** When a call of the publication raises, nothing has gone wrong with undoing it yet. */
  lemma HandlerStartsClean(m: Machine, o: Outcome)
    requires Inv(m) && IsTrying(m.pc) && IsUndoing(Step(m, o).pc)
    requires Rollback(m.run.job.nonce) !in m.disk.view
    ensures Clean(Step(m, o)) && Step(m, o).run.job == m.run.job
  {
    StepKeeps(m, o);
    if IsPublishing(m.pc) {
      PublishingIsUndone(m);
    }
    hide Inv, ReadMarker;
  }

  lemma PublishingIsUndone(m: Machine)
    requires Inv(m) && IsPublishing(m.pc)
    ensures m.undone
  {
  }

  /** One call of a publication raises, with or without its effect, and every later call does as asked: then the root is as it
      was when publication began, whether or not there was an earlier marker. */
  lemma OneFailureIsUndone(m: Machine, o: Outcome, log: seq<Event>)
    requires Inv(m) && IsTrying(m.pc) && IsUndoing(Step(m, o).pc)
    requires Rollback(m.run.job.nonce) !in m.disk.view
    requires AllWell(log) && |log| >= 7
    ensures var r := Replay(m, [Continue(o)] + log);
      r.pc.RolledBack? && r.disk.view == r.run.prior - {Temp(r.run.job.nonce)}
  {
    hide Inv, Step, Replay, Blocked;
    HandlerStartsClean(m, o);
    ReplaySplit(m, [Continue(o)], log);
    assert Replay(m, [Continue(o)]) == Step(m, o) by {
      ReplayOne(m, o);
    }
    FaultlessRollbackExactly(Step(m, o), log);
  }

  lemma ReplayOne(m: Machine, o: Outcome)
    ensures Replay(m, [Continue(o)]) == Step(m, o)
  {
    assert [Continue(o)][..0] == [];
  }

  // ---------- a whole publication ----------

  /** From its handler on, every call does as asked. */
  ghost predicate HandlerWell(m: Machine, log: seq<Event>) {
    forall k :: 0 <= k < |log| && IsUndoing(Replay(m, log[..k]).pc) ==> Well(log[k])
  }

  ghost predicate OnlyCalls(log: seq<Event>) {
    forall k :: 0 <= k < |log| ==> log[k].Continue?
  }

  lemma TryingGoesOn(m: Machine, o: Outcome)
    requires Inv(m) && IsTrying(m.pc) && Rollback(m.run.job.nonce) !in m.disk.view
    requires !IsUndoing(Step(m, o).pc)
    ensures var after := Step(m, o);
      && Inv(after) && after.run.job == m.run.job
      && (after.pc.ListSets? || (IsTrying(after.pc) && Rollback(after.run.job.nonce) !in after.disk.view))
  {
    StepKeeps(m, o);
    hide Inv, ReadMarker;
  }

  /** A run that publishes, undoes or has published, and has undone what it could. */
  ghost predicate OnCourse(m: Machine) {
    || Clean(m)
    || (Inv(m) && IsTrying(m.pc) && Rollback(m.run.job.nonce) !in m.disk.view)
    || IsRetaining(m.pc) || m.pc.RetentionFailed?
  }

  lemma StaysOnCourse(m: Machine, o: Outcome)
    requires OnCourse(m) && (IsUndoing(m.pc) ==> o.end.Done?)
    ensures OnCourse(Step(m, o))
  {
    if IsTrying(m.pc) {
      hide Inv, Step, ReadMarker;
      if IsUndoing(Step(m, o).pc) {
        HandlerStartsClean(m, o);
      } else {
        TryingGoesOn(m, o);
      }
    } else if IsUndoing(m.pc) {
      RollbackGoesOn(m, o);
    } else {
      hide Inv;
      RetentionStays(m, o);
    }
  }

  lemma RetentionStays(m: Machine, o: Outcome)
    requires IsRetaining(m.pc) || Ended(m.pc)
    ensures if Ended(m.pc) then Step(m, o) == m else IsRetaining(Step(m, o).pc) || Step(m, o).pc.RetentionFailed?
  {
  }

  lemma {:induction false} CourseIsKept(m: Machine, log: seq<Event>)
    requires OnCourse(m) && OnlyCalls(log) && HandlerWell(m, log)
    ensures OnCourse(Replay(m, log))
    decreases |log|
  {
    hide OnCourse, Step;
    if log != [] {
      var n := |log| - 1;
      forall k | 0 <= k <= n
        ensures log[..n][..k] == log[..k]
      {
      }
      CourseIsKept(m, log[..n]);
      StaysOnCourse(Replay(m, log[..n]), log[n].o);
    }
  }

  /** A publication that raised, and none of whose rollback calls failed, leaves exactly the entries it found. */
  lemma RaisedPublicationIsUndone(m: Machine, log: seq<Event>)
    requires Inv(m) && m.pc.ReadPrevious? && Rollback(m.run.job.nonce) !in m.disk.view
    requires OnlyCalls(log) && HandlerWell(m, log) && Replay(m, log).pc.RolledBack?
    ensures var r := Replay(m, log); r.undone && r.disk.view == r.run.prior - {Temp(r.run.job.nonce)}
  {
    hide Inv, Replay, Blocked;
    CourseIsKept(m, log);
    RolledBackExactly(Replay(m, log));
  }

  // ---------- going forward ----------

  /** Nothing in the way of the publication. */
  ghost predicate Unhindered(m: Machine) {
    && Inv(m)
    && (|| (IsTrying(m.pc) && (m.pc.ReadPrevious? || m.pc.WriteTemp? ==> Temp(m.run.job.nonce) !in m.disk.view))
        || (IsRetaining(m.pc) && m.run.job.retention > 0))
  }

  lemma ForwardGoesOn(m: Machine, o: Outcome)
    requires Unhindered(m) && m.run.job.retention > 0 && o.end.Done?
    ensures Unhindered(Step(m, o)) && Step(m, o).run.job == m.run.job
  {
    StepKeeps(m, o);
    if IsTrying(m.pc) {
      PublicationGoesOn(m, o);
    } else {
      RetentionGoesOn(m, o);
    }
    hide Inv, Step, ReadMarker;
  }

  lemma PublicationGoesOn(m: Machine, o: Outcome)
    requires Unhindered(m) && IsTrying(m.pc) && o.end.Done?
    ensures var after := Step(m, o);
      && (after.pc.ListSets? || IsPublishing(after.pc)) && after.run.job == m.run.job
      && (after.pc.WriteTemp? ==> Temp(m.run.job.nonce) !in after.disk.view)
  {
    if m.pc.ReadPrevious? {
      ReadingSucceeds(m);
    }
    hide CrashSafe, Unclaimed, SetStays, PreviousStays, ReadMarker;
  }

  lemma ReadingSucceeds(m: Machine)
    requires Inv(m) && m.pc.ReadPrevious?
    ensures !ReadMarker(m.disk.view).Unreadable?
  {
    assert m.disk.view in m.disk.since;
    if Marker in m.disk.view {
      MarkerIsAccepted(m.disk.view);
    }
  }

  /** The calls that are left of retention. */
  ghost function ToDelete(m: Machine): int {
    if m.pc.ListSets? && m.run.job.retention > 0 then
      |Retention.Doomed(TrustedSets(m.disk.view), m.run.job.retention, m.run.job.setName)| + 2
    else if m.pc.DeleteSet? then |m.run.plan.doomed| - m.run.deleted + 1
    else if m.pc.SyncDeleted? then 1 else 0
  }

  lemma RetentionGoesOn(m: Machine, o: Outcome)
    requires Unhindered(m) && m.run.job.retention > 0 && IsRetaining(m.pc) && o.end.Done?
    ensures var after := Step(m, o);
      && IsRetaining(after.pc) && after.run.job == m.run.job
      && (after.pc.Succeeded? || ToDelete(after) < ToDelete(m))
  {
    if m.pc.ListSets? {
      MayRetainPublished(m, o);
      ListingGoesOn(m, o);
    } else if m.pc.DeleteSet? {
      SomeAreLeft(m);
      DeletingGoesOn(m, o);
    } else {
      hide Inv, Unhindered;
    }
  }

  lemma ListingGoesOn(m: Machine, o: Outcome)
    requires m.pc.ListSets? && m.run.job.retention > 0 && MayRetain(m.disk.view, m.run.job, o)
    ensures var after := Step(m, o);
      && IsRetaining(after.pc) && after.run.job == m.run.job
      && (after.pc.Succeeded? || ToDelete(after) < ToDelete(m))
  {
    hide MayRetain, TrustedSets, Retention.Doomed;
  }

  /** The published set is trusted, and the marker is its own metadata. */
  lemma MayRetainPublished(m: Machine, o: Outcome)
    requires Inv(m) && m.pc.ListSets? && m.run.job.retention > 0 && o.end.Done?
    ensures MayRetain(m.disk.view, m.run.job, o)
  {
    assert m.disk.view in m.disk.since;
  }

  lemma SomeAreLeft(m: Machine)
    requires Inv(m) && m.pc.DeleteSet?
    ensures m.run.deleted < |m.run.plan.doomed|
  {
  }

  lemma DeletingGoesOn(m: Machine, o: Outcome)
    requires m.pc.DeleteSet? && m.run.deleted < |m.run.plan.doomed| && o.end.Done?
    ensures var after := Step(m, o);
      IsRetaining(after.pc) && after.run.job == m.run.job && ToDelete(after) < ToDelete(m)
  {
    assert Step(m, o) == StepDeleting(m, o) by {
      hide StepDeleting;
    }
    hide Step;
    var after := StepDeleting(m, o);
    assert after.run == m.run.(deleted := m.run.deleted + 1);
    assert after.pc == if after.run.deleted == |m.run.plan.doomed| then SyncDeleted else DeleteSet;
  }

  /** If no call fails, retention deletes one doomed set after the other and succeeds. */
  lemma {:induction false} FaultlessRetentionSucceeds(m: Machine, log: seq<Event>)
    requires Unhindered(m) && m.run.job.retention > 0 && IsRetaining(m.pc) && AllWell(log)
    ensures var r := Replay(m, log);
      && IsRetaining(r.pc) && (r.pc.Succeeded? || ToDelete(r) + |log| <= ToDelete(m))
      && (|log| >= ToDelete(m) ==> r.pc.Succeeded?)
    decreases |log|
  {
    hide Unhindered, Step, Replay, ToDelete, IsRetaining;
    if log == [] {
      ReplayNothing(m);
      SucceededIsLast(m);
    } else {
      var n := |log| - 1;
      OneLess(m, log);
      FaultlessRetentionSucceeds(m, log[..n]);
      FaultlessNeverRaises(m, log[..n]);
      RetentionGoesOn(Replay(m, log[..n]), log[n].o);
      EndedStays(Replay(m, log[..n]), log[n].o);
      FaultlessNeverRaises(m, log);
      SucceededIsLast(Replay(m, log));
    }
  }

  lemma SucceededIsLast(m: Machine)
    requires Unhindered(m) && m.run.job.retention > 0 && IsRetaining(m.pc)
    ensures ToDelete(m) >= 0 && (ToDelete(m) == 0 <==> m.pc.Succeeded?)
  {
  }

  /** If no call fails and the temporary name is free, publication does not raise, and neither does retention. */
  lemma {:induction false} FaultlessNeverRaises(m: Machine, log: seq<Event>)
    requires Unhindered(m) && m.run.job.retention > 0 && AllWell(log)
    ensures var r := Replay(m, log); Unhindered(r) && r.run.job == m.run.job
    decreases |log|
  {
    hide Unhindered, Step, Replay;
    if log == [] {
      ReplayNothing(m);
    } else {
      OneLess(m, log);
      FaultlessNeverRaises(m, log[..|log| - 1]);
      ForwardGoesOn(Replay(m, log[..|log| - 1]), log[|log| - 1].o);
    }
  }
}
