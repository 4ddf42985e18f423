/** A published marker is for good: whatever happens later, the root names that set or one begun afterwards. */
module PublicationDurability {
  import opened BackupRoot
  import opened Publication
  import opened PublicationSafety
  import opened PublicationHistory

  /** Every view a power cut could draw on has a marker naming one of these sets. */
  ghost predicate Names(disk: Disk, sets: set<string>) {
    forall a: Dir :: a in disk.since ==>
      Marker in a && a[Marker].File? && a[Marker].bytes.Json? && a[Marker].bytes.metadata.setName in sets
  }

  predicate KnowsPrevious(pc: Pc) {
    IsPublishing(pc) || IsRestoring(pc)
  }

  ghost predicate Lasting(m: Machine, sets: set<string>) {
    && Inv(m) && Names(m.disk, sets)
    && (!Ended(m.pc) ==> m.run.job.setName in sets)
    && (KnowsPrevious(m.pc) ==>
          m.run.previous.Found? && m.run.previous.bytes.Json? && m.run.previous.bytes.metadata.setName in sets)
  }

  /** The marker of the live view is not touched. */
  ghost predicate LeavesMarker(disk: Disk, after: Disk) {
    after.since <= disk.since + {after.view} && Entry(after.view, Marker) == Entry(disk.view, Marker)
  }

  lemma LeavingKeepsNames(disk: Disk, after: Disk, sets: set<string>)
    requires Names(disk, sets) && disk.view in disk.since && LeavesMarker(disk, after)
    ensures Names(after, sets)
  {
  }

  lemma BuildingLeaves(disk: Disk, pc: Pc, job: Job, o: Outcome)
    ensures LeavesMarker(disk, StepBuilding(disk, pc, job, o).disk)
    ensures IsBuilding(pc) ==> !KnowsPrevious(StepBuilding(disk, pc, job, o).pc)
  {
  }

  lemma PublishingLeaves(disk: Disk, pc: Pc, job: Job, o: Outcome)
    requires !pc.SwapMarker?
    ensures LeavesMarker(disk, StepPublishing(disk, pc, job, o).disk)
  {
  }

  lemma RestoringLeaves(disk: Disk, pc: Pc, run: Run, o: Outcome)
    requires !pc.UnlinkMarker? && !pc.ReplaceRollback?
    ensures LeavesMarker(disk, StepRestoring(disk, pc, run, o).disk)
  {
  }

  lemma DemotingLeaves(disk: Disk, pc: Pc, job: Job, o: Outcome)
    ensures LeavesMarker(disk, StepDemoting(disk, pc, job, o).disk)
    ensures IsDemoting(pc) ==> !KnowsPrevious(StepDemoting(disk, pc, job, o).pc)
  {
  }

  lemma DeletingLeaves(m: Machine, o: Outcome)
    requires m.run.deleted < |m.run.plan.doomed|
    ensures LeavesMarker(m.disk, StepDeleting(m, o).disk)
    ensures !KnowsPrevious(StepDeleting(m, o).pc)
  {
  }

  /** Only the swap and the two ways of undoing it touch the marker. */
  lemma EffectLeavesMarker(m: Machine, o: Outcome)
    requires !m.pc.SwapMarker? && !m.pc.UnlinkMarker? && !m.pc.ReplaceRollback?
    ensures LeavesMarker(m.disk, Step(m, o).disk)
  {
    if IsBuilding(m.pc) {
      BuildingLeaves(m.disk, m.pc, m.run.job, o);
    } else if IsPublishing(m.pc) {
      PublishingLeaves(m.disk, m.pc, m.run.job, o);
    } else if IsRestoring(m.pc) {
      RestoringLeaves(m.disk, m.pc, m.run, o);
    } else if IsDemoting(m.pc) {
      DemotingLeaves(m.disk, m.pc, m.run.job, o);
    } else if m.pc.DeleteSet? && m.run.deleted < |m.run.plan.doomed| {
      DeletingLeaves(m, o);
    }
  }

  lemma MarkerStepsKeepNames(m: Machine, o: Outcome, sets: set<string>)
    requires Lasting(m, sets) && (m.pc.SwapMarker? || m.pc.UnlinkMarker? || m.pc.ReplaceRollback?)
    ensures Names(Step(m, o).disk, sets)
  {
  }

  lemma StepLasts(m: Machine, o: Outcome, sets: set<string>)
    requires Lasting(m, sets)
    ensures Lasting(Step(m, o), sets)
  {
    StepKeeps(m, o);
    if m.pc.SwapMarker? || m.pc.UnlinkMarker? || m.pc.ReplaceRollback? {
      MarkerStepsKeepNames(m, o, sets);
    } else {
      EffectLeavesMarker(m, o);
      LeavingKeepsNames(m.disk, Step(m, o).disk, sets);
    }
    RunStays(m, o);
    if KnowsPrevious(Step(m, o).pc) {
      PreviousIsReadOnce(m, o);
    }
    if m.pc.ReadPrevious? {
      assert m.disk.view in m.disk.since;
    }
  }

  /** A step keeps the job, and the previous marker once it is read. */
  lemma RunStays(m: Machine, o: Outcome)
    ensures var after := Step(m, o);
      && after.run.job == m.run.job
      && (!m.pc.ReadPrevious? ==> after.run.previous == m.run.previous)
      && (Ended(m.pc) ==> after == m)
  {
  }

  lemma PreviousIsReadOnce(m: Machine, o: Outcome)
    requires KnowsPrevious(Step(m, o).pc)
    ensures m.pc.ReadPrevious? || KnowsPrevious(m.pc)
  {
    if IsBuilding(m.pc) {
      BuildingLeaves(m.disk, m.pc, m.run.job, o);
    } else if IsDemoting(m.pc) {
      DemotingLeaves(m.disk, m.pc, m.run.job, o);
    } else if m.pc.DeleteSet? && m.run.deleted < |m.run.plan.doomed| {
      DeletingLeaves(m, o);
    }
  }

  ghost function Begun(events: seq<Event>): set<string> {
    set e | e in events && e.Begin? :: e.job.setName
  }

  lemma {:induction false} ReplayLasts(m: Machine, sets: set<string>, events: seq<Event>)
    requires Lasting(m, sets)
    ensures Lasting(Replay(m, events), sets + Begun(events))
    decreases |events|
  {
    if events != [] {
      var front, last := events[..|events| - 1], events[|events| - 1];
      ReplayLasts(m, sets, front);
      assert last in events && forall e :: e in front ==> e in events;
      assert Begun(front) <= Begun(events);
      assert last.Begin? ==> last.job.setName in Begun(events);
      ApplyLasts(Replay(m, front), sets + Begun(events), last);
    }
  }

  lemma ApplyLasts(m: Machine, sets: set<string>, e: Event)
    requires Lasting(m, sets)
    requires e.Begin? ==> e.job.setName in sets
    ensures Lasting(Apply(m, e), sets)
  {
    ApplyKeeps(m, e);
    if e.Continue? {
      StepLasts(m, e.o, sets);
    } else if e.PowerCut? && CanLeave(m.disk, e.after) {
      PowerCutKeepsMarker(m.disk, e.after);
    }
  }

  /** Once a publication has returned, no later history of runs, kills and power cuts takes the marker away or
      turns it back to an older set. */
  lemma PublishedMarkerStays(m0: Machine, before: seq<Event>, later: seq<Event>, after: Dir)
    requires AtRest(m0) && Replay(m0, before).pc.ListSets?
    requires var m := Replay(Replay(m0, before), later); after == m.disk.view || CanLeave(m.disk, after)
    ensures Marker in after && after[Marker].File? && Backed(after[Marker].bytes, after)
    ensures after[Marker].bytes.metadata.setName in {Replay(m0, before).run.job.setName} + Begun(later)
  {
    ReplayKeeps(m0, before);
    var published := Replay(m0, before);
    var first := {published.run.job.setName};
    assert Lasting(published, first);
    ReplayLasts(published, first, later);
    var m := Replay(published, later);
    assert m.disk.view in m.disk.since;
    if after != m.disk.view {
      PowerCutKeepsMarker(m.disk, after);
    }
  }

  ghost predicate InEveryView(disk: Disk) {
    forall d :: d in disk.since ==> Marker in d
  }

  ghost predicate NeverWithoutMarker(m: Machine) {
    forall later :: Marker in Replay(m, later).disk.view
  }

  /** Between runs, no later history of runs, kills and power cuts is ever without a marker if and only if every view
      since the last sync has one. */
  lemma MarkerLastsExactly(m: Machine)
    requires Inv(m) && Ended(m.pc)
    ensures InEveryView(m.disk) <==> NeverWithoutMarker(m)
  {
    hide Replay, Inv;
    if InEveryView(m.disk) {
      forall later
        ensures Marker in Replay(m, later).disk.view
      {
        MarkerLasts(m, later);
      }
    } else {
      var d :| d in m.disk.since && Marker !in d;
      CutTo(m, d);
    }
  }

  lemma MarkerLasts(m: Machine, later: seq<Event>)
    requires Inv(m) && Ended(m.pc) && InEveryView(m.disk)
    ensures Marker in Replay(m, later).disk.view
  {
    var sets := set d: Dir | d in m.disk.since && d[Marker].File? && d[Marker].bytes.Json?
                  :: d[Marker].bytes.metadata.setName;
    forall d: Dir | d in m.disk.since
      ensures d[Marker].File? && d[Marker].bytes.Json? && d[Marker].bytes.metadata.setName in sets
    {
      assert Backed(d[Marker].bytes, d);
    }
    hide Replay;
    ReplayLasts(m, sets, later);
    var after := Replay(m, later);
    assert after.disk.view in after.disk.since;
  }

  /** A power cut can bring back any view since the last sync. */
  lemma CutTo(m: Machine, d: Dir)
    requires d in m.disk.since
    ensures Replay(m, [PowerCut(d)]).disk.view == d
  {
    assert [PowerCut(d)][..0] == [];
    assert CanLeave(m.disk, d);
  }

  /** A marker present between runs is present in every state of every later history without a power cut, and in every
      later history at all if every view since the last sync has one. */
  lemma LaterRunsKeepTheMarker(m0: Machine, before: seq<Event>, later: seq<Event>)
    requires AtRest(m0)
    requires var m := Replay(m0, before); Ended(m.pc) && Marker in m.disk.view
    requires InEveryView(Replay(m0, before).disk) || forall e :: e in later ==> !e.PowerCut?
    ensures Marker in Replay(Replay(m0, before), later).disk.view
  {
    ReplayKeeps(m0, before);
    var m := Replay(m0, before);
    if InEveryView(m.disk) {
      MarkerLasts(m, later);
    } else {
      assert m.disk.view in m.disk.since;
      LiveMarkerStays(m, later);
    }
  }

  ghost predicate LiveMarker(m: Machine) {
    Inv(m) && Marker in m.disk.view && (KnowsPrevious(m.pc) ==> m.run.previous.Found?)
  }

  lemma {:induction false} LiveMarkerStays(m: Machine, events: seq<Event>)
    requires LiveMarker(m)
    requires forall e :: e in events ==> !e.PowerCut?
    ensures LiveMarker(Replay(m, events))
    decreases |events|
  {
    hide Step, CrashSafe, Holds;
    if events != [] {
      var front, last := events[..|events| - 1], events[|events| - 1];
      assert last in events && forall e :: e in front ==> e in events;
      LiveMarkerStays(m, front);
      var now := Replay(m, front);
      ApplyKeeps(now, last);
      if last.Continue? {
        RunStays(now, last.o);
        LiveMarkerSteps(now, last.o);
      }
    }
  }

  lemma LiveMarkerSteps(m: Machine, o: Outcome)
    requires LiveMarker(m)
    ensures Marker in Step(m, o).disk.view
    ensures KnowsPrevious(Step(m, o).pc) ==> Step(m, o).run.previous.Found?
  {
    RunStays(m, o);
    if KnowsPrevious(Step(m, o).pc) {
      PreviousIsReadOnce(m, o);
    }
    if !m.pc.SwapMarker? && !m.pc.UnlinkMarker? && !m.pc.ReplaceRollback? {
      EffectLeavesMarker(m, o);
    }
  }
}
