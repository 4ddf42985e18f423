/** Runs that do happen: one none of whose calls fails publishes its set, and the failures that the exact conditions
    of the protocol leave open can be reached. */
module PublicationProgress {
  import opened BackupRoot
  import opened Publication
  import opened PublicationSafety
  import opened PublicationHistory
  import opened PublicationDurability

  function Ending(end: End): Outcome {
    Outcome(end, File(Junk(0), true))
  }

  function AsAsked(): Outcome {
    Ending(Done)
  }

  /** How many calls are left until the set is published. */
  function Ahead(pc: Pc): nat {
    if pc.MakePartial? then 12 else if pc.CheckFinal? then 11 else if pc.FillPayload? then 10
    else if pc.WriteManifest? then 9 else if pc.WriteBackup? then 8 else if pc.SettleTree? then 7
    else if pc.ReadPrevious? then 6 else if pc.WriteTemp? then 5 else if pc.Promote? then 4
    else if pc.SyncPromoted? then 3 else if pc.SwapMarker? then 2 else if pc.SyncMarker? then 1 else 0
  }

  lemma AheadTells(pc: Pc)
    ensures pc.ListSets? ==> Ahead(pc) == 0
    ensures pc.WriteTemp? ==> Ahead(pc) == 5
    ensures pc.SwapMarker? ==> Ahead(pc) == 2
  {
  }

  predicate GoingForward(pc: Pc) {
    IsBuilding(pc) || pc.ReadPrevious? || IsPublishing(pc) || pc.ListSets?
  }

  /** The directory names the run is about to create are free. */
  predicate Free(m: Machine) {
    var v, job := m.disk.view, m.run.job;
    && (m.pc.MakePartial? ==> Partial(job.setName) !in v)
    && (m.pc.MakePartial? || m.pc.CheckFinal? ==> Final(job.setName) !in v)
  }

  /** One call nearer to publication. */
  ghost predicate Advances(m: Machine, after: Machine) {
    && Free(after) && after.run.job == m.run.job && GoingForward(after.pc) && Ahead(after.pc) == Ahead(m.pc) - 1
    && (Ahead(m.pc) > 5 ==>
          Entry(after.disk.view, Temp(m.run.job.nonce)) == Entry(m.disk.view, Temp(m.run.job.nonce)))
  }

  lemma BuildsOn(m: Machine)
    requires Inv(m) && Free(m) && IsBuilding(m.pc)
    ensures Advances(m, Step(m, AsAsked()))
  {
    hide Inv;
  }

  lemma ReadsOn(m: Machine)
    requires Inv(m) && Free(m) && m.pc.ReadPrevious?
    ensures Advances(m, Step(m, AsAsked()))
  {
    hide Holds;
    assert m.disk.view in m.disk.since;
  }

  lemma PublishesOn(m: Machine)
    requires Inv(m) && Free(m) && IsPublishing(m.pc)
    requires m.pc.WriteTemp? ==> Temp(m.run.job.nonce) !in m.disk.view
    ensures Advances(m, Step(m, AsAsked()))
  {
    assert m.disk.view in m.disk.since;
  }

  lemma GoesOn(m: Machine)
    requires Inv(m) && Free(m) && GoingForward(m.pc) && !m.pc.ListSets?
    requires m.pc.WriteTemp? ==> Temp(m.run.job.nonce) !in m.disk.view
    ensures Advances(m, Step(m, AsAsked()))
    ensures !m.pc.SwapMarker? ==> Entry(Step(m, AsAsked()).disk.view, Marker) == Entry(m.disk.view, Marker)
  {
    hide Inv, Free, Step, Advances;
    if IsBuilding(m.pc) {
      BuildsOn(m);
    } else if m.pc.ReadPrevious? {
      ReadsOn(m);
    } else {
      PublishesOn(m);
    }
    if !m.pc.SwapMarker? {
      EffectLeavesMarker(m, AsAsked());
    }
  }

  /** Calls that do as asked bring the run to where `left` calls are left. */
  lemma {:induction false} RunOn(m0: Machine, events: seq<Event>, left: nat) returns (all: seq<Event>)
    requires Inv(m0)
    requires var m := Replay(m0, events); Free(m) && GoingForward(m.pc) && left <= Ahead(m.pc)
    requires var m := Replay(m0, events); left < 5 <= Ahead(m.pc) ==> Temp(m.run.job.nonce) !in m.disk.view
    ensures events <= all && (forall i :: |events| <= i < |all| ==> all[i] == Continue(AsAsked()))
    ensures var m, after := Replay(m0, events), Replay(m0, all);
      && Inv(after) && GoingForward(after.pc) && Ahead(after.pc) == left && after.run.job == m.run.job
      && (left >= 5 ==> Entry(after.disk.view, Temp(m.run.job.nonce)) == Entry(m.disk.view, Temp(m.run.job.nonce)))
      && (left >= 2 ==> Entry(after.disk.view, Marker) == Entry(m.disk.view, Marker))
    decreases Ahead(Replay(m0, events).pc)
  {
    hide Inv, Free, Step, Ahead, GoingForward;
    ReplayKeeps(m0, events);
    var m := Replay(m0, events);
    AheadTells(m.pc);
    if Ahead(m.pc) == left {
      all := events;
    } else {
      GoesOn(m);
      var more := events + [Continue(AsAsked())];
      assert more[..|more| - 1] == events;
      all := RunOn(m0, more, left);
    }
  }

  /** A run that starts on free names and whose calls all do as asked comes to have published its set. */
  lemma FaultlessRunPublishes(m0: Machine, events: seq<Event>) returns (all: seq<Event>)
    requires Inv(m0)
    requires var m := Replay(m0, events);
      && Free(m) && GoingForward(m.pc)
      && (Ahead(m.pc) >= 5 ==> Temp(m.run.job.nonce) !in m.disk.view)
    ensures events <= all && (forall i :: |events| <= i < |all| ==> all[i] == Continue(AsAsked()))
    ensures Replay(m0, all).pc.ListSets? && Replay(m0, all).run.job == Replay(m0, events).run.job
    ensures Inspect(Replay(m0, all).disk.view) == Some(Instant(Replay(m0, events).run.job.setName))
  {
    hide Inv, Replay, Free;
    all := RunOn(m0, events, 0);
    ServedIsReadBack(Replay(m0, all), Replay(m0, all).disk.view);
  }

  // ---------- failures that can be reached ----------

  /** A root at rest in which this run can be begun. */
  ghost predicate CanBegin(m0: Machine, job: Job) {
    && AtRest(m0) && Allowed(job)
    && Partial(job.setName) !in m0.disk.view && Final(job.setName) !in m0.disk.view
  }

  lemma Begins(m0: Machine, job: Job)
    requires CanBegin(m0, job)
    ensures Inv(m0)
    ensures var m := Replay(m0, [Begin(job)]);
      m.pc.MakePartial? && m.run.job == job && m.disk == m0.disk && Free(m)
  {
    assert [Begin(job)][..0] == [];
  }

  lemma OneEventMore(m0: Machine, events: seq<Event>, e: Event)
    ensures Replay(m0, events + [e]) == Apply(Replay(m0, events), e)
  {
    assert (events + [e])[..|events|] == events;
  }

  /** An empty root will do for every job. */
  lemma EmptyRootIsAtRest(run: Run, job: Job)
    requires Allowed(job)
    ensures var m0 := Machine(Disk(map[], {map[]}), Idle, run, true);
      CanBegin(m0, job) && Marker !in m0.disk.view && Temp(job.nonce) !in m0.disk.view
  {
  }

  /** In a root without a marker, a run killed after it swapped its marker in, but before the root was synced, leaves a
      marker that a power cut can take away. */
  lemma UnsyncedMarkerCanBeLost(m0: Machine, job: Job) returns (events: seq<Event>, cut: Dir)
    requires CanBegin(m0, job) && Temp(job.nonce) !in m0.disk.view && Marker !in m0.disk.view
    ensures var m := Replay(m0, events);
      Ended(m.pc) && Marker in m.disk.view && CanLeave(m.disk, cut) && Marker !in cut
    ensures Marker !in Replay(m0, events + [PowerCut(cut)]).disk.view
  {
    hide Inv, Replay, Free, Step, CanLeave;
    Begins(m0, job);
    events := RunOn(m0, [Begin(job)], 2);
    var before := Replay(m0, events);
    cut := before.disk.view;
    SwapsIn(before);
    OneEventMore(m0, events, Continue(AsAsked()));
    events := events + [Continue(AsAsked())];
    OneEventMore(m0, events, Kill);
    events := events + [Kill];
    OneEventMore(m0, events, PowerCut(cut));
  }

  lemma SwapsIn(m: Machine)
    requires Inv(m) && m.pc.SwapMarker?
    ensures var after := Step(m, AsAsked());
      Marker in after.disk.view && CanLeave(after.disk, m.disk.view)
  {
    var after := Step(m, AsAsked());
    assert m.disk.view in after.disk.since;
  }

  /** In a root without a marker, a run whose sync fails after it swapped its marker in takes the marker away again. */
  lemma RollbackTakesTheMarkerAway(m0: Machine, job: Job) returns (events: seq<Event>, more: seq<Event>)
    requires CanBegin(m0, job) && Temp(job.nonce) !in m0.disk.view && Marker !in m0.disk.view
    ensures forall e :: e in more ==> e.Continue?
    ensures var m := Replay(m0, events);
      m.pc.SyncMarker? && Marker in m.disk.view && m.disk.view[Marker] == File(MetadataOf(job), true)
    ensures Marker !in Replay(m0, events + more).disk.view
  {
    hide Inv, Replay, Free, Step;
    Begins(m0, job);
    events := RunOn(m0, [Begin(job)], 2);
    SwapIsUndone(Replay(m0, events));
    OneEventMore(m0, events, Continue(AsAsked()));
    events := events + [Continue(AsAsked())];
    var failed, asked := Continue(Ending(FailedBefore)), Continue(AsAsked());
    more := [failed, asked, asked];
    OneEventMore(m0, events, failed);
    OneEventMore(m0, events + [failed], asked);
    OneEventMore(m0, events + [failed] + [asked], asked);
    assert events + more == events + [failed] + [asked] + [asked];
  }

  lemma SwapIsUndone(m: Machine)
    requires Inv(m) && m.pc.SwapMarker? && Marker !in m.disk.view
    ensures var swapped := Step(m, AsAsked());
      && swapped.pc.SyncMarker? && Marker in swapped.disk.view
      && swapped.disk.view[Marker] == File(MetadataOf(m.run.job), true)
      && Marker !in Step(Step(Step(swapped, Ending(FailedBefore)), AsAsked()), AsAsked()).disk.view
  {
    SwapKeeps(m.disk, m.run, AsAsked());
    var swapped := Step(m, AsAsked());
    var failed := Step(swapped, Ending(FailedBefore));
    hide CrashSafe, SetStays, PreviousStays, ReadMarker;
    RereadTells(failed.disk, failed.run);
    var reread := Step(failed, AsAsked());
    assert reread.pc.UnlinkMarker?;
  }

  /** A rollback whose demotion fails leaves the promoted set where it did not find it. */
  lemma FailedDemotionLeavesTheSet(m0: Machine, job: Job) returns (events: seq<Event>)
    requires CanBegin(m0, job) && Temp(job.nonce) !in m0.disk.view
    ensures var m := Replay(m0, events);
      m.pc.RolledBack? && !m.undone && Final(job.setName) in m.disk.view && Final(job.setName) !in m.run.prior
  {
    hide Inv, Replay, Free, Step;
    Begins(m0, job);
    events := RunOn(m0, [Begin(job)], 3);
    DemotionFails(Replay(m0, events));
    OneEventMore(m0, events, Continue(Ending(FailedBefore)));
    events := events + [Continue(Ending(FailedBefore))];
    OneEventMore(m0, events, Continue(Ending(FailedBefore)));
    events := events + [Continue(Ending(FailedBefore))];
    OneEventMore(m0, events, Continue(AsAsked()));
    events := events + [Continue(AsAsked())];
  }

  lemma DemotionFails(m: Machine)
    requires Inv(m) && m.pc.SyncPromoted?
    ensures var after := Step(Step(Step(m, Ending(FailedBefore)), Ending(FailedBefore)), AsAsked());
      && after.pc.RolledBack? && !after.undone
      && Final(m.run.job.setName) in after.disk.view && Final(m.run.job.setName) !in after.run.prior
  {
  }

  /** A file that has the temporary name before the run begins makes publication fail, and is gone afterwards. */
  lemma ForeignTemporaryIsRemoved(m0: Machine, job: Job) returns (events: seq<Event>)
    requires CanBegin(m0, job) && Temp(job.nonce) in m0.disk.view
    ensures var m := Replay(m0, events);
      && m.pc.RolledBack? && m.undone
      && Temp(job.nonce) in m.run.prior && Temp(job.nonce) !in m.disk.view && m.disk.view != m.run.prior
  {
    hide Inv, Replay, Free, Step;
    Begins(m0, job);
    events := RunOn(m0, [Begin(job)], 5);
    TemporaryTaken(Replay(m0, events));
    OneEventMore(m0, events, Continue(AsAsked()));
    events := events + [Continue(AsAsked())];
    OneEventMore(m0, events, Continue(AsAsked()));
    events := events + [Continue(AsAsked())];
  }

  lemma TemporaryTaken(m: Machine)
    requires Inv(m) && m.pc.WriteTemp? && Temp(m.run.job.nonce) in m.disk.view
    ensures var after := Step(Step(m, AsAsked()), AsAsked());
      && after.pc.RolledBack? && after.undone && after.run == m.run
      && Temp(m.run.job.nonce) in m.run.prior && Temp(m.run.job.nonce) !in after.disk.view
  {
  }
}
