/** The invariant of the publication protocol: no stop, failure or power cut strands the marker. */
module PublicationSafety {
  import opened BackupRoot
  import opened Publication
  import Retention

  // ---------- the invariant ----------

  /** No view a power cut could draw on has a marker naming the set of this run. */
  ghost predicate Unclaimed(disk: Disk, job: Job) {
    forall a: Dir :: a in disk.since && Marker in a && a[Marker].File? && a[Marker].bytes.Json?
      ==> a[Marker].bytes.metadata.setName != job.setName
  }

  /** The promoted set is in every such view. */
  ghost predicate SetStays(disk: Disk, job: Job) {
    forall a: Dir :: a in disk.since ==> Final(job.setName) in a && a[Final(job.setName)] == Built(job)
  }

  /** The set of the previous marker, if there was one, is in every such view. */
  ghost predicate PreviousStays(disk: Disk, previous: MarkerRead) {
    previous.Found? ==> forall a: Dir :: a in disk.since ==> Backed(previous.bytes, a)
  }

  ghost predicate BothStay(disk: Disk, run: Run) {
    SetStays(disk, run.job) && PreviousStays(disk, run.previous)
  }

  /** Every such view serves the marker of this run. */
  ghost predicate Served(disk: Disk, job: Job) {
    && SetStays(disk, job)
    && forall a: Dir :: a in disk.since ==> Marker in a && a[Marker] == File(MetadataOf(job), true)
  }

  predicate PartialIs(v: Dir, job: Job, node: Node) {
    Final(job.setName) !in v && Partial(job.setName) in v && v[Partial(job.setName)] == node
  }

  /** What publication relies on from the view it started in. */
  predicate PriorIs(run: Run) {
    && PartialIs(run.prior, run.job, Built(run.job))
    && run.previous == ReadMarker(run.prior) && !run.previous.Unreadable?
    && (Marker in run.prior ==> run.previous.Found? && run.prior[Marker] == File(run.previous.bytes, true))
    && run.previous != Found(MetadataOf(run.job))
  }

  /** The expected views along a publication that meets no failure. */
  function WithTemp(run: Run): Dir {
    run.prior[Temp(run.job.nonce) := File(MetadataOf(run.job), true)]
  }

  function Promoted(run: Run): Dir
    requires PriorIs(run)
  {
    Rename(WithTemp(run), Partial(run.job.setName), Final(run.job.setName))
  }

  function Swapped(run: Run): Dir
    requires PriorIs(run)
  {
    Rename(Promoted(run), Temp(run.job.nonce), Marker)
  }

  ghost predicate SameButTemp(run: Run, a: Dir, b: Dir) {
    forall n :: n != Temp(run.job.nonce) ==> Entry(a, n) == Entry(b, n)
  }

  /** The promoted set is left in place. */
  predicate Stuck(v: Dir, run: Run) {
    Final(run.job.setName) in v && Final(run.job.setName) !in run.prior
  }

  ghost predicate Building(pc: Pc, disk: Disk, job: Job) {
    if pc.CheckFinal? then
      Partial(job.setName) in disk.view && disk.view[Partial(job.setName)] == SetDir(map[], None, None, false)
    else if pc.FillPayload? then Unclaimed(disk, job) && PartialIs(disk.view, job, SetDir(map[], None, None, false))
    else if pc.WriteManifest? then
      Unclaimed(disk, job) && PartialIs(disk.view, job, SetDir(job.payload, None, None, false))
    else if pc.WriteBackup? then
      Unclaimed(disk, job) && PartialIs(disk.view, job, SetDir(job.payload, Some(job.payload), None, false))
    else if pc.SettleTree? then
      && Unclaimed(disk, job)
      && PartialIs(disk.view, job, SetDir(job.payload, Some(job.payload), Some(MetadataOf(job)), false))
    else if pc.ReadPrevious? then Unclaimed(disk, job) && PartialIs(disk.view, job, Built(job))
    else true
  }

  ghost predicate Publishing(pc: Pc, disk: Disk, run: Run)
    requires PriorIs(run)
  {
    if pc.WriteTemp? then Unclaimed(disk, run.job) && disk.view == run.prior
    else if pc.Promote? then
      Unclaimed(disk, run.job) && Temp(run.job.nonce) !in run.prior && disk.view == WithTemp(run)
    else if pc.SyncPromoted? then Unclaimed(disk, run.job) && disk.view == Promoted(run)
    else if pc.SwapMarker? then Unclaimed(disk, run.job) && disk.view == Promoted(run) && disk.since == {disk.view}
    else if pc.SyncMarker? then BothStay(disk, run) && disk.view == Swapped(run)
    else true
  }

  ghost predicate Restoring(pc: Pc, disk: Disk, run: Run)
    requires PriorIs(run)
  {
    if pc.RereadMarker? then BothStay(disk, run) && (disk.view == Promoted(run) || disk.view == Swapped(run))
    else if pc.UnlinkMarker? then BothStay(disk, run) && disk.view == Swapped(run) && run.previous.Missing?
    else if pc.WriteRollback? then BothStay(disk, run) && disk.view == Swapped(run) && run.previous.Found?
    else if pc.ReplaceRollback? then
      && BothStay(disk, run) && run.previous.Found? && Rollback(run.job.nonce) !in run.prior
      && disk.view == Swapped(run)[Rollback(run.job.nonce) := File(run.previous.bytes, true)]
    else if pc.SyncRestored? then SameButTemp(run, disk.view, Promoted(run))
    else if pc.Demote? then
      && Unclaimed(disk, run.job)
      && (SameButTemp(run, disk.view, Promoted(run)) || SameButTemp(run, disk.view, run.prior))
    else true
  }

  /** The first `k` sets of `all` are gone, the others of them may be torn, and nothing else has changed. */
  ghost predicate Cleared(v: Dir, listing: Dir, all: seq<string>, k: nat) {
    && k <= |all|
    && (forall i :: 0 <= i < k ==> Final(all[i]) !in v)
    && (forall n: Name :: (n.Final? ==> n.setName !in all) ==> Entry(v, n) == Entry(listing, n))
    && (forall n: Name :: n in v ==> n in listing)
  }

  ghost predicate Chosen(plan: Plan, job: Job) {
    && job.retention > 0 && job.setName in TrustedSets(plan.listing)
    && plan.doomed == Retention.Doomed(TrustedSets(plan.listing), job.retention, job.setName)
  }

  ghost predicate Deleting(v: Dir, run: Run) {
    Chosen(run.plan, run.job) && Cleared(v, run.plan.listing, run.plan.doomed, run.deleted)
  }

  /** What retention leaves however it ends: only sets it chose to give up are touched. */
  ghost predicate Trimmed(v: Dir, run: Run) {
    && (run.plan.doomed != [] ==> Chosen(run.plan, run.job))
    && Cleared(v, run.plan.listing, run.plan.doomed, run.deleted)
  }

  ghost predicate Holds(pc: Pc, disk: Disk, run: Run, undone: bool) {
    if pc.CheckFinal? || pc.FillPayload? || pc.WriteManifest? || pc.WriteBackup? || pc.SettleTree? || pc.ReadPrevious? then
      Building(pc, disk, run.job)
    else if IsPublishing(pc) then
      PriorIs(run) && undone && Publishing(pc, disk, run)
    else if pc.RereadMarker? || pc.UnlinkMarker? || pc.WriteRollback? || pc.ReplaceRollback? || pc.SyncRestored? || pc.Demote? then
      PriorIs(run) && undone && Restoring(pc, disk, run)
    else if pc.RemoveRollback? then Stuck(disk.view, run)
    else if pc.SyncDemoted? || pc.RemoveTemp? then
      if undone then SameButTemp(run, disk.view, run.prior) else Stuck(disk.view, run)
    else if pc.RolledBack? then
      if undone then disk.view == run.prior - {Temp(run.job.nonce)}
      else Stuck(disk.view, run) || Temp(run.job.nonce) in disk.view
    else if pc.ListSets? then Served(disk, run.job) && disk.since == {disk.view}
    else if pc.DeleteSet? then Served(disk, run.job) && Deleting(disk.view, run) && run.deleted < |run.plan.doomed|
    else if pc.SyncDeleted? || pc.Succeeded? then
      Served(disk, run.job) && Deleting(disk.view, run) && run.deleted == |run.plan.doomed|
    else if pc.RetentionFailed? then Served(disk, run.job) && Trimmed(disk.view, run)
    else true
  }

  ghost predicate Inv(m: Machine) {
    CrashSafe(m.disk) && Holds(m.pc, m.disk, m.run, m.undone)
  }

  ghost predicate After(e: Effect, run: Run, undone: bool) {
    CrashSafe(e.disk) && Holds(e.pc, e.disk, run, undone)
  }

  // ---------- changes of the view that keep CrashSafe ----------

  /** A change that leaves the marker alone and removes no set a marker could name. */
  lemma QuietChange(disk: Disk, after: Dir)
    requires CrashSafe(disk)
    requires Entry(after, Marker) == Entry(disk.view, Marker)
    requires forall a: Dir :: a in disk.since && Marker in a && a[Marker].File? ==> Backed(a[Marker].bytes, after)
    ensures CrashSafe(Change(disk, after))
  {
    var changed := Change(disk, after);
    forall a: Dir, b: Dir | a in changed.since && b in changed.since && Marker in a
      ensures a[Marker].File? && a[Marker].synced && Backed(a[Marker].bytes, b)
    {
      if a == after {
        assert disk.view in disk.since && disk.view[Marker] == after[Marker];
      }
    }
  }

  /** Pointing the marker at a set that is complete in every view. */
  lemma SwapIsSafe(disk: Disk, after: Dir, bytes: Bytes)
    requires CrashSafe(disk)
    requires forall a: Dir :: a in disk.since ==> Backed(bytes, a)
    requires Backed(bytes, after) && Marker in after && after[Marker] == File(bytes, true)
    requires forall a: Dir :: a in disk.since && Marker in a && a[Marker].File? ==> Backed(a[Marker].bytes, after)
    ensures CrashSafe(Change(disk, after))
  {
  }

  /** Entries other than the marker and the final sets may change freely. */
  lemma SideChange(disk: Disk, run: Run, n: Name, after: Dir)
    requires CrashSafe(disk) && !n.Marker? && !n.Final?
    requires forall k :: k != n ==> Entry(after, k) == Entry(disk.view, k)
    ensures CrashSafe(Change(disk, after))
    ensures Unclaimed(disk, run.job) ==> Unclaimed(Change(disk, after), run.job)
    ensures BothStay(disk, run) ==> BothStay(Change(disk, after), run)
  {
    var v := disk.view;
    assert Entry(after, Marker) == Entry(v, Marker);
    forall bytes | Backed(bytes, v)
      ensures Backed(bytes, after)
    {
      var named := Final(bytes.metadata.setName);
      assert Entry(after, named) == Entry(v, named);
    }
    QuietChange(disk, after);
    assert Entry(after, Final(run.job.setName)) == Entry(v, Final(run.job.setName));
  }

  lemma PutIsSafe(disk: Disk, run: Run, n: Name, node: Node)
    requires CrashSafe(disk) && !n.Marker? && !n.Final?
    ensures var after := Change(disk, disk.view[n := node]);
      && CrashSafe(after) && (Unclaimed(disk, run.job) ==> Unclaimed(after, run.job))
      && (BothStay(disk, run) ==> BothStay(after, run))
  {
    SideChange(disk, run, n, disk.view[n := node]);
  }

  lemma DropIsSafe(disk: Disk, run: Run, n: Name)
    requires CrashSafe(disk) && !n.Marker? && !n.Final?
    ensures CrashSafe(Change(disk, disk.view - {n}))
  {
    SideChange(disk, run, n, disk.view - {n});
  }

  /** A set name with no final directory is named by no marker that could surface. */
  lemma FreshNameIsUnclaimed(disk: Disk, job: Job)
    requires CrashSafe(disk) && Final(job.setName) !in disk.view
    ensures Unclaimed(disk, job)
  {
    forall a: Dir | a in disk.since && Marker in a && a[Marker].File? && a[Marker].bytes.Json?
      ensures a[Marker].bytes.metadata.setName != job.setName
    {
      assert Backed(a[Marker].bytes, disk.view);
    }
  }

  // ---------- building ----------

  lemma BuildIsSafe(disk: Disk, o: Outcome, run: Run, node: Node, next: Pc)
    requires CrashSafe(disk) && Unclaimed(disk, run.job) && Final(run.job.setName) !in disk.view
    ensures var e := Build(disk, o, Partial(run.job.setName), node, next);
      && CrashSafe(e.disk)
      && (e.pc == Refused || (e.pc == next && Unclaimed(e.disk, run.job) && PartialIs(e.disk.view, run.job, node)))
  {
    PutIsSafe(disk, run, Partial(run.job.setName), if o.end.Torn? then Unsynced(o.left) else node);
  }

  lemma BuildingKeeps(disk: Disk, pc: Pc, run: Run, undone: bool, o: Outcome)
    requires CrashSafe(disk) && Building(pc, disk, run.job)
    requires IsBuilding(pc)
    ensures After(StepBuilding(disk, pc, run.job, o), run, undone)
  {
    hide CrashSafe, Unclaimed;
    var job := run.job;
    if pc.MakePartial? {
      PutIsSafe(disk, run, Partial(job.setName), SetDir(map[], None, None, false));
    } else if pc.CheckFinal? {
      if Final(job.setName) !in disk.view {
        FreshNameIsUnclaimed(disk, job);
      }
    } else if pc.FillPayload? {
      BuildIsSafe(disk, o, run, SetDir(job.payload, None, None, false), WriteManifest);
    } else if pc.WriteManifest? {
      BuildIsSafe(disk, o, run, SetDir(job.payload, Some(job.payload), None, false), WriteBackup);
    } else if pc.WriteBackup? {
      BuildIsSafe(disk, o, run, SetDir(job.payload, Some(job.payload), Some(MetadataOf(job)), false), SettleTree);
    } else if pc.SettleTree? {
      PutIsSafe(disk, run, Partial(job.setName), Built(job));
    }
  }

  // ---------- publishing ----------

  lemma ReadKeeps(m: Machine, o: Outcome)
    requires Inv(m) && m.pc.ReadPrevious?
    ensures Inv(Step(m, o))
  {
    if Marker in m.disk.view {
      assert Backed(m.disk.view[Marker].bytes, m.disk.view);
    }
  }

  /** Creating a private file either changes nothing or leaves something under a name that was free. */
  lemma CreateCases(disk: Disk, o: Outcome, n: Name, bytes: Bytes, next: Pc, onError: Pc) returns (node: Node)
    ensures var e := Create(disk, o, n, bytes, next, onError);
      || (e.pc == onError && (e.disk == disk || (n !in disk.view && e.disk == Change(disk, disk.view[n := node]))))
      || (e.pc == next && n !in disk.view && node == File(bytes, true) && e.disk == Change(disk, disk.view[n := node]))
  {
    node := if o.end.Torn? then Unsynced(o.left) else File(bytes, true);
  }

  /** It touches no marker and no set, and succeeds only on a free name. */
  lemma CreateIsSafe(disk: Disk, o: Outcome, run: Run, n: Name, bytes: Bytes, next: Pc, onError: Pc)
    requires CrashSafe(disk) && !n.Marker? && !n.Final?
    ensures var e := Create(disk, o, n, bytes, next, onError);
      && CrashSafe(e.disk) && (Unclaimed(disk, run.job) ==> Unclaimed(e.disk, run.job))
      && (BothStay(disk, run) ==> BothStay(e.disk, run))
      && (|| (e.pc == onError && e.disk.view - {n} == disk.view - {n})
          || (e.pc == next && n !in disk.view && e.disk.view == disk.view[n := File(bytes, true)]))
  {
    var node := CreateCases(disk, o, n, bytes, next, onError);
    PutIsSafe(disk, run, n, node);
    assert disk.view[n := node] - {n} == disk.view - {n};
  }

  lemma WriteTempKeeps(disk: Disk, run: Run, o: Outcome)
    requires CrashSafe(disk) && Holds(WriteTemp, disk, run, true)
    ensures After(StepPublishing(disk, WriteTemp, run.job, o), run, true)
  {
    CreateIsSafe(disk, o, run, Temp(run.job.nonce), MetadataOf(run.job), Promote, RemoveTemp);
  }

  lemma PromoteKeeps(disk: Disk, run: Run, o: Outcome)
    requires CrashSafe(disk) && Holds(Promote, disk, run, true)
    ensures After(StepPublishing(disk, Promote, run.job, o), run, true)
  {
    var w := Promoted(run);
    forall bytes | Backed(bytes, disk.view)
      ensures Backed(bytes, w)
    {
    }
    QuietChange(disk, w);
    assert SameButTemp(run, disk.view, run.prior);
  }

  lemma SyncPromotedKeeps(disk: Disk, run: Run, o: Outcome)
    requires CrashSafe(disk) && Holds(SyncPromoted, disk, run, true)
    ensures After(StepPublishing(disk, SyncPromoted, run.job, o), run, true)
  {
  }

  lemma SwapKeeps(disk: Disk, run: Run, o: Outcome)
    requires CrashSafe(disk) && Holds(SwapMarker, disk, run, true)
    ensures After(StepPublishing(disk, SwapMarker, run.job, o), run, true)
  {
    var v, w := disk.view, Swapped(run);
    assert Backed(MetadataOf(run.job), v) && Backed(MetadataOf(run.job), w);
    if run.previous.Found? {
      assert v[Marker] == run.prior[Marker];
      assert Backed(run.previous.bytes, v) && Backed(run.previous.bytes, w);
    }
    SwapIsSafe(disk, w, MetadataOf(run.job));
  }

  lemma SyncMarkerKeeps(disk: Disk, run: Run, o: Outcome)
    requires CrashSafe(disk) && Holds(SyncMarker, disk, run, true)
    ensures After(StepPublishing(disk, SyncMarker, run.job, o), run, true)
  {
  }

  // ---------- undoing ----------

  /** Reading the marker again tells whether the swap took effect. */
  lemma RereadTells(disk: Disk, run: Run)
    requires CrashSafe(disk) && PriorIs(run) && BothStay(disk, run)
    requires disk.view == Promoted(run) || disk.view == Swapped(run)
    ensures ReadMarker(disk.view) == if disk.view == Swapped(run) then Found(MetadataOf(run.job)) else run.previous
  {
    var v := disk.view;
    if v == Swapped(run) {
      assert Backed(MetadataOf(run.job), v);
      MarkerIsAccepted(v);
    } else if Marker in v {
      assert v[Marker] == run.prior[Marker];
      MarkerIsAccepted(v);
    }
  }

  lemma RereadKeeps(disk: Disk, run: Run, o: Outcome)
    requires CrashSafe(disk) && Holds(RereadMarker, disk, run, true)
    ensures var pc := AfterReread(disk.view, run, o);
      if pc.RemoveTemp? then Stuck(disk.view, run) else Holds(pc, disk, run, true)
  {
    RereadTells(disk, run);
  }

  /** A root without a marker promises nothing. */
  lemma UnlinkKeeps(disk: Disk, run: Run, o: Outcome)
    requires CrashSafe(disk) && Holds(UnlinkMarker, disk, run, true)
    ensures After(StepRestoring(disk, UnlinkMarker, run, o), run, true)
  {
    var v, w := disk.view, disk.view - {Marker};
    forall bytes | Backed(bytes, v)
      ensures Backed(bytes, w)
    {
    }
    assert v in disk.since;
    assert SameButTemp(run, w, Promoted(run));
  }

  lemma WriteRollbackKeeps(disk: Disk, run: Run, o: Outcome)
    requires CrashSafe(disk) && Holds(WriteRollback, disk, run, true)
    ensures var e := StepRestoring(disk, WriteRollback, run, o);
      && CrashSafe(e.disk) && (e.pc == RemoveRollback || e.pc == ReplaceRollback)
      && Holds(e.pc, e.disk, run, true)
  {
    hide CrashSafe, ReadMarker, SetStays, PreviousStays;
    CreateIsSafe(disk, o, run, Rollback(run.job.nonce), run.previous.bytes, ReplaceRollback, RemoveRollback);
  }

  /** Putting back the previous marker, whose set is in every view that could surface. */
  lemma MarkerPutBack(disk: Disk, run: Run)
    requires CrashSafe(disk) && BothStay(disk, run) && run.previous.Found?
    requires Rollback(run.job.nonce) in disk.view
    requires disk.view[Rollback(run.job.nonce)] == File(run.previous.bytes, true)
    ensures CrashSafe(Change(disk, Rename(disk.view, Rollback(run.job.nonce), Marker)))
  {
    var v, w := disk.view, Rename(disk.view, Rollback(run.job.nonce), Marker);
    assert v in disk.since;
    forall bytes | Backed(bytes, v)
      ensures Backed(bytes, w)
    {
    }
    SwapIsSafe(disk, w, run.previous.bytes);
  }

  lemma PutBackIsPrior(run: Run)
    requires PriorIs(run) && run.previous.Found? && Rollback(run.job.nonce) !in run.prior
    ensures var v := Swapped(run)[Rollback(run.job.nonce) := File(run.previous.bytes, true)];
      SameButTemp(run, Rename(v, Rollback(run.job.nonce), Marker), Promoted(run))
  {
    assert Marker in run.prior;
  }

  lemma ReplaceRollbackKeeps(disk: Disk, run: Run, o: Outcome)
    requires CrashSafe(disk) && Holds(ReplaceRollback, disk, run, true)
    ensures var e := StepRestoring(disk, ReplaceRollback, run, o);
      && CrashSafe(e.disk) && (e.pc == RemoveRollback || e.pc == SyncRestored)
      && Holds(e.pc, e.disk, run, true)
  {
    hide CrashSafe, ReadMarker;
    MarkerPutBack(disk, run);
    PutBackIsPrior(run);
  }

  lemma SyncRestoredKeeps(disk: Disk, run: Run, o: Outcome)
    requires CrashSafe(disk) && Holds(SyncRestored, disk, run, true)
    ensures var e := StepRestoring(disk, SyncRestored, run, o);
      && CrashSafe(e.disk) && (e.pc == RemoveRollback || e.pc == Demote)
      && Holds(e.pc, e.disk, run, true)
  {
    assert Entry(disk.view, Marker) == Entry(run.prior, Marker);
    assert Entry(disk.view, Final(run.job.setName)) == Entry(Promoted(run), Final(run.job.setName));
    SetNotNamedBefore(run, disk.view);
  }

  lemma SetNotNamedBefore(run: Run, v: Dir)
    requires PriorIs(run) && Entry(v, Marker) == Entry(run.prior, Marker)
    ensures Unclaimed(Disk(v, {v}), run.job)
  {
  }

  /** Demotion takes away the set only when no marker that could surface names it. */
  lemma DemoteKeeps(disk: Disk, run: Run, o: Outcome)
    requires CrashSafe(disk) && Holds(Demote, disk, run, true)
    ensures var e := StepDemoting(disk, Demote, run.job, o);
      && CrashSafe(e.disk) && (e.pc.SyncDemoted? || e.pc.RemoveTemp?)
      && if Undoes(disk.view, Demote, e.pc, run.job, o) then SameButTemp(run, e.disk.view, run.prior)
         else Stuck(e.disk.view, run)
  {
    var v, src, dst := disk.view, Final(run.job.setName), Partial(run.job.setName);
    if src in v {
      var w := Rename(v, src, dst);
      assert Entry(v, src) != Entry(run.prior, src);
      assert Entry(v, src) == Entry(Promoted(run), src) && Entry(v, dst) == Entry(Promoted(run), dst);
      forall a: Dir | a in disk.since && Marker in a && a[Marker].File?
        ensures Backed(a[Marker].bytes, w)
      {
        assert Backed(a[Marker].bytes, v);
      }
      QuietChange(disk, w);
      DemotionRestores(run, v, w);
    } else {
      assert Entry(v, src) != Entry(Promoted(run), src);
    }
  }

  lemma DemotionRestores(run: Run, v: Dir, w: Dir)
    requires PriorIs(run) && SameButTemp(run, v, Promoted(run))
    requires Final(run.job.setName) in v && w == Rename(v, Final(run.job.setName), Partial(run.job.setName))
    ensures SameButTemp(run, w, run.prior)
  {
    assert Entry(v, Final(run.job.setName)) == Entry(Promoted(run), Final(run.job.setName));
    forall n | n != Temp(run.job.nonce)
      ensures Entry(w, n) == Entry(run.prior, n)
    {
      assert Entry(v, n) == Entry(Promoted(run), n);
    }
  }

  lemma RemoveKeeps(disk: Disk, pc: Pc, run: Run, undone: bool, o: Outcome)
    requires CrashSafe(disk) && Holds(pc, disk, run, undone) && (pc.RemoveTemp? || pc.SyncDemoted?)
    ensures var e := StepDemoting(disk, pc, run.job, o);
      After(e, run, undone && Undoes(disk.view, pc, e.pc, run.job, o))
  {
    DropIsSafe(disk, run, Temp(run.job.nonce));
    if pc.RemoveTemp? && undone {
      SameWithoutTemp(run, disk.view, run.prior);
    }
  }

  lemma SameWithoutTemp(run: Run, a: Dir, b: Dir)
    requires SameButTemp(run, a, b)
    ensures a - {Temp(run.job.nonce)} == b - {Temp(run.job.nonce)}
    ensures Temp(run.job.nonce) !in a ==> a == b - {Temp(run.job.nonce)}
  {
    var t := Temp(run.job.nonce);
    forall n: Name
      ensures n in a - {t} <==> n in b - {t}
      ensures n in a - {t} ==> a[n] == b[n]
    {
      if n != t {
        assert Entry(a, n) == Entry(b, n);
      }
    }
    assert a - {t} == b - {t};
    assert t !in a ==> a - {t} == a;
  }

  // ---------- retention ----------

  lemma ListingKeeps(m: Machine, o: Outcome)
    requires Inv(m) && m.pc.ListSets?
    ensures Inv(StepListing(m, o))
  {
    hide CrashSafe, Served, TrustedSets, ReadMarker, Retention.Doomed;
    var v, job := m.disk.view, m.run.job;
    if MayRetain(v, job, o) {
      var all := Retention.Doomed(TrustedSets(v), job.retention, job.setName);
      assert Cleared(v, v, all, 0);
    } else {
      assert Cleared(v, v, [], 0);
    }
  }

  /** Doomed sets were all listed, none is listed twice, and none is the current set. */
  lemma ChosenFacts(plan: Plan, job: Job)
    requires Chosen(plan, job)
    ensures forall i :: 0 <= i < |plan.doomed| ==> plan.doomed[i] != job.setName && Final(plan.doomed[i]) in plan.listing
    ensures forall i, j :: 0 <= i < j < |plan.doomed| ==> plan.doomed[i] != plan.doomed[j]
  {
    var sets := TrustedSets(plan.listing);
    Retention.DoomedAreOthers(sets, job.retention, job.setName);
    Retention.DoomedAreDistinct(sets, job.retention, job.setName);
    assert forall i :: 0 <= i < |plan.doomed| ==> plan.doomed[i] in plan.doomed;
  }

  /** Deleting another set, in part or whole, touches neither the marker nor its set. */
  lemma OtherSetChanges(disk: Disk, job: Job, other: string, after: Dir)
    requires CrashSafe(disk) && Served(disk, job) && other != job.setName
    requires forall k :: k != Final(other) ==> Entry(after, k) == Entry(disk.view, k)
    ensures CrashSafe(Change(disk, after)) && Served(Change(disk, after), job)
  {
    var v := disk.view;
    assert Entry(after, Marker) == Entry(v, Marker);
    assert Entry(after, Final(job.setName)) == Entry(v, Final(job.setName));
    assert v in disk.since;
    assert Backed(MetadataOf(job), after);
    QuietChange(disk, after);
  }

  lemma ClearedOneMore(v: Dir, listing: Dir, all: seq<string>, k: nat)
    requires Cleared(v, listing, all, k) && k < |all|
    ensures Cleared(v - {Final(all[k])}, listing, all, k + 1)
    ensures Cleared(v - {Final(all[k])}, listing, all, k)
  {
    assert all[k] in all;
  }

  lemma ClearedInPart(v: Dir, listing: Dir, all: seq<string>, k: nat, left: Node)
    requires Cleared(v, listing, all, k) && k < |all| && Final(all[k]) in listing
    requires forall i, j :: 0 <= i < j < |all| ==> all[i] != all[j]
    ensures Cleared(v[Final(all[k]) := left], listing, all, k)
  {
    assert all[k] in all;
  }

  lemma DeletedInPart(disk: Disk, run: Run, left: Node)
    requires CrashSafe(disk) && Served(disk, run.job) && Deleting(disk.view, run) && run.deleted < |run.plan.doomed|
    ensures var after := Change(disk, disk.view[Final(run.plan.doomed[run.deleted]) := left]);
      CrashSafe(after) && Served(after, run.job) && Deleting(after.view, run)
  {
    ChosenFacts(run.plan, run.job);
    var other := run.plan.doomed[run.deleted];
    OtherSetChanges(disk, run.job, other, disk.view[Final(other) := left]);
    ClearedInPart(disk.view, run.plan.listing, run.plan.doomed, run.deleted, left);
  }

  lemma DeletedWhole(disk: Disk, run: Run)
    requires CrashSafe(disk) && Served(disk, run.job) && Deleting(disk.view, run) && run.deleted < |run.plan.doomed|
    ensures var after := Change(disk, disk.view - {Final(run.plan.doomed[run.deleted])});
      && CrashSafe(after) && Served(after, run.job)
      && Deleting(after.view, run) && Cleared(after.view, run.plan.listing, run.plan.doomed, run.deleted + 1)
  {
    hide CrashSafe, Served, Chosen, Cleared;
    ChosenFacts(run.plan, run.job);
    var other := run.plan.doomed[run.deleted];
    var w := disk.view - {Final(other)};
    ClearedOneMore(disk.view, run.plan.listing, run.plan.doomed, run.deleted);
    assert Cleared(w, run.plan.listing, run.plan.doomed, run.deleted);
    OtherSetChanges(disk, run.job, other, w);
  }

  lemma DeletingKeeps(m: Machine, o: Outcome)
    requires CrashSafe(m.disk) && Served(m.disk, m.run.job) && Deleting(m.disk.view, m.run)
    requires m.run.deleted < |m.run.plan.doomed|
    ensures var after := StepDeleting(m, o);
      && CrashSafe(after.disk) && Served(after.disk, after.run.job) && Deleting(after.disk.view, after.run)
      && (|| after.pc == RetentionFailed
          || (after.pc == DeleteSet && after.run.deleted < |after.run.plan.doomed|)
          || (after.pc == SyncDeleted && after.run.deleted == |after.run.plan.doomed|))
  {
    hide CrashSafe, Served, Chosen, Cleared;
    if o.end.Torn? && o.left.SetDir? {
      DeletedInPart(m.disk, m.run, Unsynced(o.left));
    } else if Took(o) {
      DeletedWhole(m.disk, m.run);
    }
  }

  lemma SyncDeletedKeeps(disk: Disk, run: Run, o: Outcome)
    requires CrashSafe(disk) && Served(disk, run.job)
    ensures var e := Flush(disk, o, Succeeded, RetentionFailed);
      CrashSafe(e.disk) && Served(e.disk, run.job) && e.disk.view == disk.view
  {
  }
}
