/** One backup run as a state machine over the directory entries of the backup root. */
module Publication {
  import opened BackupRoot
  import Retention

  datatype Job = Job(setName: string, nonce: string, payload: Manifest, retention: nat)

  /** How one system call ends: as asked, raising without or with its effect, or torn, leaving `left` behind. */
  datatype End = Done | FailedBefore | FailedAfter | Torn

  datatype Outcome = Outcome(end: End, left: Node)

  datatype Pc =
    // building the set
    | Idle | MakePartial | CheckFinal | FillPayload | WriteManifest | WriteBackup | SettleTree
    // publishing it
    | ReadPrevious | WriteTemp | Promote | SyncPromoted | SwapMarker | SyncMarker
    // undoing a failed publication
    | RereadMarker | UnlinkMarker | WriteRollback | ReplaceRollback | SyncRestored | RemoveRollback
    | Demote | SyncDemoted | RemoveTemp
    // retention
    | ListSets | DeleteSet | SyncDeleted
    // how a run ends
    | Refused | RolledBack | RetentionFailed | Succeeded

  predicate Ended(pc: Pc) {
    pc.Idle? || pc.Refused? || pc.RolledBack? || pc.RetentionFailed? || pc.Succeeded?
  }

  predicate IsBuilding(pc: Pc) {
    pc.MakePartial? || pc.CheckFinal? || pc.FillPayload? || pc.WriteManifest? || pc.WriteBackup? || pc.SettleTree?
  }

  predicate IsPublishing(pc: Pc) {
    pc.WriteTemp? || pc.Promote? || pc.SyncPromoted? || pc.SwapMarker? || pc.SyncMarker?
  }

  predicate IsRestoring(pc: Pc) {
    || pc.RereadMarker? || pc.UnlinkMarker? || pc.WriteRollback? || pc.ReplaceRollback? || pc.SyncRestored?
    || pc.RemoveRollback?
  }

  predicate IsDemoting(pc: Pc) {
    pc.Demote? || pc.SyncDemoted? || pc.RemoveTemp?
  }

  /** What retention decided: the view it worked from and the sets to delete, in order. */
  datatype Plan = Plan(listing: Dir, doomed: seq<string>)

  /** The locals of a run; `prior` is the view when publication began, `deleted` counts the doomed sets that are
      gone. */
  datatype Run = Run(
    job: Job,
    previous: MarkerRead,
    prior: Dir,
    plan: Plan,
    deleted: nat)

  /** `undone` says that no step of the rollback failed while it had something to undo. */
  datatype Machine = Machine(disk: Disk, pc: Pc, run: Run, undone: bool)

  function MetadataOf(job: Job): Bytes {
    Json(Metadata(job.setName, Instant(job.setName), job.payload, true))
  }

  function Built(job: Job): Node {
    SetDir(job.payload, Some(job.payload), Some(MetadataOf(job)), true)
  }

  predicate Took(o: Outcome) {
    o.end.Done? || o.end.FailedAfter?
  }

  function Unsynced(node: Node): Node {
    match node
    case File(bytes, _) => File(bytes, false)
    case SetDir(payload, manifest, backup, _) => SetDir(payload, manifest, backup, false)
  }

  predicate CanRename(d: Dir, src: Name, dst: Name) {
    src in d && (dst in d ==> d[src].File? && d[dst].File?)
  }

  function Rename(d: Dir, src: Name, dst: Name): Dir
    requires src in d
  {
    (d - {src})[dst := d[src]]
  }

  /** What one system call does: the disk it leaves and where the run goes on. */
  datatype Effect = Effect(disk: Disk, pc: Pc)

  /** A call that changes entries: `possible` is false when the system refuses it outright. */
  function Call(disk: Disk, o: Outcome, possible: bool, after: Dir, next: Pc, onError: Pc): Effect {
    Effect(if possible && Took(o) then Change(disk, after) else disk, if possible && o.end.Done? then next else onError)
  }

  /** `os.replace`. */
  function Move(disk: Disk, o: Outcome, src: Name, dst: Name, next: Pc, onError: Pc): Effect {
    var v := disk.view;
    Call(disk, o, CanRename(v, src, dst), if src in v then Rename(v, src, dst) else v, next, onError)
  }

  /** `_write_private_file`: exclusive creation, contents synced, perhaps torn when it fails. */
  function Create(disk: Disk, o: Outcome, n: Name, bytes: Bytes, next: Pc, onError: Pc): Effect {
    var torn := o.end.Torn? && o.left.File?;
    var node := if torn then Unsynced(o.left) else File(bytes, true);
    Effect(if n !in disk.view && (Took(o) || torn) then Change(disk, disk.view[n := node]) else disk,
           if n !in disk.view && o.end.Done? then next else onError)
  }

  /** `unlink(missing_ok=True)`. */
  function Unlink(disk: Disk, o: Outcome, n: Name, next: Pc, onError: Pc): Effect {
    Call(disk, o, true, disk.view - {n}, next, onError)
  }

  /** Writing inside the partial set directory; nothing there is synced yet. */
  function Build(disk: Disk, o: Outcome, p: Name, node: Node, next: Pc): Effect {
    var torn := o.end.Torn? && o.left.SetDir?;
    Effect(if Took(o) || torn then Change(disk, disk.view[p := if torn then Unsynced(o.left) else node]) else disk,
           if o.end.Done? then next else Refused)
  }

  /** `_sync_directory(root)`: a sync may raise although it took effect. */
  function Flush(disk: Disk, o: Outcome, next: Pc, onError: Pc): Effect {
    Effect(if Took(o) then Sync(disk) else disk, if o.end.Done? then next else onError)
  }

  function TrustedSets(d: Dir): set<string> {
    set n | n in d && n.Final? && Trusted(n.setName, d[n]) :: n.setName
  }

  ghost function StepBuilding(disk: Disk, pc: Pc, job: Job, o: Outcome): Effect {
    var v, p := disk.view, Partial(job.setName);
    if pc.MakePartial? then Call(disk, o, p !in v, v[p := SetDir(map[], None, None, false)], CheckFinal, Refused)
    else if pc.CheckFinal? then Effect(disk, if o.end.Done? && Final(job.setName) !in v then FillPayload else Refused)
    else if pc.FillPayload? then Build(disk, o, p, SetDir(job.payload, None, None, false), WriteManifest)
    else if pc.WriteManifest? then Build(disk, o, p, SetDir(job.payload, Some(job.payload), None, false), WriteBackup)
    else if pc.WriteBackup? then
      Build(disk, o, p, SetDir(job.payload, Some(job.payload), Some(MetadataOf(job)), false), SettleTree)
    else if pc.SettleTree? then Call(disk, o, true, v[p := Built(job)], ReadPrevious, Refused)
    else Effect(disk, pc)
  }

  /** The `try` block of `_publish_backup`, after the previous marker was read. */
  ghost function StepPublishing(disk: Disk, pc: Pc, job: Job, o: Outcome): Effect {
    if pc.WriteTemp? then Create(disk, o, Temp(job.nonce), MetadataOf(job), Promote, RemoveTemp)
    else if pc.Promote? then Move(disk, o, Partial(job.setName), Final(job.setName), SyncPromoted, Demote)
    else if pc.SyncPromoted? then Flush(disk, o, SwapMarker, Demote)
    else if pc.SwapMarker? then Move(disk, o, Temp(job.nonce), Marker, SyncMarker, RereadMarker)
    else if pc.SyncMarker? then Flush(disk, o, ListSets, RereadMarker)
    else Effect(disk, pc)
  }

  /** Where `_restore_marker` goes after reading the marker: it undoes only the marker this run wrote. */
  function AfterReread(v: Dir, run: Run, o: Outcome): Pc {
    var read := if o.end.Done? then ReadMarker(v) else Unreadable;
    if read.Unreadable? then RemoveTemp
    else if read == run.previous then SyncRestored
    else if read != Found(MetadataOf(run.job)) then RemoveTemp
    else if !run.previous.Found? then UnlinkMarker
    else if TrustedMarker(run.previous.bytes, v) then WriteRollback
    else RemoveTemp
  }

  ghost function StepRestoring(disk: Disk, pc: Pc, run: Run, o: Outcome): Effect {
    var nonce := run.job.nonce;
    if pc.RereadMarker? then Effect(disk, AfterReread(disk.view, run, o))
    else if pc.UnlinkMarker? then Unlink(disk, o, Marker, SyncRestored, RemoveRollback)
    else if pc.WriteRollback? then
      if run.previous.Found? then Create(disk, o, Rollback(nonce), run.previous.bytes, ReplaceRollback, RemoveRollback)
      else Effect(disk, pc)
    else if pc.ReplaceRollback? then Move(disk, o, Rollback(nonce), Marker, SyncRestored, RemoveRollback)
    else if pc.SyncRestored? then Flush(disk, o, Demote, RemoveRollback)
    else if pc.RemoveRollback? then Unlink(disk, o, Rollback(nonce), RemoveTemp, RemoveTemp)
    else Effect(disk, pc)
  }

  ghost function StepDemoting(disk: Disk, pc: Pc, job: Job, o: Outcome): Effect {
    if pc.Demote? then Move(disk, o, Final(job.setName), Partial(job.setName), SyncDemoted, RemoveTemp)
    else if pc.SyncDemoted? then Flush(disk, o, RemoveTemp, RemoveTemp)
    else if pc.RemoveTemp? then Unlink(disk, o, Temp(job.nonce), RolledBack, RolledBack)
    else Effect(disk, pc)
  }

  /** Whether a rollback step leaves nothing it should have undone. */
  predicate Undoes(v: Dir, pc: Pc, after: Pc, job: Job, o: Outcome) {
    if pc.RereadMarker? then after != RemoveTemp
    else if pc.RemoveRollback? then false
    else if pc.Demote? then Took(o) || Final(job.setName) !in v
    else if pc.RemoveTemp? then Took(o) || Temp(job.nonce) !in v
    else true
  }

  /** `_apply_retention` refuses to delete unless the marker is the current set's own metadata. */
  ghost predicate MayRetain(v: Dir, job: Job, o: Outcome) {
    && o.end.Done? && job.retention > 0 && job.setName in TrustedSets(v)
    && ReadMarker(v).Found? && v[Final(job.setName)].backup == Some(ReadMarker(v).bytes)
  }

  ghost function StepListing(m: Machine, o: Outcome): Machine {
    var v, job := m.disk.view, m.run.job;
    if MayRetain(v, job, o) then
      var doomed := Retention.Doomed(TrustedSets(v), job.retention, job.setName);
      Machine(m.disk, if doomed == [] then Succeeded else DeleteSet, m.run.(plan := Plan(v, doomed), deleted := 0), m.undone)
    else Machine(m.disk, RetentionFailed, m.run.(plan := Plan(v, []), deleted := 0), m.undone)
  }

  /** One call of `_remove_safe_tree` on the next doomed set; a torn one removed a part and goes on. */
  ghost function StepDeleting(m: Machine, o: Outcome): Machine
    requires m.run.deleted < |m.run.plan.doomed|
  {
    var n, deleted := Final(m.run.plan.doomed[m.run.deleted]), m.run.deleted + 1;
    if o.end.Torn? && o.left.SetDir? then
      Machine(Change(m.disk, m.disk.view[n := Unsynced(o.left)]), DeleteSet, m.run, m.undone)
    else
      var e := Call(m.disk, o, true, m.disk.view - {n},
                    if deleted == |m.run.plan.doomed| then SyncDeleted else DeleteSet, RetentionFailed);
      Machine(e.disk, e.pc, if o.end.Done? then m.run.(deleted := deleted) else m.run, m.undone)
  }

  ghost function Step(m: Machine, o: Outcome): Machine {
    var disk, run := m.disk, m.run;
    if IsBuilding(m.pc) then
      var e := StepBuilding(disk, m.pc, run.job, o);
      Machine(e.disk, e.pc, run, m.undone)
    else if m.pc.ReadPrevious? then
      var read := if o.end.Done? then ReadMarker(disk.view) else Unreadable;
      Machine(disk, if read.Unreadable? then RemoveTemp else WriteTemp,
              run.(previous := read, prior := disk.view), true)
    else if IsPublishing(m.pc) then
      var e := StepPublishing(disk, m.pc, run.job, o);
      Machine(e.disk, e.pc, run, m.undone)
    else if IsRestoring(m.pc) then
      var e := StepRestoring(disk, m.pc, run, o);
      Machine(e.disk, e.pc, run, m.undone && Undoes(disk.view, m.pc, e.pc, run.job, o))
    else if IsDemoting(m.pc) then
      var e := StepDemoting(disk, m.pc, run.job, o);
      Machine(e.disk, e.pc, run, m.undone && Undoes(disk.view, m.pc, e.pc, run.job, o))
    else if m.pc.ListSets? then StepListing(m, o)
    else if m.pc.DeleteSet? then if run.deleted < |run.plan.doomed| then StepDeleting(m, o) else m
    else if m.pc.SyncDeleted? then
      var e := Flush(disk, o, Succeeded, RetentionFailed);
      Machine(e.disk, e.pc, run, m.undone)
    else m
  }

  // ---------- whole histories ----------

  datatype Event =
    | Begin(job: Job)
    | Continue(o: Outcome)
    | Kill
    | PowerCut(after: Dir)

  predicate Allowed(job: Job) {
    2 <= job.retention <= 31
  }

  ghost function Apply(m: Machine, e: Event): Machine {
    match e
    case Begin(job) => if Ended(m.pc) && Allowed(job) then Machine(m.disk, MakePartial, m.run.(job := job), m.undone) else m
    case Continue(o) => Step(m, o)
    case Kill => Machine(m.disk, Idle, m.run, m.undone)
    case PowerCut(after) => if CanLeave(m.disk, after) then Machine(Disk(after, {after}), Idle, m.run, m.undone) else m
  }

  ghost function Replay(m: Machine, events: seq<Event>): Machine
    decreases |events|
  {
    if events == [] then m else Apply(Replay(m, events[..|events| - 1]), events[|events| - 1])
  }

  /** A root no run is working in, whose markers would all survive a power cut. */
  ghost predicate AtRest(m: Machine) {
    m.pc.Idle? && CrashSafe(m.disk)
  }
}
