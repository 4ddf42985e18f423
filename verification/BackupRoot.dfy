/** The backup root directory: what it holds, what its readers accept, what a power cut can leave of it. */
module BackupRoot {

  datatype Option<+T> = None | Some(value: T)

  /** Payload files of a set, by relative path; a content stands for its digest. */
  type Manifest = map<string, int>

  datatype Metadata = Metadata(setName: string, created: string, digest: Manifest, successful: bool)

  /** A small file: printed metadata, or bytes that do not parse as metadata. */
  datatype Bytes = Json(metadata: Metadata) | Junk(raw: int)

  /** `synced` holds when the node's own contents have reached the disk. */
  datatype Node =
    | File(bytes: Bytes, synced: bool)
    | SetDir(payload: Manifest, manifest: Option<Manifest>, backup: Option<Bytes>, synced: bool)

  datatype Name =
    | Marker
    | Temp(nonce: string)
    | Rollback(nonce: string)
    | Partial(setName: string)
    | Final(setName: string)

  type Dir = map<Name, Node>

  function Entry(d: Dir, n: Name): Option<Node> {
    if n in d then Some(d[n]) else None
  }

  /** The compact instant at the front of a set name. */
  function Instant(setName: string): string {
    if |setName| < 15 then setName else setName[..15]
  }

  predicate Consistent(md: Metadata) {
    md.successful && md.created == Instant(md.setName)
  }

  /** `_trusted_success`: the set's own metadata and manifest agree with each other and with its name. */
  predicate Trusted(setName: string, node: Node) {
    && node.SetDir? && node.manifest.Some? && node.backup.Some? && node.backup.value.Json?
    && var md := node.backup.value.metadata;
       md.setName == setName && Consistent(md) && md.digest == node.manifest.value
  }

  /** `_trusted_marker_bytes`: the marker names a trusted set. */
  predicate TrustedMarker(bytes: Bytes, d: Dir) {
    && bytes.Json?
    && Final(bytes.metadata.setName) in d
    && Trusted(bytes.metadata.setName, d[Final(bytes.metadata.setName)])
  }

  datatype MarkerRead = Missing | Found(bytes: Bytes) | Unreadable

  /** `_read_existing_marker` when no system call fails. */
  function ReadMarker(d: Dir): MarkerRead {
    if Marker !in d then Missing
    else if d[Marker].File? && TrustedMarker(d[Marker].bytes, d) then Found(d[Marker].bytes)
    else Unreadable
  }

  /** `_inspect_latest_success_fd`: the independent reader, which trusts a set only through the marker. */
  function Inspect(d: Dir): (created: Option<string>) {
    if Marker in d && d[Marker].File? && d[Marker].bytes.Json? && Consistent(d[Marker].bytes.metadata) then
      var md := d[Marker].bytes.metadata;
      if Final(md.setName) !in d then None
      else
        var node := d[Final(md.setName)];
        if node.SetDir? && node.backup == Some(d[Marker].bytes) && node.manifest == Some(md.digest)
        then Some(md.created) else None
    else None
  }

  /** The set is the one these bytes describe, with every payload file, all on disk. */
  predicate Whole(node: Node, bytes: Bytes) {
    && bytes.Json? && Consistent(bytes.metadata)
    && node == SetDir(bytes.metadata.digest, Some(bytes.metadata.digest), Some(bytes), true)
  }

  /** A marker with these bytes would be served by directory `d`. */
  predicate Backed(bytes: Bytes, d: Dir) {
    && bytes.Json?
    && Final(bytes.metadata.setName) in d
    && Whole(d[Final(bytes.metadata.setName)], bytes)
  }

  /** What the marker promises: it names a complete set. */
  predicate MarkerHolds(d: Dir) {
    Marker in d ==> d[Marker].File? && Backed(d[Marker].bytes, d)
  }

  /** A marker that holds is accepted by both readers. */
  lemma MarkerIsAccepted(d: Dir)
    requires MarkerHolds(d) && Marker in d
    ensures ReadMarker(d) == Found(d[Marker].bytes)
    ensures Inspect(d) == Some(d[Marker].bytes.metadata.created)
  {
  }

  /** The independent reader accepts exactly those markers the writer accepts that are a copy of the metadata in the set they
      name. */
  lemma ReadersAgreeExactly(d: Dir)
    ensures Inspect(d).Some? <==>
      && ReadMarker(d).Found?
      && var bytes := ReadMarker(d).bytes; d[Final(bytes.metadata.setName)].backup == Some(bytes)
  {
  }

  /** What makes a set trusted is its own: it is trusted under no other name, not after a change to its manifest or its
      metadata alone, and not before both are written. */
  lemma TrustIsBound(a: string, b: string, x: Node, y: Node)
    requires Trusted(a, x)
    ensures x.SetDir? && x.backup.value.metadata.setName == a && x.backup.value.metadata.successful
    ensures Trusted(b, x) ==> a == b
    ensures Trusted(a, y) && y.backup == x.backup ==> y.manifest == x.manifest
    ensures Trusted(a, y) && y.manifest == x.manifest ==> y.backup == x.backup
    ensures !Trusted(a, SetDir(x.payload, x.manifest, None, x.synced))
    ensures !Trusted(a, SetDir(x.payload, None, x.backup, x.synced))
  {
  }

  /** The live view, and every view since the last directory sync that took effect. */
  datatype Disk = Disk(view: Dir, since: set<Dir>)

  function Change(disk: Disk, view: Dir): Disk {
    Disk(view, disk.since + {view})
  }

  function Sync(disk: Disk): Disk {
    Disk(disk.view, {disk.view})
  }

  /** An entry comes back as it was, or with other contents if those were never synced. */
  predicate Survives(before: Option<Node>, after: Option<Node>) {
    || before == after
    || (&& before.Some? && after.Some? && !before.value.synced && after.value.synced
        && (before.value.File? <==> after.value.File?))
  }

  /** After a power cut every entry is, independently of the others, one it had since the last sync. */
  ghost predicate CanLeave(disk: Disk, after: Dir) {
    forall n: Name :: exists d :: d in disk.since && Survives(Entry(d, n), Entry(after, n))
  }

  /** No mixture of unsynced entries can hold a marker whose set is not complete. */
  ghost predicate CrashSafe(disk: Disk) {
    && disk.view in disk.since
    && forall a: Dir, b: Dir :: a in disk.since && b in disk.since && Marker in a ==>
         a[Marker].File? && a[Marker].synced && Backed(a[Marker].bytes, b)
  }

  lemma PowerCutKeepsMarker(disk: Disk, after: Dir)
    requires CrashSafe(disk) && CanLeave(disk, after)
    ensures MarkerHolds(after) && CrashSafe(Disk(after, {after}))
    ensures Marker in after ==> exists d :: d in disk.since && Marker in d && d[Marker] == after[Marker]
    ensures (forall d :: d in disk.since ==> Marker in d) ==> Marker in after
  {
    var a: Dir :| a in disk.since && Survives(Entry(a, Marker), Entry(after, Marker));
    if Marker in after {
      assert a[Marker] == after[Marker];
      var bytes := a[Marker].bytes;
      var named := Final(bytes.metadata.setName);
      var b: Dir :| b in disk.since && Survives(Entry(b, named), Entry(after, named));
      assert Backed(bytes, b);
    }
  }
}
