/** Copying files, links and directory trees while other processes may be changing them. */
module TreeCopy {
  import opened FileWorld
  import opened Snapshot
  import opened CopyHost
  import opened Links
  import opened CopyFrames

  /** The object held these bytes at every moment of the interval. */
  ghost predicate Held(world: World, ino: Inode, from: nat, to: nat, bytes: Data) {
    from <= to && forall m: nat :: from <= m <= to ==> ino in world(m) && world(m)[ino].Regular? && world(m)[ino].bytes == bytes
  }

  lemma HeldFromSteady(world: World, ino: Inode, from: nat, to: nat, bytes: Data)
    requires Steady(world, ino, from, to) && world(from)[ino].Regular? && world(from)[ino].bytes == bytes
    ensures Held(world, ino, from, to, bytes)
  {
  }

  /** Room for the bytes still to be written for a file that is already charged. */
  predicate Room(written: nat, size: nat, total: nat, limit: nat) {
    written + size <= total <= limit
  }

  /** The directory has this inode under this name. */
  predicate Listed(fs: Fs, dir: Inode, name: string, ino: Inode) {
    && dir in fs && fs[dir].Directory? && name in fs[dir].listing && fs[dir].listing[name] == ino && ino in fs
  }

  /** A directory of regular files and directories. */
  predicate OrdinaryDirectory(fs: Fs, dir: Inode) {
    && dir in fs && fs[dir].Directory?
    && forall name :: name in fs[dir].listing ==>
         var ino := fs[dir].listing[name]; ino in fs && (fs[ino].Regular? || fs[ino].Directory?)
  }

  /** The only failure is that there is too much to copy. */
  ghost predicate OnlyOver<T>(r: Result<T>, budget: Budget)
    reads budget
  {
    r.Failure? ==> r.error.LimitsExceeded? && budget.Over()
  }

  /** `_copy_descriptor`: success means the source held exactly the copied bytes from the moment `seen` of `expected`
      until now. Whatever happens, no byte is written beyond the limit and no descriptor stays open. */
  method CopyDescriptor(host: Host, budget: Budget, fd: nat, destination: Path, expected: Stat, ghost seen: nat)
    returns (r: Result<Data>)
    requires host.Valid() && fd in host.open && host.open[fd].Source?
    requires expected.kind.IsRegular? && SeenAt(host.world, expected, seen) && seen <= host.now
    requires Room(host.written, expected.size, budget.totalBytes, budget.maxTotalBytes)
    modifies host
    ensures host.Valid() && host.open == old(host.open) && old(host.now) <= host.now && old(host.nextFd) <= host.nextFd
    ensures old(host.written) <= host.written <= budget.maxTotalBytes
    ensures Kept(old(host.dest), host.dest) && host.dest.Keys <= old(host.dest).Keys + {destination}
    ensures r.Success? ==> host.open[fd].ino == expected.ino && |r.value| == expected.size
    ensures r.Success? ==> host.written == old(host.written) + expected.size
    ensures r.Success? ==> destination in host.dest && host.dest[destination].bytes == r.value
    ensures r.Success? ==> Within(host.dest[destination], old(host.now), host.now)
    ensures r.Success? && Honest(host.world) ==> Held(host.world, expected.ino, seen, host.now, r.value)
    ensures Calm(host, budget) && expected.size <= budget.maxFileBytes ==>
      (host.open[fd].ino == expected.ino && destination !in old(host.dest) ==> r.Success?)
  {
    hide Steady, Quiet, Held, Honest, StatOf;
    var info := host.Fstat(fd);
    if Calm(host, budget) {
      QuietStat(host.world, expected, seen, host.now);
    }
    if !MatchesIdentity(info, expected, false) || info.size != expected.size {
      return Failure(SourceChanged);
    }
    assert host.open[fd].ino == expected.ino by {
      InodeOfStat(host.world(host.now), host.open[fd].ino);
    }
    var made := host.Works();
    if !made {
      return Failure(CopyFailed);
    }
    var sink := host.CreateSink(destination);
    if sink.None? {
      return Failure(CopyFailed);
    }
    r := FillSink(host, budget, fd, sink.value, destination, expected, seen);
    host.Close(sink.value);
    assert host.open == old(host.open);
  }

  /** The part of it that runs with the destination open. */
  method FillSink(host: Host, budget: Budget, fd: nat, sink: nat, destination: Path, expected: Stat, ghost seen: nat)
    returns (r: Result<Data>)
    requires host.Valid() && fd in host.open && host.open[fd] == Source(expected.ino)
    requires sink in host.open && host.open[sink] == Sink(destination)
    requires destination in host.dest && host.dest[destination].bytes == []
    requires host.dest[destination].created <= host.dest[destination].written <= host.now
    requires SeenAt(host.world, expected, seen) && seen <= host.now && expected.kind.IsRegular?
    requires Room(host.written, expected.size, budget.totalBytes, budget.maxTotalBytes)
    modifies host`now, host`dest, host`written
    ensures old(host.now) <= host.now
    ensures old(host.written) <= host.written <= budget.maxTotalBytes
    ensures host.dest.Keys == old(host.dest).Keys
    ensures forall p :: p in host.dest && p != destination ==> host.dest[p] == old(host.dest)[p]
    ensures r.Success? ==> |r.value| == expected.size && host.written == old(host.written) + expected.size
    ensures r.Success? ==> host.dest[destination].bytes == r.value
    ensures r.Success? ==> Within(host.dest[destination], old(host.dest)[destination].created, host.now)
    ensures r.Success? && Honest(host.world) ==> Held(host.world, expected.ino, seen, host.now, r.value)
    ensures Calm(host, budget) && expected.size <= budget.maxFileBytes ==> r.Success?
  {
    hide Steady, Quiet, Held, Honest;
    r := CopyChunks(host, budget, fd, sink, destination, expected, seen);
    ghost var copied := host.now;
    if r.Success? {
      var after := host.Fstat(fd);
      var synced := host.Works();
      if Calm(host, budget) {
        QuietStat(host.world, expected, seen, host.now);
      }
      if |r.value| != expected.size || !MatchesStableFile(after, expected) {
        r := Failure(SourceChanged);
      } else if !synced {
        r := Failure(CopyFailed);
      } else if Honest(host.world) {
        StampFreezes(host.world, expected, seen, after, host.now);
        SteadyBefore(host.world, expected.ino, seen, copied, host.now);
        HeldFromSteady(host.world, expected.ino, seen, host.now, r.value);
      }
    }
  }

  lemma QuietStat(world: World, info: Stat, seen: nat, at: nat)
    requires Quiet(world) && SeenAt(world, info, seen)
    ensures StatOf(world(at), info.ino) == info
  {
    assert world(at) == world(0) == world(seen);
  }

  /** The read and write loop; it ends because the file limit ends it, even if the source keeps growing. */
  method CopyChunks(host: Host, budget: Budget, fd: nat, sink: nat, destination: Path, expected: Stat, ghost seen: nat)
    returns (r: Result<Data>)
    requires host.Valid() && fd in host.open && host.open[fd] == Source(expected.ino)
    requires sink in host.open && host.open[sink] == Sink(destination)
    requires destination in host.dest && host.dest[destination].bytes == []
    requires host.dest[destination].created <= host.dest[destination].written <= host.now
    requires SeenAt(host.world, expected, seen) && seen <= host.now && expected.kind.IsRegular?
    requires Room(host.written, expected.size, budget.totalBytes, budget.maxTotalBytes)
    modifies host`now, host`dest, host`written
    ensures old(host.now) <= host.now
    ensures old(host.written) <= host.written <= budget.maxTotalBytes
    ensures host.dest.Keys == old(host.dest).Keys
    ensures forall p :: p in host.dest && p != destination ==> host.dest[p] == old(host.dest)[p]
    ensures r.Success? ==> host.written == old(host.written) + |r.value| && host.dest[destination].bytes == r.value
    ensures r.Success? ==> Within(host.dest[destination], old(host.dest)[destination].created, host.now)
    ensures r.Success? && Steady(host.world, expected.ino, seen, host.now) && |r.value| == expected.size ==>
              r.value == host.world(seen)[expected.ino].bytes
    ensures Calm(host, budget) && expected.size <= budget.maxFileBytes ==> r.Success? && |r.value| == expected.size
  {
    hide Steady, StatOf, Quiet;
    var copied: Data := [];
    ghost var world, ino := host.world, expected.ino;
    ghost var calm := Calm(host, budget) && expected.size <= budget.maxFileBytes;
    SourceIsThere(world, expected, seen);
    while true
      invariant old(host.now) <= host.now
      invariant host.written == old(host.written) + |copied| <= budget.maxTotalBytes
      invariant host.dest.Keys == old(host.dest).Keys && host.dest[destination].bytes == copied
      invariant host.dest[destination].created == old(host.dest)[destination].created
      invariant Within(host.dest[destination], old(host.dest)[destination].created, host.now)
      invariant forall p :: p in host.dest && p != destination ==> host.dest[p] == old(host.dest)[p]
      invariant Steady(world, ino, seen, host.now) ==> copied <= world(seen)[ino].bytes
      invariant |copied| <= budget.maxFileBytes || copied == []
      decreases budget.maxFileBytes + 1 - |copied|
    {
      ghost var before := host.now;
      var chunk := host.Read(fd, |copied|);
      if calm {
        QuietRead(world, expected, seen, host.now);
      }
      if chunk.None? {
        return Failure(CopyFailed);
      }
      ReadExtends(world, ino, seen, before, host.now, copied, chunk.value);
      if chunk.value == [] {
        break;
      }
      var error := budget.CheckCopySize(expected.size, |copied| + |chunk.value|);
      if error.Some? {
        return Failure(error.value);
      }
      ghost var wrote := host.now;
      var ok := host.WriteAll(sink, chunk.value, budget.maxTotalBytes);
      if !ok {
        return Failure(CopyFailed);
      }
      SteadyBefore(world, ino, seen, wrote, host.now);
      copied := copied + chunk.value;
    }
    r := Success(copied);
  }

  lemma SourceIsThere(world: World, expected: Stat, seen: nat)
    requires SeenAt(world, expected, seen) && expected.kind.IsRegular?
    ensures expected.ino in world(seen) && world(seen)[expected.ino].Regular?
    ensures |world(seen)[expected.ino].bytes| == expected.size
  {
  }

  lemma QuietRead(world: World, expected: Stat, seen: nat, now: nat)
    requires Quiet(world) && SeenAt(world, expected, seen) && expected.kind.IsRegular? && seen <= now
    ensures Steady(world, expected.ino, seen, now)
    ensures expected.ino in world(now) && world(now)[expected.ino].Regular?
  {
    QuietIsSteady(world, expected.ino, seen, now);
  }

  lemma SteadyBefore(world: World, ino: Inode, from: nat, now: nat, later: nat)
    requires from <= now <= later
    ensures Steady(world, ino, from, later) ==> Steady(world, ino, from, now)
  {
  }

  /** What is read from a source that has not changed goes on with what was read before, and ends where the source does. */
  lemma ReadExtends(world: World, ino: Inode, from: nat, before: nat, now: nat, copied: Data, chunk: Data)
    requires from <= before <= now && ino in world(from) && world(from)[ino].Regular?
    requires Steady(world, ino, from, before) ==> copied <= world(from)[ino].bytes
    requires ino in world(now) && world(now)[ino].Regular?
    requires var bytes := world(now)[ino].bytes; var position := |copied|;
      if position >= |bytes| then chunk == []
      else chunk != [] && position + |chunk| <= |bytes| && chunk == bytes[position..position + |chunk|]
    ensures Steady(world, ino, from, now) ==> copied + chunk <= world(from)[ino].bytes
    ensures Steady(world, ino, from, now) && chunk == [] ==> copied == world(from)[ino].bytes
  {
    SteadyBefore(world, ino, from, before, now);
    if Steady(world, ino, from, now) {
      assert world(now)[ino] == world(from)[ino];
    }
  }

  ghost predicate Charged(budget: Budget)
    reads budget
  {
    budget.files <= budget.maxFiles && budget.directories <= budget.maxFiles && budget.totalBytes <= budget.maxTotalBytes
  }

  /** The next name the kernel reports, in whatever order; none once every current name has been reported. */
  method NextName(host: Host, ino: Inode, names: set<string>) returns (r: Result<Option<string>>)
    modifies host`now
    ensures old(host.now) <= host.now
    ensures r.Success? ==> ino in host.world(host.now) && host.world(host.now)[ino].Directory?
    ensures r.Success? && r.value.Some? ==> r.value.value in host.world(host.now)[ino].listing && r.value.value !in names
    ensures r.Success? && r.value.None? ==> forall name :: name in host.world(host.now)[ino].listing ==> name in names
    ensures host.faultless && r.Failure? ==> !(ino in host.world(host.now) && host.world(host.now)[ino].Directory?)
  {
    host.Tick();
    var works := host.Works();
    if !works || ino !in host.world(host.now) || !host.world(host.now)[ino].Directory? {
      return Failure(SourceInvalid);
    }
    var left := host.world(host.now)[ino].listing.Keys - names;
    if left == {} {
      assert forall name :: name in host.world(host.now)[ino].listing && name !in names ==> name in left;
      return Success(None);
    }
    var name :| name in left;
    return Success(Some(name));
  }

  predicate Admitted(info: Stat, depth: nat, maxDepth: nat, allowSymlinks: bool) {
    Copyable(info.kind) && (info.kind.IsDirectory? ==> depth < maxDepth) && (info.kind.IsSymlink? ==> allowSymlinks)
  }

  /** The entry, added to what was charged before, is over a limit. */
  predicate Exceeds(info: Stat, depth: nat, budget: Budget, files: nat, directories: nat, totalBytes: nat) {
    if info.kind.IsDirectory? then depth + 1 > budget.maxDepth || directories + 1 > budget.maxFiles
    else
      || files + 1 > budget.maxFiles
      || (info.kind.IsRegular? && (info.size > budget.maxFileBytes || totalBytes + info.size > budget.maxTotalBytes))
  }

  method ChargeEntry(budget: Budget, info: Stat, depth: nat, allowSymlinks: bool) returns (error: Option<Error>)
    requires Charged(budget)
    modifies budget
    ensures error.None? ==> Charged(budget) && Admitted(info, depth, budget.maxDepth, allowSymlinks)
    ensures error.None? ==> budget.files == old(budget.files) + (if info.kind.IsDirectory? then 0 else 1)
    ensures error.None? ==> budget.directories == old(budget.directories) + (if info.kind.IsDirectory? then 1 else 0)
    ensures error.None? ==> budget.totalBytes == old(budget.totalBytes) + (if info.kind.IsRegular? then info.size else 0)
    ensures error.None? && info.kind.IsRegular? ==> info.size <= budget.maxFileBytes
    ensures budget.patient && error.Some? ==>
      if error.value.LimitsExceeded? then budget.Over() && Exceeds(info, depth, budget, old(budget.files), old(budget.directories), old(budget.totalBytes))
      else !Copyable(info.kind) || (info.kind.IsSymlink? && !allowSymlinks)
  {
    if info.kind.IsSymlink? && allowSymlinks {
      error := budget.ReserveFile();
    } else if info.kind.IsDirectory? {
      budget.deepest := if budget.deepest < depth + 1 then depth + 1 else budget.deepest;
      if depth + 1 > budget.maxDepth {
        return Some(LimitsExceeded);
      }
      error := budget.AddDirectory();
    } else if info.kind.IsRegular? {
      error := budget.AddFile(info.size, false);
    } else {
      return Some(SourceInvalid);
    }
  }

  /** What an unfinished scan has found, provided the directory has not changed since `from`. */
  ghost predicate Finding(world: World, ino: Inode, from: nat, now: nat, found: seq<Entry>) {
    Steady(world, ino, from, now) && world(from)[ino].Directory? ==>
      forall e :: e in found ==> e.name in world(from)[ino].listing && world(from)[ino].listing[e.name] == e.info.ino
  }

  lemma NothingFound(world: World, ino: Inode, from: nat, now: nat)
    ensures Finding(world, ino, from, now, [])
    ensures Names([], {}) && DistinctNames([])
    ensures Files([]) == Dirs([]) == Bytes([]) == 0
  {
  }

  lemma FoundOneMore(world: World, ino: Inode, from: nat, now: nat, later: nat, found: seq<Entry>, e: Entry)
    requires Finding(world, ino, from, now, found) && from <= now <= later
    requires ino in world(later) && world(later)[ino].Directory? && e.name in world(later)[ino].listing
    requires world(later)[ino].listing[e.name] == e.info.ino
    ensures Finding(world, ino, from, later, found + [e])
  {
    if Steady(world, ino, from, later) {
      assert Steady(world, ino, from, now);
      assert world(later)[ino] == world(from)[ino];
    }
  }

  lemma FoundAll(world: World, ino: Inode, from: nat, now: nat, later: nat, found: seq<Entry>, names: set<string>,
                 es: seq<Entry>)
    requires Finding(world, ino, from, now, found) && from <= now <= later
    requires ino in world(later) && world(later)[ino].Directory?
    requires Names(found, names) && forall name :: name in world(later)[ino].listing ==> name in names
    requires forall e :: e in es <==> e in found
    ensures Scanned(world, ino, from, later, es)
  {
    if Steady(world, ino, from, later) {
      assert Steady(world, ino, from, now);
      assert world(later)[ino] == world(from)[ino];
      forall name | name in world(from)[ino].listing
        ensures exists e :: e in es && e.name == name
      {
        var e :| e in found && e.name == name;
        assert e in es;
      }
    }
  }

  predicate Names(found: seq<Entry>, names: set<string>) {
    && (forall e :: e in found ==> e.name in names)
    && (forall name :: name in names ==> exists e :: e in found && e.name == name)
  }

  lemma NamesOneMore(found: seq<Entry>, names: set<string>, e: Entry)
    requires Names(found, names) && DistinctNames(found) && e.name !in names
    ensures Names(found + [e], names + {e.name}) && DistinctNames(found + [e])
  {
    forall name | name in names + {e.name}
      ensures exists x :: x in found + [e] && x.name == name
    {
      if name == e.name {
        assert e in found + [e];
      } else {
        var x :| x in found && x.name == name;
        assert x in found + [e];
      }
    }
  }

  predicate SizesFit(es: seq<Entry>, maxFileBytes: nat) {
    forall e :: e in es && e.info.kind.IsRegular? ==> e.info.size <= maxFileBytes
  }

  /** One entry: its stat and its charge. */
  method ScanEntry(host: Host, budget: Budget, dir: Opened, name: string, allowSymlinks: bool) returns (r: Result<Entry>)
    requires dir.fd in host.open && host.open[dir.fd] == Source(dir.expected.ino)
    requires dir.at <= host.now && Charged(budget)
    modifies host`now, budget
    ensures old(host.now) <= host.now
    ensures r.Success? ==> Charged(budget) && r.value.name == name && r.value.at == host.now
    ensures r.Success? ==> var ino := dir.expected.ino;
      && ino in host.world(host.now) && host.world(host.now)[ino].Directory?
      && name in host.world(host.now)[ino].listing && host.world(host.now)[ino].listing[name] == r.value.info.ino
    ensures r.Success? ==> Seen(host.world, r.value, dir.at, host.now)
    ensures r.Success? ==> Admitted(r.value.info, dir.depth, budget.maxDepth, allowSymlinks)
    ensures r.Success? ==> budget.files == old(budget.files) + Files([r.value])
    ensures r.Success? ==> budget.directories == old(budget.directories) + Dirs([r.value])
    ensures r.Success? ==> budget.totalBytes == old(budget.totalBytes) + Bytes([r.value])
    ensures r.Success? && r.value.info.kind.IsRegular? ==> r.value.info.size <= budget.maxFileBytes
    ensures Calm(host, budget) && OrdinaryDirectory(host.world(0), dir.expected.ino) ==>
      (name in host.world(0)[dir.expected.ino].listing ==> OnlyOver(r, budget))
  {
    var error := budget.CheckDeadline();
    if error.Some? {
      return Failure(error.value);
    }
    var info := host.StatAt(dir.fd, name);
    if info.None? {
      return Failure(SourceInvalid);
    }
    error := ChargeEntry(budget, info.value, dir.depth, allowSymlinks);
    if error.Some? {
      return Failure(error.value);
    }
    r := Success(Entry(name, info.value, host.now));
  }

  lemma OneMoreScanned(world: World, found: seq<Entry>, e: Entry, from: nat, last: nat, now: nat, depth: nat, maxDepth: nat,
                       allowSymlinks: bool)
    requires last <= now
    requires forall x :: x in found ==> Seen(world, x, from, last) && Admitted(x.info, depth, maxDepth, allowSymlinks)
    requires Seen(world, e, from, now) && Admitted(e.info, depth, maxDepth, allowSymlinks)
    ensures forall x :: x in found + [e] ==> Seen(world, x, from, now) && Admitted(x.info, depth, maxDepth, allowSymlinks)
  {
  }

  /** `_scan_directory_fd`: charges every entry as it is seen, before anything of it is copied. */
  method ScanDirectory(host: Host, budget: Budget, dir: Opened, allowSymlinks: bool) returns (r: Result<seq<Entry>>)
    requires host.Valid() && dir.fd in host.open && host.open[dir.fd] == Source(dir.expected.ino)
    requires dir.at <= host.now && Charged(budget)
    modifies host`now, budget
    ensures old(host.now) <= host.now
    ensures r.Success? ==> EntriesOk(host.world, host.now, budget.maxDepth, dir, r.value, host.now) && Charged(budget)
    ensures r.Success? ==> budget.files == old(budget.files) + Files(r.value)
    ensures r.Success? ==> budget.directories == old(budget.directories) + Dirs(r.value)
    ensures r.Success? ==> budget.totalBytes == old(budget.totalBytes) + Bytes(r.value)
    ensures r.Success? && !allowSymlinks ==> forall e :: e in r.value ==> !e.info.kind.IsSymlink?
    ensures r.Success? ==> SizesFit(r.value, budget.maxFileBytes)
    ensures Calm(host, budget) && OrdinaryDirectory(host.world(0), dir.expected.ino) ==> OnlyOver(r, budget)
  {
    hide Steady, Covers, Scanned, Finding, Insert, SortByName, Names, DistinctNames, Admitted, Files, Dirs, Bytes, Seen;
    var found: seq<Entry> := [];
    var names: set<string> := {};
    ghost var world, ino, last := host.world, dir.expected.ino, host.now;
    NothingFound(world, ino, dir.at, host.now);
    while true
      invariant old(host.now) <= host.now && dir.at <= last <= host.now && Charged(budget)
      invariant DistinctNames(found) && Names(found, names) && Finding(world, ino, dir.at, last, found)
      invariant SizesFit(found, budget.maxFileBytes)
      invariant forall e :: e in found ==>
        Seen(world, e, dir.at, last) && Admitted(e.info, dir.depth, budget.maxDepth, allowSymlinks)
      invariant budget.files == old(budget.files) + Files(found)
      invariant budget.directories == old(budget.directories) + Dirs(found)
      invariant budget.totalBytes == old(budget.totalBytes) + Bytes(found)
      decreases 2 * budget.maxFiles - budget.files - budget.directories
    {
      var next := NextName(host, dir.expected.ino, names);
      if next.Failure? {
        return Failure(next.error);
      }
      if next.value.None? {
        break;
      }
      var scanned := ScanEntry(host, budget, dir, next.value.value, allowSymlinks);
      if scanned.Failure? {
        return Failure(scanned.error);
      }
      var e := scanned.value;
      FoundOneMore(world, ino, dir.at, last, host.now, found, e);
      NamesOneMore(found, names, e);
      OneMoreScanned(world, found, e, dir.at, last, host.now, dir.depth, budget.maxDepth, allowSymlinks);
      WeightsAppend(found, [e]);
      OneWeighs(e);
      found, names := found + [e], names + {e.name};
      last := host.now;
    }
    SortingOrders(found);
    r := Success(SortByName(found));
    FoundAll(world, ino, dir.at, last, host.now, found, names, r.value);
    AllScanned(world, r.value, found, dir.at, last, host.now, dir.depth, budget.maxDepth, allowSymlinks);
  }

  lemma OneWeighs(e: Entry)
    ensures Files([e]) + Dirs([e]) == 1
  {
  }

  lemma AllScanned(world: World, es: seq<Entry>, found: seq<Entry>, from: nat, last: nat, now: nat, depth: nat,
                   maxDepth: nat, allowSymlinks: bool)
    requires last <= now && forall x :: x in es <==> x in found
    requires forall x :: x in found ==> Seen(world, x, from, last) && Admitted(x.info, depth, maxDepth, allowSymlinks)
    ensures forall x :: x in es ==> Seen(world, x, from, now) && (x.info.kind.IsDirectory? ==> depth < maxDepth)
    ensures !allowSymlinks ==> forall x :: x in es ==> !x.info.kind.IsSymlink?
  {
  }

  /** Opens a subdirectory and checks that it is the one `expected` described. */
  method OpenChild(host: Host, fd: nat, name: string, expected: Stat) returns (r: Result<nat>)
    requires host.Valid() && fd in host.open && host.open[fd].Source?
    modifies host`now, host`nextFd, host`open
    ensures host.Valid() && old(host.now) <= host.now && old(host.nextFd) <= host.nextFd
    ensures r.Failure? ==> host.open == old(host.open)
    ensures r.Success? ==> old(host.nextFd) <= r.value < host.nextFd
    ensures r.Success? ==> host.open == old(host.open)[r.value := Source(expected.ino)]
    ensures r.Success? ==> exists info :: SeenAt(host.world, info, host.now) && MatchesIdentity(info, expected, true)
    ensures host.faultless && Quiet(host.world) && Listed(host.world(0), old(host.open)[fd].ino, name, expected.ino) ==>
      (expected.kind.IsDirectory? && expected == StatOf(host.world(0), expected.ino) ==> r.Success?)
  {
    var child := host.OpenAt(fd, name, true);
    if child.None? {
      return Failure(SourceInvalid);
    }
    var info := host.Fstat(child.value);
    if !MatchesIdentity(info, expected, true) {
      host.Close(child.value);
      assert host.open == old(host.open);
      return Failure(SourceChanged);
    }
    r := Success(child.value);
  }

  /** `_open_absolute_directory`: on failure every descriptor it opened is closed again. */
  method OpenAbsoluteDirectory(host: Host, budget: Budget, path: Path)
    returns (r: Result<nat>, info: Stat, seen: nat)
    requires host.Valid()
    modifies host`now, host`nextFd, host`open
    ensures host.Valid() && old(host.now) <= seen <= host.now && old(host.nextFd) <= host.nextFd
    ensures r.Failure? ==> host.open == old(host.open)
    ensures r.Success? ==> old(host.nextFd) <= r.value < host.nextFd
    ensures r.Success? ==> host.open == old(host.open)[r.value := Source(info.ino)]
    ensures r.Success? ==> info.kind.IsDirectory? && SeenAt(host.world, info, seen)
    ensures r.Success? ==> host.resolve(host.world(host.now), path) == Some(info.ino)
    ensures Calm(host, budget) && Opens(host.world(0), host.root, host.resolve, path) ==> r.Success?
  {
    hide Walk, Quiet;
    seen, info := host.now, Stat(IsSpecial, 0, 0, 0);
    ghost var opens := Calm(host, budget) && Opens(host.world(0), host.root, host.resolve, path);
    var expected := host.Lstat(path);
    if opens {
      OpensAtAnyTime(host.world, host.root, host.resolve, path, host.now);
    }
    if expected.None? || !expected.value.kind.IsDirectory? {
      return Failure(SourceInvalid), info, seen;
    }
    r, info, seen := Descend(host, budget, path);
    if r.Success? {
      var after := host.Lstat(path);
      if opens {
        OpensAtAnyTime(host.world, host.root, host.resolve, path, host.now);
        OpensAtAnyTime(host.world, host.root, host.resolve, path, seen);
      }
      if after.None? || !MatchesIdentity(info, expected.value, true) || !MatchesIdentity(after.value, expected.value, true) {
        host.Close(r.value);
        assert host.open == old(host.open);
        r := Failure(if after.None? then SourceInvalid else SourceChanged);
      }
    }
  }

  /** In a quiet world the path leads to the same directory at all times. */
  lemma OpensAtAnyTime(world: World, root: Inode, resolve: Resolver, path: Path, at: nat)
    requires Quiet(world) && Opens(world(0), root, resolve, path)
    ensures var ino := Walk(world(0), root, path).value;
      && resolve(world(at), path) == Some(ino) && StatOf(world(at), ino) == StatOf(world(0), ino)
      && StatOf(world(at), ino).kind.IsDirectory?
  {
    WalkEnds(world(0), root, path);
    assert world(at) == world(0);
    hide Walk;
  }

  /** From the root down, one component after the other. */
  method Descend(host: Host, budget: Budget, path: Path) returns (r: Result<nat>, info: Stat, seen: nat)
    requires host.Valid()
    modifies host`now, host`nextFd, host`open
    ensures host.Valid() && old(host.now) <= seen <= host.now && old(host.nextFd) <= host.nextFd
    ensures r.Failure? ==> host.open == old(host.open)
    ensures r.Success? ==> old(host.nextFd) <= r.value < host.nextFd
    ensures r.Success? ==> host.open == old(host.open)[r.value := Source(info.ino)]
    ensures r.Success? ==> info == StatOf(host.world(seen), info.ino)
    ensures Calm(host, budget) && Opens(host.world(0), host.root, host.resolve, path) ==>
      r.Success? && Walk(host.world(0), host.root, path) == Some(info.ino)
  {
    hide Walk, Quiet, StatOf;
    seen, info := host.now, Stat(IsSpecial, 0, 0, 0);
    ghost var fs, opens := host.world(0), Calm(host, budget) && Opens(host.world(0), host.root, host.resolve, path);
    var anchor := host.OpenRoot();
    if anchor.None? {
      return Failure(SourceInvalid), info, seen;
    }
    r := Success(anchor.value);
    info := host.Fstat(anchor.value);
    seen := host.now;
    assert info.ino == host.root by {
      InodeOfStat(host.world(host.now), host.root);
    }
    if opens {
      WalkStarts(fs, host.root, path);
    }
    var i := 0;
    while i < |path| && r.Success?
      invariant i <= |path| && host.Valid() && old(host.now) <= seen <= host.now && old(host.nextFd) <= host.nextFd
      invariant r.Failure? ==> host.open == old(host.open)
      invariant r.Success? ==> old(host.nextFd) <= r.value < host.nextFd
      invariant r.Success? ==> host.open == old(host.open)[r.value := Source(info.ino)]
      invariant r.Success? ==> info == StatOf(host.world(seen), info.ino)
      invariant opens ==> r.Success? && Walk(fs, host.root, path[..i]) == Some(info.ino)
      decreases |path| - i
    {
      if opens {
        WalkOn(fs, host.root, path, i);
      }
      r, info, seen := DescendInto(host, budget, r.value, path[i], info);
      i := i + 1;
    }
    assert opens ==> path[..i] == path;
  }

  lemma InodeOfStat(fs: Fs, ino: Inode)
    ensures StatOf(fs, ino).ino == ino
  {
  }

  /** The directory has a directory under this name. */
  predicate IsSubdirectory(fs: Fs, dir: Inode, name: string) {
    && dir in fs && fs[dir].Directory? && name in fs[dir].listing
    && fs[dir].listing[name] in fs && fs[fs[dir].listing[name]].Directory?
  }

  /** One component further down: the descriptor above is closed either way. */
  method DescendInto(host: Host, budget: Budget, fd: nat, name: string, info: Stat)
    returns (r: Result<nat>, childInfo: Stat, seen: nat)
    requires host.Valid() && fd in host.open && host.open[fd].Source?
    modifies host`now, host`nextFd, host`open
    ensures host.Valid() && old(host.now) <= seen <= host.now && old(host.nextFd) <= host.nextFd
    ensures r.Failure? ==> host.open == old(host.open) - {fd}
    ensures r.Success? ==> old(host.nextFd) <= r.value < host.nextFd
    ensures r.Success? ==> host.open == (old(host.open) - {fd})[r.value := Source(childInfo.ino)]
    ensures r.Success? ==> childInfo == StatOf(host.world(seen), childInfo.ino)
    ensures Calm(host, budget) && IsSubdirectory(host.world(0), old(host.open)[fd].ino, name) ==>
      r.Success? && childInfo.ino == host.world(0)[old(host.open)[fd].ino].listing[name]
  {
    seen, childInfo := host.now, info;
    var error := budget.CheckDeadline();
    var before := host.StatAt(fd, name);
    if error.Some? || before.None? || !before.value.kind.IsDirectory? {
      host.Close(fd);
      return Failure(if error.Some? then error.value else SourceInvalid), info, host.now;
    }
    var child := host.OpenAt(fd, name, true);
    if child.None? {
      host.Close(fd);
      return Failure(SourceInvalid), info, host.now;
    }
    childInfo := host.Fstat(child.value);
    seen := host.now;
    if !MatchesIdentity(childInfo, before.value, true) {
      host.Close(child.value);
      assert host.open == old(host.open);
      host.Close(fd);
      return Failure(SourceChanged), childInfo, host.now;
    }
    host.Close(fd);
    r := Success(child.value);
  }

  /** The checks before a frame is popped: the directory and its entry above are still what they were when first
      seen, so the directory did not change in between. */
  method LeaveDirectory(host: Host, dir: Opened, below: Option<nat>) returns (error: Option<Error>)
    requires host.Valid() && dir.fd in host.open && host.open[dir.fd] == Source(dir.expected.ino)
    requires below.Some? ==> below.value in host.open && host.open[below.value].Source?
    requires dir.expected.kind.IsDirectory? && SeenAt(host.world, dir.expected, dir.at) && dir.at <= host.now
    modifies host`now
    ensures old(host.now) <= host.now
    ensures error.None? && Honest(host.world) ==> Steady(host.world, dir.expected.ino, dir.at, host.now)
    ensures error.None? && below.None? ==> host.resolve(host.world(host.now), dir.source) == Some(dir.expected.ino)
    ensures host.faultless && Quiet(host.world) ==>
      (if below.Some? then Listed(host.world(0), host.open[below.value].ino, dir.name, dir.expected.ino)
       else host.resolve(host.world(0), dir.source) == Some(dir.expected.ino)) ==> error.None?
  {
    var info := host.Fstat(dir.fd);
    if !MatchesIdentity(info, dir.expected, true) {
      return Some(SourceChanged);
    }
    var linked;
    if below.Some? {
      linked := host.StatAt(below.value, dir.name);
    } else {
      linked := host.Lstat(dir.source);
    }
    if linked.None? {
      return Some(SourceInvalid);
    }
    if !MatchesIdentity(linked.value, dir.expected, true) {
      return Some(SourceChanged);
    }
    if Honest(host.world) {
      StampFreezes(host.world, dir.expected, dir.at, linked.value, host.now);
    }
    error := None;
  }

  /** A regular file of a scanned directory: it held what was copied from its scan to the check after the copy. */
  method VisitFile(host: Host, budget: Budget, fd: nat, destination: Path, e: Entry, ghost dir: Inode)
    returns (r: Result<Data>, ghost tree: Tree)
    requires host.Valid() && fd in host.open && host.open[fd].Source?
    requires e.info.kind.IsRegular? && SeenAt(host.world, e.info, e.at) && e.at <= host.now
    requires Room(host.written, e.info.size, budget.totalBytes, budget.maxTotalBytes)
    modifies host
    ensures host.Valid() && host.open == old(host.open) && old(host.now) <= host.now && old(host.nextFd) <= host.nextFd
    ensures old(host.written) <= host.written <= budget.maxTotalBytes
    ensures Kept(old(host.dest), host.dest) && host.dest.Keys <= old(host.dest).Keys + {destination}
    ensures r.Success? ==> CopiedTo(host.dest, destination, tree)
    ensures r.Success? ==> host.written == old(host.written) + |r.value|
    ensures r.Success? ==> tree.FileNode? && tree.bytes == r.value && old(host.now) <= tree.to
    ensures r.Success? && Honest(host.world) ==> Faithful(host.world, tree)
    ensures r.Success? ==> Finished(host.world, dir, e, Child(e.name, tree), e.at, host.now)
    ensures Calm(host, budget) && Listed(host.world(0), old(host.open)[fd].ino, e.name, e.info.ino) ==>
      (e.info.size <= budget.maxFileBytes && destination !in old(host.dest) ==> r.Success?)
  {
    tree := FileNode(e.info.ino, e.at, host.now, []);
    var source := host.OpenAt(fd, e.name, false);
    if source.None? {
      return Failure(SourceInvalid), tree;
    }
    r := CopyDescriptor(host, budget, source.value, destination, e.info, e.at);
    if r.Success? {
      var linked := host.StatAt(fd, e.name);
      if linked.None? {
        r := Failure(SourceInvalid);
      } else if !MatchesStableFile(linked.value, e.info) {
        r := Failure(SourceChanged);
      } else {
        tree := FileNode(e.info.ino, e.at, host.now, r.value);
        if Honest(host.world) {
          StampFreezes(host.world, e.info, e.at, linked.value, host.now);
          HeldFromSteady(host.world, e.info.ino, e.at, host.now, r.value);
        }
      }
    }
    host.Close(source.value);
    assert host.open == old(host.open);
  }

  /** The text was read at this moment from whatever link the name led to. */
  ghost predicate TextRead(world: World, dir: Inode, name: string, at: nat, text: seq<string>) {
    && dir in world(at) && world(at)[dir].Directory? && name in world(at)[dir].listing
    && var ino := world(at)[dir].listing[name];
       ino in world(at) && world(at)[ino].Symlink? && world(at)[ino].text == text
  }

  /** The name led to an inode with this stat at this moment. */
  ghost predicate Linked(world: World, dir: Inode, name: string, at: nat, info: Stat) {
    && dir in world(at) && world(at)[dir].Directory? && name in world(at)[dir].listing
    && info == StatOf(world(at), world(at)[dir].listing[name])
  }

  lemma LinkText(world: World, maxDepth: nat, now: nat, dir: Opened, es: seq<Entry>, ready: nat, e: Entry,
                 read: nat, text: seq<string>, to: nat, last: Stat, later: nat)
    requires Honest(world) && EntriesOk(world, now, maxDepth, dir, es, ready) && e in es
    requires e.at <= read <= to <= later && ready <= to && Steady(world, dir.expected.ino, dir.at, to)
    requires e.info.kind.IsSymlink? && TextRead(world, dir.expected.ino, e.name, read, text)
    requires SeenAt(world, last, later) && MatchesStableSymlink(last, e.info)
    ensures forall m: nat :: e.at <= m <= to ==>
      e.info.ino in world(m) && world(m)[e.info.ino].Symlink? && world(m)[e.info.ino].text == text
  {
    assert Seen(world, e, dir.at, now);
    assert Steady(world, dir.expected.ino, dir.at, ready);
    assert world(read)[dir.expected.ino] == world(dir.at)[dir.expected.ino];
    StampFreezes(world, e.info, e.at, last, later);
    assert world(read)[e.info.ino] == world(e.at)[e.info.ino];
  }

  lemma TargetHeld(world: World, parent: Stat, parentSeen: nat, parentAfter: Stat, parentLater: nat, name: string,
                   target: Stat, seen: nat, after: Stat, to: nat, bytes: Data, copied: nat)
    requires Honest(world) && parentSeen <= seen <= copied <= to <= parentLater
    requires parent.kind.IsDirectory? && SeenAt(world, parent, parentSeen)
    requires SeenAt(world, parentAfter, parentLater) && MatchesIdentity(parentAfter, parent, true)
    requires target.kind.IsRegular? && Linked(world, parent.ino, name, seen, target)
    requires SeenAt(world, after, to) && MatchesStableFile(after, target)
    requires Held(world, target.ino, seen, copied, bytes)
    ensures forall m: nat :: seen <= m <= to ==>
      && parent.ino in world(m) && world(m)[parent.ino].Directory?
      && name in world(m)[parent.ino].listing && world(m)[parent.ino].listing[name] == target.ino
      && target.ino in world(m) && world(m)[target.ino].Regular? && world(m)[target.ino].bytes == bytes
  {
    StampFreezes(world, parent, parentSeen, parentAfter, parentLater);
    StampFreezes(world, target, seen, after, to);
    forall m: nat | seen <= m <= to
      ensures world(m)[parent.ino] == world(seen)[parent.ino] && world(m)[target.ino] == world(seen)[target.ino]
    {
      assert world(m)[parent.ino] == world(parentSeen)[parent.ino] == world(seen)[parent.ino];
    }
  }

  /** The checks after a link was copied: the target, its directory, the link and its text are what they were. */
  method RecheckLink(host: Host, maxDepth: nat, f: Frame, parentFd: nat, parent: Path, name: string, parentInfo: Stat,
                     target: Stat, text: seq<string>, ghost read: nat, ghost parentSeen: nat, ghost seen: nat, bytes: Data)
    returns (ok: bool, ghost to: nat)
    requires host.Valid() && f.dir.fd in host.open && host.open[f.dir.fd] == Source(f.dir.expected.ino)
    requires parentFd in host.open && host.open[parentFd] == Source(parentInfo.ino)
    requires f.entries.Some? && f.index < |f.entries.value| && Current(f).info.kind.IsSymlink? && f.ready <= host.now
    requires EntriesOk(host.world, host.now, maxDepth, f.dir, f.entries.value, f.ready)
    requires parentInfo.kind.IsDirectory? && SeenAt(host.world, parentInfo, parentSeen) && parentSeen <= seen <= host.now
    requires Current(f).at <= read <= seen && TextRead(host.world, f.dir.expected.ino, Current(f).name, read, text)
    requires target.kind.IsRegular? && Linked(host.world, parentInfo.ino, name, seen, target)
    requires Honest(host.world) ==> Held(host.world, target.ino, seen, host.now, bytes)
    modifies host`now
    ensures old(host.now) <= to <= host.now
    ensures var e := Current(f);
      ok && Honest(host.world) && Steady(host.world, f.dir.expected.ino, f.dir.at, to) ==>
      Faithful(host.world, LinkNode(e.info.ino, e.at, to, text, parentInfo.ino, name, target.ino, seen, bytes))
  {
    ghost var world, start := host.world, host.now;
    var e := Current(f);
    var after := host.StatAt(parentFd, name);
    to := host.now;
    var parentAfter := host.Fstat(parentFd);
    ghost var parentLater := host.now;
    var parentLinked := host.Lstat(parent);
    var last := host.StatAt(f.dir.fd, e.name);
    ghost var later := host.now;
    var lastText := host.ReadLink(f.dir.fd, e.name);
    ok := && after.Some? && parentLinked.Some? && last.Some? && lastText == Some(text)
          && MatchesStableFile(after.value, target) && MatchesIdentity(parentAfter, parentInfo, true)
          && MatchesIdentity(parentLinked.value, parentInfo, true) && MatchesStableSymlink(last.value, e.info);
    if ok && Honest(world) && Steady(world, f.dir.expected.ino, f.dir.at, to) {
      LinkText(world, maxDepth, start, f.dir, f.entries.value, f.ready, e, read, text, to, last.value, later);
      TargetHeld(world, parentInfo, parentSeen, parentAfter, parentLater, name, target, seen, after.value, to, bytes, start);
    }
  }

  /** The part of `_copy_approved_symlink` that runs with the target's directory open. */
  method CopyTarget(host: Host, budget: Budget, f: Frame, destination: Path, parentFd: nat, parent: Path, name: string,
                    parentInfo: Stat, ghost parentSeen: nat, text: seq<string>, ghost read: nat)
    returns (r: Result<Data>, ghost tree: Tree)
    requires host.Valid() && f.dir.fd in host.open && host.open[f.dir.fd] == Source(f.dir.expected.ino)
    requires parentFd in host.open && host.open[parentFd] == Source(parentInfo.ino)
    requires f.entries.Some? && f.index < |f.entries.value| && Current(f).info.kind.IsSymlink? && f.ready <= host.now
    requires EntriesOk(host.world, host.now, budget.maxDepth, f.dir, f.entries.value, f.ready)
    requires parentInfo.kind.IsDirectory? && SeenAt(host.world, parentInfo, parentSeen) && parentSeen <= host.now
    requires Current(f).at <= read <= host.now
    requires TextRead(host.world, f.dir.expected.ino, Current(f).name, read, text)
    requires Charged(budget) && host.written <= budget.totalBytes
    modifies host, budget
    ensures host.Valid() && host.open == old(host.open) && old(host.now) <= host.now && old(host.nextFd) <= host.nextFd
    ensures old(host.written) <= host.written <= budget.maxTotalBytes
    ensures Kept(old(host.dest), host.dest) && host.dest.Keys <= old(host.dest).Keys + {destination}
    ensures r.Success? ==> Charged(budget) && budget.files == old(budget.files)
                           && budget.directories == old(budget.directories)
    ensures r.Success? ==> budget.totalBytes == old(budget.totalBytes) + |r.value|
    ensures r.Success? ==> CopiedTo(host.dest, destination, tree)
    ensures r.Success? ==> host.written == old(host.written) + |r.value|
    ensures r.Success? ==> tree.LinkNode? && tree.bytes == r.value && tree.text == text
    ensures r.Success? ==> tree.parent == parentInfo.ino && tree.target == name
    ensures r.Success? ==> tree.from == Current(f).at && old(host.now) <= tree.to
    ensures r.Success? ==> var e := Current(f);
              Finished(host.world, f.dir.expected.ino, e, Child(e.name, tree), f.dir.at, host.now)
  {
    hide EntriesOk, Faithful, Linked, TextRead, StatOf, Held, Steady;
    CurrentIsSeen(host.world, host.now, budget.maxDepth, f);
    var e := Current(f);
    ghost var start := host.now;
    tree := FileNode(0, 0, 0, []);
    var source, target, seen := ChargeTarget(host, budget, parentFd, name);
    if source.Failure? {
      return Failure(source.error), tree;
    }
    r := CopyDescriptor(host, budget, source.value, destination, target, seen);
    if r.Success? {
      EntriesLater(host.world, start, host.now, budget.maxDepth, f.dir, f.entries.value, f.ready);
      var ok, to := RecheckLink(host, budget.maxDepth, f, parentFd, parent, name, parentInfo, target, text, read, parentSeen, seen, r.value);
      if ok {
        tree := LinkNode(e.info.ino, e.at, to, text, parentInfo.ino, name, target.ino, seen, r.value);
      } else {
        r := Failure(SourceChanged);
      }
    }
    host.Close(source.value);
    assert host.open == old(host.open);
  }

  /** The target is charged before it is opened; a failed open is reported as a change unless nothing changed. */
  method ChargeTarget(host: Host, budget: Budget, parentFd: nat, name: string)
    returns (r: Result<nat>, target: Stat, ghost seen: nat)
    requires host.Valid() && parentFd in host.open && host.open[parentFd].Source? && Charged(budget)
    modifies host`now, host`nextFd, host`open, budget
    ensures host.Valid() && old(host.now) <= seen <= host.now && old(host.nextFd) <= host.nextFd
    ensures r.Failure? ==> host.open == old(host.open)
    ensures r.Success? ==> r.value == old(host.nextFd) < host.nextFd
    ensures r.Success? ==> exists ino :: host.open == old(host.open)[r.value := Source(ino)]
    ensures r.Success? ==> target.kind.IsRegular?
                           && Linked(host.world, old(host.open)[parentFd].ino, name, seen, target)
                           && SeenAt(host.world, target, seen)
    ensures r.Success? ==> Charged(budget) && budget.files == old(budget.files)
                           && budget.directories == old(budget.directories)
                           && budget.totalBytes == old(budget.totalBytes) + target.size
  {
    var info := host.StatAt(parentFd, name);
    seen := host.now;
    target := Stat(IsSpecial, 0, 0, 0);
    if info.None? || !info.value.kind.IsRegular? {
      return Failure(SourceInvalid), target, seen;
    }
    target := info.value;
    var error := budget.AddFile(target.size, true);
    if error.Some? {
      return Failure(error.value), target, seen;
    }
    var source := host.OpenAt(parentFd, name, false);
    if source.None? {
      var current := host.StatAt(parentFd, name);
      var same := current.Some? && MatchesStableFile(current.value, target);
      return Failure(if same then SourceInvalid else SourceChanged), target, seen;
    }
    r := Success(source.value);
  }

  lemma EntriesLater(world: World, now: nat, later: nat, maxDepth: nat, dir: Opened, es: seq<Entry>, ready: nat)
    requires EntriesOk(world, now, maxDepth, dir, es, ready) && now <= later
    ensures EntriesOk(world, later, maxDepth, dir, es, ready)
  {
  }

  /** `_copy_approved_symlink`: a link is copied as the regular file it leads to. */
  method VisitLink(host: Host, budget: Budget, f: Frame, destination: Path, roots: seq<Path>)
    returns (r: Result<Data>, ghost tree: Tree)
    requires host.Valid() && f.dir.fd in host.open && host.open[f.dir.fd] == Source(f.dir.expected.ino)
    requires f.entries.Some? && f.index < |f.entries.value| && Current(f).info.kind.IsSymlink? && f.ready <= host.now
    requires EntriesOk(host.world, host.now, budget.maxDepth, f.dir, f.entries.value, f.ready)
    requires Charged(budget) && host.written <= budget.totalBytes
    modifies host, budget
    ensures host.Valid() && host.open == old(host.open) && old(host.now) <= host.now && old(host.nextFd) <= host.nextFd
    ensures old(host.written) <= host.written <= budget.maxTotalBytes
    ensures Kept(old(host.dest), host.dest) && host.dest.Keys <= old(host.dest).Keys + {destination}
    ensures r.Success? ==> Charged(budget) && budget.files == old(budget.files)
                           && budget.directories == old(budget.directories)
    ensures r.Success? ==> budget.totalBytes == old(budget.totalBytes) + |r.value|
    ensures r.Success? ==> CopiedTo(host.dest, destination, tree)
    ensures r.Success? ==> host.written == old(host.written) + |r.value|
    ensures r.Success? ==> tree.LinkNode? && tree.bytes == r.value && old(host.now) <= tree.to
    ensures r.Success? ==> var e := Current(f);
              Finished(host.world, f.dir.expected.ino, e, Child(e.name, tree), f.dir.at, host.now)
    ensures r.Success? ==> Resolved(host.world, host.resolve, f.dir.source + [Current(f).name], tree)
    ensures r.Success? ==> Confined(roots, f.dir.source + [Current(f).name], tree)
  {
    hide EntriesOk, Finished, Faithful, Resolved, Joined, Allowed, Approved, CopiedTo;
    ghost var start := host.now;
    CurrentIsSeen(host.world, start, budget.maxDepth, f);
    var e := Current(f);
    tree := FileNode(0, 0, 0, []);
    var text := host.ReadLink(f.dir.fd, e.name);
    ghost var read := host.now;
    var linked := host.StatAt(f.dir.fd, e.name);
    if text.None? || linked.None? || !MatchesStableSymlink(linked.value, e.info) {
      return Failure(SourceChanged), tree;
    }
    if text.value == [] {
      return Failure(SourceInvalid), tree;
    }
    var target := ApprovedTarget(f.dir.source, text.value, roots);
    if target.None? || target.value == [] {
      return Failure(SourceInvalid), tree;
    }
    EntriesLater(host.world, start, host.now, budget.maxDepth, f.dir, f.entries.value, f.ready);
    r, tree := FollowLink(host, budget, f, destination, target.value, text.value, read);
    assert (f.dir.source + [e.name])[..|f.dir.source|] == f.dir.source;
  }

  /** Opens the directory of the target, copies the target and closes the directory again. */
  method FollowLink(host: Host, budget: Budget, f: Frame, destination: Path, target: Path, text: seq<string>, ghost read: nat)
    returns (r: Result<Data>, ghost tree: Tree)
    requires host.Valid() && f.dir.fd in host.open && host.open[f.dir.fd] == Source(f.dir.expected.ino)
    requires f.entries.Some? && f.index < |f.entries.value| && Current(f).info.kind.IsSymlink? && f.ready <= host.now
    requires EntriesOk(host.world, host.now, budget.maxDepth, f.dir, f.entries.value, f.ready)
    requires Current(f).at <= read <= host.now
    requires TextRead(host.world, f.dir.expected.ino, Current(f).name, read, text)
    requires target != [] && target == Joined(f.dir.source, text)
    requires Charged(budget) && host.written <= budget.totalBytes
    modifies host, budget
    ensures host.Valid() && host.open == old(host.open) && old(host.now) <= host.now && old(host.nextFd) <= host.nextFd
    ensures old(host.written) <= host.written <= budget.maxTotalBytes
    ensures Kept(old(host.dest), host.dest) && host.dest.Keys <= old(host.dest).Keys + {destination}
    ensures r.Success? ==> Charged(budget) && budget.files == old(budget.files)
                           && budget.directories == old(budget.directories)
    ensures r.Success? ==> budget.totalBytes == old(budget.totalBytes) + |r.value|
    ensures r.Success? ==> CopiedTo(host.dest, destination, tree)
    ensures r.Success? ==> host.written == old(host.written) + |r.value|
    ensures r.Success? ==> tree.LinkNode? && tree.bytes == r.value && tree.text == text && old(host.now) <= tree.to
    ensures r.Success? ==> var e := Current(f);
              Finished(host.world, f.dir.expected.ino, e, Child(e.name, tree), f.dir.at, host.now)
    ensures r.Success? ==> Resolved(host.world, host.resolve, f.dir.source + [Current(f).name], tree)
  {
    hide EntriesOk, Finished, Faithful, Resolved, Joined, TextRead;
    ghost var start := host.now;
    tree := FileNode(0, 0, 0, []);
    var parent, name := target[..|target| - 1], target[|target| - 1];
    var parentFd, parentInfo, parentSeen := OpenAbsoluteDirectory(host, budget, parent);
    if parentFd.Failure? {
      return Failure(parentFd.error), tree;
    }
    ghost var found := host.now;
    EntriesLater(host.world, start, found, budget.maxDepth, f.dir, f.entries.value, f.ready);
    r, tree := CopyTarget(host, budget, f, destination, parentFd.value, parent, name, parentInfo, parentSeen, text, read);
    if r.Success? {
      LinkIsResolved(host.world, host.resolve, f.dir.source, Current(f).name, target, tree, start, found);
    }
    host.Close(parentFd.value);
    assert host.open == old(host.open);
  }

  lemma CurrentIsSeen(world: World, now: nat, maxDepth: nat, f: Frame)
    requires f.entries.Some? && f.index < |f.entries.value|
    requires EntriesOk(world, now, maxDepth, f.dir, f.entries.value, f.ready)
    ensures Current(f).at <= now && Seen(world, Current(f), f.dir.at, now)
  {
    assert Seen(world, Current(f), f.dir.at, now);
  }

  lemma LinkIsResolved(world: World, resolve: Resolver, dir: Path, name: string, target: Path, t: Tree, from: nat, to: nat)
    requires t.LinkNode? && target != [] && target == Joined(dir, t.text) && t.target == target[|target| - 1]
    requires t.from <= from <= to <= t.to
    requires resolve(world(to), target[..|target| - 1]) == Some(t.parent)
    ensures Resolved(world, resolve, dir + [name], t)
  {
    assert (dir + [name])[..|dir|] == dir;
  }
}
