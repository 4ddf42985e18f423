/** The calls a tree copy makes: each takes time, sees the world of its moment, and may fail. */
module CopyHost {
  import opened FileWorld

  datatype Error = SourceChanged | SourceInvalid | LimitsExceeded | DeadlineExceeded | CopyFailed

  datatype Result<+T> = Success(value: T) | Failure(error: Error)

  datatype Target = Source(ino: Inode) | Sink(path: Path)

  const CHUNK_SIZE: nat := 1024 * 1024

  /** `_Budget`: shared by every copy of one backup run. */
  class Budget {
    const maxFiles: nat
    const maxDepth: nat
    const maxFileBytes: nat
    const maxTotalBytes: nat
    /** Whether the deadline is far enough away for all that is to be done. */
    const patient: bool
    var files: nat
    var directories: nat
    var totalBytes: nat
    /** The biggest file and the greatest depth that were to be charged. */
    ghost var largest: nat
    ghost var deepest: nat

    /** What there was to copy is too much. */
    ghost predicate Over()
      reads this
    {
      || files > maxFiles || directories > maxFiles || totalBytes > maxTotalBytes
      || largest > maxFileBytes || deepest > maxDepth
    }

    constructor (maxFiles: nat, maxDepth: nat, maxFileBytes: nat, maxTotalBytes: nat, patient: bool)
      ensures this.maxFiles == maxFiles && this.maxDepth == maxDepth
      ensures this.maxFileBytes == maxFileBytes && this.maxTotalBytes == maxTotalBytes
      ensures files == directories == totalBytes == 0 && this.patient == patient && !Over()
    {
      this.maxFiles, this.maxDepth := maxFiles, maxDepth;
      this.maxFileBytes, this.maxTotalBytes := maxFileBytes, maxTotalBytes;
      this.patient, files, directories, totalBytes, largest, deepest := patient, 0, 0, 0, 0, 0;
    }

    method CheckDeadline() returns (error: Option<Error>)
      ensures error.Some? ==> error.value.DeadlineExceeded? && !patient
    {
      var late: bool := *;
      error := if late && !patient then Some(DeadlineExceeded) else None;
    }

    /** The links of a directory are charged when it is scanned. */
    method ReserveFile() returns (error: Option<Error>)
      modifies this`files
      ensures error.None? ==> files == old(files) + 1 <= maxFiles
      ensures error.Some? && patient ==> error.value.LimitsExceeded? && files == old(files) + 1 > maxFiles
    {
      error := CheckDeadline();
      if error.None? {
        files := files + 1;
        if files > maxFiles {
          error := Some(LimitsExceeded);
        }
      }
    }

    method AddFile(size: nat, reserved: bool) returns (error: Option<Error>)
      modifies this`files, this`totalBytes, this`largest
      ensures error.None? ==> size <= maxFileBytes && files == old(files) + (if reserved then 0 else 1) <= maxFiles
      ensures error.None? ==> totalBytes == old(totalBytes) + size <= maxTotalBytes
      ensures error.Some? && patient ==>
        && error.value.LimitsExceeded? && Over()
        && (|| size > maxFileBytes || old(files) + (if reserved then 0 else 1) > maxFiles
            || old(totalBytes) + size > maxTotalBytes)
    {
      error := CheckDeadline();
      if error.Some? {
        return;
      }
      largest := if largest < size then size else largest;
      if size > maxFileBytes {
        return Some(LimitsExceeded);
      }
      if !reserved {
        files := files + 1;
      }
      totalBytes := totalBytes + size;
      if files > maxFiles || totalBytes > maxTotalBytes {
        return Some(LimitsExceeded);
      }
    }

    method AddDirectory() returns (error: Option<Error>)
      modifies this`directories
      ensures error.None? ==> directories == old(directories) + 1 <= maxFiles
      ensures old(directories) >= maxFiles ==> error.Some?
      ensures error.Some? && patient ==> error.value.LimitsExceeded?
      ensures error.Some? && !error.value.DeadlineExceeded? ==> old(directories) >= maxFiles && directories > maxFiles
    {
      error := CheckDeadline();
      if error.None? {
        directories := directories + 1;
        if directories > maxFiles {
          error := Some(LimitsExceeded);
        }
      }
    }

    /** Called before each chunk is written, with the bytes of this file so far. */
    method CheckCopySize(expected: nat, copied: nat) returns (error: Option<Error>)
      ensures error.None? ==> copied <= maxFileBytes
      ensures error.None? ==> totalBytes + (if copied > expected then copied - expected else 0) <= maxTotalBytes
      ensures patient && copied <= maxFileBytes && copied <= expected && totalBytes <= maxTotalBytes ==> error.None?
    {
      error := CheckDeadline();
      if error.None? && (copied > maxFileBytes
                         || totalBytes + (if copied > expected then copied - expected else 0) > maxTotalBytes) {
        error := Some(LimitsExceeded);
      }
    }
  }

  /** No call fails for reasons of its own, the deadline is far, and nothing changes. */
  ghost predicate Calm(host: Host, budget: Budget) {
    host.faultless && budget.patient && Quiet(host.world)
  }

  /** Descriptors, the clock and the private destination. Descriptor numbers are never used twice here. */
  class Host {
    const world: World
    const resolve: Resolver
    /** Where absolute paths start. */
    const root: Inode
    /** Whether no call fails for reasons of its own. */
    const faultless: bool
    var now: nat
    var nextFd: nat
    var open: map<nat, Target>
    var dest: map<Path, Copy>
    var written: nat

    ghost predicate Valid()
      reads this
    {
      forall fd :: fd in open ==> fd < nextFd
    }

    method Tick()
      modifies this`now
      ensures old(now) <= now
    {
      var pause: nat :| pause >= 0;
      now := now + pause;
    }

    /** A call that has no effect here but to fail, if it does. */
    method Works() returns (ok: bool)
      ensures faultless ==> ok
    {
      ok := *;
      ok := ok || faultless;
    }

    method Fstat(fd: nat) returns (info: Stat)
      requires fd in open && open[fd].Source?
      modifies this`now
      ensures old(now) <= now && info == StatOf(world(now), open[fd].ino)
    {
      Tick();
      info := StatOf(world(now), open[fd].ino);
    }

    /** `os.stat(name, dir_fd=fd, follow_symlinks=False)`. */
    method StatAt(fd: nat, name: string) returns (info: Option<Stat>)
      requires fd in open && open[fd].Source?
      modifies this`now
      ensures old(now) <= now
      ensures info.Some? ==> var dir := open[fd].ino;
        && dir in world(now) && world(now)[dir].Directory? && name in world(now)[dir].listing
        && info.value == StatOf(world(now), world(now)[dir].listing[name])
      ensures faultless && info.None? ==> var dir := open[fd].ino;
        !(dir in world(now) && world(now)[dir].Directory? && name in world(now)[dir].listing)
    {
      Tick();
      var dir := open[fd].ino;
      var ok := Works();
      if ok && dir in world(now) && world(now)[dir].Directory? && name in world(now)[dir].listing {
        return Some(StatOf(world(now), world(now)[dir].listing[name]));
      }
      return None;
    }

    /** `path.lstat()`. */
    method Lstat(path: Path) returns (info: Option<Stat>)
      modifies this`now
      ensures old(now) <= now
      ensures info.Some? ==> info.value == StatOf(world(now), info.value.ino)
      ensures info.Some? ==> resolve(world(now), path) == Some(info.value.ino)
      ensures faultless && info.None? ==> resolve(world(now), path).None?
    {
      Tick();
      var ok := Works();
      var ino := resolve(world(now), path);
      return if ok && ino.Some? then Some(StatOf(world(now), ino.value)) else None;
    }

    method ReadLink(fd: nat, name: string) returns (text: Option<seq<string>>)
      requires fd in open && open[fd].Source?
      modifies this`now
      ensures old(now) <= now
      ensures text.Some? ==> var dir := open[fd].ino;
        && dir in world(now) && world(now)[dir].Directory? && name in world(now)[dir].listing
        && var ino := world(now)[dir].listing[name];
           ino in world(now) && world(now)[ino].Symlink? && world(now)[ino].text == text.value
    {
      Tick();
      var dir := open[fd].ino;
      var ok := Works();
      if ok && dir in world(now) && world(now)[dir].Directory? && name in world(now)[dir].listing {
        var ino := world(now)[dir].listing[name];
        if ino in world(now) && world(now)[ino].Symlink? {
          return Some(world(now)[ino].text);
        }
      }
      return None;
    }

    /** Opens without following a link; a directory if asked to. */
    method OpenAt(fd: nat, name: string, directory: bool) returns (child: Option<nat>)
      requires Valid() && fd in open && open[fd].Source?
      modifies this`now, this`nextFd, this`open
      ensures Valid() && old(now) <= now && old(nextFd) <= nextFd
      ensures child.None? ==> open == old(open)
      ensures child.Some? ==> var dir := old(open)[fd].ino;
        && child.value == old(nextFd) < nextFd
        && dir in world(now) && world(now)[dir].Directory? && name in world(now)[dir].listing
        && open == old(open)[child.value := Source(world(now)[dir].listing[name])]
      ensures faultless && child.None? ==> var dir := open[fd].ino;
        !(&& dir in world(now) && world(now)[dir].Directory? && name in world(now)[dir].listing
          && var ino := world(now)[dir].listing[name];
             ino in world(now) && !world(now)[ino].Symlink? && (directory ==> world(now)[ino].Directory?))
    {
      Tick();
      var dir := open[fd].ino;
      var ok := Works();
      if ok && dir in world(now) && world(now)[dir].Directory? && name in world(now)[dir].listing {
        var info := StatOf(world(now), world(now)[dir].listing[name]);
        if info.ino in world(now) && info.kind != IsSymlink && (directory ==> info.kind == IsDirectory) {
          child := Some(nextFd);
          open := open[nextFd := Source(info.ino)];
          nextFd := nextFd + 1;
          return;
        }
      }
      return None;
    }

    method OpenRoot() returns (fd: Option<nat>)
      requires Valid()
      modifies this`now, this`nextFd, this`open
      ensures Valid() && old(now) <= now && old(nextFd) <= nextFd
      ensures fd.None? ==> open == old(open)
      ensures fd.Some? ==> fd.value == old(nextFd) < nextFd
      ensures fd.Some? ==> open == old(open)[fd.value := Source(root)]
      ensures faultless ==> fd.Some?
    {
      Tick();
      var ok := Works();
      if !ok {
        return None;
      }
      fd := Some(nextFd);
      open := open[nextFd := Source(root)];
      nextFd := nextFd + 1;
    }

    method Close(fd: nat)
      requires Valid() && fd in open
      modifies this`open
      ensures Valid() && open == old(open) - {fd}
    {
      open := open - {fd};
    }

    /** At most one chunk from `position`; nothing at the end of the file. */
    method Read(fd: nat, position: nat) returns (chunk: Option<Data>)
      requires fd in open && open[fd].Source?
      modifies this`now
      ensures old(now) <= now
      ensures chunk.Some? ==> var ino := open[fd].ino;
        && ino in world(now) && world(now)[ino].Regular? && |chunk.value| <= CHUNK_SIZE
        && var bytes := world(now)[ino].bytes;
           if position >= |bytes| then chunk.value == []
           else chunk.value != [] && position + |chunk.value| <= |bytes|
                && chunk.value == bytes[position..position + |chunk.value|]
      ensures faultless && chunk.None? ==> !(open[fd].ino in world(now) && world(now)[open[fd].ino].Regular?)
    {
      Tick();
      var ino := open[fd].ino;
      var ok := Works();
      if !ok || ino !in world(now) || !world(now)[ino].Regular? {
        return None;
      }
      var bytes := world(now)[ino].bytes;
      if position >= |bytes| {
        return Some([]);
      }
      var length: nat :| length >= 0;
      length := if length == 0 then 1 else if length > CHUNK_SIZE then CHUNK_SIZE else length;
      length := if position + length > |bytes| then |bytes| - position else length;
      return Some(bytes[position..position + length]);
    }

    /** `O_CREAT | O_EXCL`. */
    method CreateSink(path: Path) returns (fd: Option<nat>)
      requires Valid()
      modifies this`now, this`nextFd, this`open, this`dest
      ensures Valid() && old(now) <= now && old(nextFd) <= nextFd
      ensures fd.None? ==> open == old(open) && dest == old(dest)
      ensures fd.Some? ==> fd.value == old(nextFd) < nextFd && open == old(open)[fd.value := Sink(path)]
      ensures fd.Some? ==> path !in old(dest) && dest == old(dest)[path := Copy([], now, now)]
      ensures faultless && fd.None? ==> path in old(dest)
    {
      Tick();
      var ok := Works();
      if !ok || path in dest {
        return None;
      }
      fd := Some(nextFd);
      open := open[nextFd := Sink(path)];
      dest := dest[path := Copy([], now, now)];
      nextFd := nextFd + 1;
    }

    /** The loop around `os.write`, which may write less than it is given. Its caller has room for the whole chunk,
        so no byte is written beyond the limit. */
    method WriteAll(fd: nat, chunk: Data, ghost limit: nat) returns (ok: bool)
      requires fd in open && open[fd].Sink? && open[fd].path in dest && dest[open[fd].path].written <= now
      requires written + |chunk| <= limit
      modifies this`now, this`dest, this`written
      ensures old(now) <= now && old(written) <= written <= old(written) + |chunk| <= limit
      ensures dest.Keys == old(dest).Keys
      ensures forall p :: p in dest && p != open[fd].path ==> dest[p] == old(dest)[p]
      ensures ok ==> written == old(written) + |chunk|
      ensures var c, before := dest[open[fd].path], old(dest)[open[fd].path];
        && c.created == before.created && before.written <= c.written <= now
        && (ok ==> c.bytes == before.bytes + chunk)
      ensures faultless ==> ok
    {
      var path, view := open[fd].path, chunk;
      while view != []
        invariant old(now) <= now && |view| <= |chunk| && view == chunk[|chunk| - |view|..]
        invariant written == old(written) + |chunk| - |view|
        invariant dest.Keys == old(dest).Keys
        invariant forall p :: p in dest && p != path ==> dest[p] == old(dest)[p]
        invariant dest[path].bytes == old(dest)[path].bytes + chunk[..|chunk| - |view|]
        invariant dest[path].created == old(dest)[path].created
        invariant old(dest)[path].written <= dest[path].written <= now
        decreases |view|
      {
        Tick();
        var n: nat :| n >= 0;
        n := if n > |view| then |view| else if n == 0 && faultless then 1 else n;
        if n == 0 {
          return false;
        }
        assert chunk[..|chunk| - |view|] + view[..n] == chunk[..|chunk| - |view| + n];
        dest := dest[path := dest[path].(bytes := dest[path].bytes + view[..n], written := now)];
        written := written + n;
        view := view[n..];
      }
      assert chunk[..|chunk|] == chunk;
      return true;
    }
  }
}
