/** The explicit-stack walk over a directory tree. */
module TreeWalk {
  import opened FileWorld
  import opened Lexicographic
  import opened Snapshot
  import opened CopyHost
  import opened CopyFrames
  import opened TreeCopy

  /** Where a tree comes from and goes, where its links may lead, what was there in the destination, what was charged and
      written before it, and some inodes, to be all of the tree. */
  datatype Account = Account(
    source: Path, relative: Path, destination: Path, roots: seq<Path>, before: set<Path>, tree: set<Inode>,
    files: nat, totalBytes: nat, written: nat)

  /** The open descriptors are those of before and one for each frame. */
  ghost predicate Owns(open: map<nat, Target>, base: map<nat, Target>, frames: seq<Frame>) {
    && (forall fd :: fd in open <==> fd in base || OwnedBy(fd, frames))
    && (forall fd :: fd in base ==> fd in open && open[fd] == base[fd])
    && (forall i :: 0 <= i < |frames| ==>
          && frames[i].dir.fd !in base && frames[i].dir.fd in open
          && open[frames[i].dir.fd] == Source(frames[i].dir.expected.ino))
    && (forall i, j :: 0 <= i < j < |frames| ==> frames[i].dir.fd != frames[j].dir.fd)
  }

  function Place(a: Account, path: Path): Path
    requires a.relative <= path
  {
    a.destination + path[|a.relative|..]
  }

  function Origin(a: Account, path: Path): Path
    requires a.relative <= path
  {
    a.source + path[|a.relative|..]
  }

  /** Directories below the tree's root go from their place below its source to the same place below its
      destination. */
  predicate Placed(dir: Opened, a: Account) {
    a.relative <= dir.relative && dir.destination == Place(a, dir.relative) && dir.source == Origin(a, dir.relative)
  }

  /** The finished children of every frame are in the destination, and the links among them lead into approved
      roots and were followed there. */
  ghost predicate Led(
      world: World, resolve: Resolver, dest: map<Path, Copy>, roots: seq<Path>, frames: seq<Frame>, kids: seq<seq<Child>>)
  {
    && |frames| == |kids|
    && forall i :: 0 <= i < |frames| ==> KidsLed(world, resolve, dest, roots, frames[i].dir, kids[i])
  }

  ghost predicate KidsLed(
      world: World, resolve: Resolver, dest: map<Path, Copy>, roots: seq<Path>, dir: Opened, kids: seq<Child>)
  {
    forall k :: 0 <= k < |kids| ==>
      && Resolved(world, resolve, dir.source + [kids[k].name], kids[k].tree)
      && CopiedTo(dest, dir.destination + [kids[k].name], kids[k].tree)
      && Confined(roots, dir.source + [kids[k].name], kids[k].tree)
  }

  lemma LedSameDirs(
      world: World, resolve: Resolver, dest: map<Path, Copy>, roots: seq<Path>, frames: seq<Frame>, after: seq<Frame>, kids: seq<seq<Child>>)
    requires Led(world, resolve, dest, roots, frames, kids) && SameDirs(frames, after)
    ensures Led(world, resolve, dest, roots, after, kids)
  {
    hide KidsLed;
  }

  lemma LedLater(world: World, resolve: Resolver, before: map<Path, Copy>, dest: map<Path, Copy>, roots: seq<Path>,
                 frames: seq<Frame>, kids: seq<seq<Child>>)
    requires Led(world, resolve, before, roots, frames, kids) && Kept(before, dest)
    ensures Led(world, resolve, dest, roots, frames, kids)
  {
    hide Resolved, CopiedTo, Confined;
    forall i, k | 0 <= i < |frames| && 0 <= k < |kids[i]|
      ensures CopiedTo(dest, frames[i].dir.destination + [kids[i][k].name], kids[i][k].tree)
    {
      assert KidsLed(world, resolve, before, roots, frames[i].dir, kids[i]);
      CopiedIsKept(before, dest, frames[i].dir.destination + [kids[i][k].name], kids[i][k].tree);
    }
    forall i | 0 <= i < |frames|
      ensures KidsLed(world, resolve, dest, roots, frames[i].dir, kids[i])
    {
      assert KidsLed(world, resolve, before, roots, frames[i].dir, kids[i]);
    }
  }

  lemma LedOneMore(
      world: World, resolve: Resolver, dest: map<Path, Copy>, roots: seq<Path>, frames: seq<Frame>, kids: seq<seq<Child>>, child: Child)
    requires Led(world, resolve, dest, roots, frames, kids) && frames != []
    requires var dir := frames[|frames| - 1].dir;
      && Resolved(world, resolve, dir.source + [child.name], child.tree)
      && CopiedTo(dest, dir.destination + [child.name], child.tree)
      && Confined(roots, dir.source + [child.name], child.tree)
    ensures Led(world, resolve, dest, roots, frames, WithChild(kids, child))
  {
    hide Resolved, CopiedTo, Confined;
    var n := |frames| - 1;
    var more := kids[n] + [child];
    assert KidsLed(world, resolve, dest, roots, frames[n].dir, kids[n]);
    assert forall k :: 0 <= k < |kids[n]| ==> more[k] == kids[n][k];
  }

  lemma LedPush(
      world: World, resolve: Resolver, dest: map<Path, Copy>, roots: seq<Path>, frames: seq<Frame>, kids: seq<seq<Child>>, top: Frame)
    requires Led(world, resolve, dest, roots, frames, kids)
    ensures Led(world, resolve, dest, roots, frames + [top], kids + [[]])
  {
  }

  lemma LedTree(
      world: World, resolve: Resolver, dest: map<Path, Copy>, roots: seq<Path>, frames: seq<Frame>, kids: seq<seq<Child>>, now: nat)
    requires Led(world, resolve, dest, roots, frames, kids) && frames != []
    ensures var n := |frames| - 1;
      && Resolved(world, resolve, frames[n].dir.source, TreeOf(frames[n], kids[n], now))
      && CopiedTo(dest, frames[n].dir.destination, TreeOf(frames[n], kids[n], now))
      && Confined(roots, frames[n].dir.source, TreeOf(frames[n], kids[n], now))
  {
    assert KidsLed(world, resolve, dest, roots, frames[|frames| - 1].dir, kids[|frames| - 1]);
  }

  lemma LedPop(world: World, resolve: Resolver, dest: map<Path, Copy>, roots: seq<Path>, frames: seq<Frame>,
               kids: seq<seq<Child>>, now: nat, a: Account)
    requires Led(world, resolve, dest, roots, frames, kids) && |frames| > 1 && AllPlaced(frames, a)
    requires var n := |frames| - 1; frames[n].dir.relative == frames[n - 1].dir.relative + [frames[n].dir.name]
    ensures var n := |frames| - 1;
      Led(world, resolve, dest, roots, frames[..n],
        kids[..n][n - 1 := kids[n - 1] + [Child(frames[n].dir.name, TreeOf(frames[n], kids[n], now))]])
  {
    var n := |frames| - 1;
    var below, f := frames[n - 1].dir, frames[n].dir;
    var child := Child(f.name, TreeOf(frames[n], kids[n], now));
    LedTree(world, resolve, dest, roots, frames, kids, now);
    hide Resolved, KidsLed, CopiedTo, Confined;
    assert Placed(below, a) && Placed(f, a);
    PlaceBelow(below, a, f.name);
    forall i | 0 <= i < n
      ensures KidsLed(world, resolve, dest, roots, frames[..n][i].dir, kids[..n][i])
    {
    }
    LedOneMore(world, resolve, dest, roots, frames[..n], kids[..n], child);
  }

  // ---------- when nothing stands in the way ----------

  /** Everything in the destination was there before or is of the records. */
  ghost predicate Tracked(dest: map<Path, Copy>, a: Account, records: seq<Record>) {
    forall p :: p in dest ==> p in a.before || exists r :: r in records && a.relative <= r.path && p == Place(a, r.path)
  }

  /** In a quiet world, what is on the stack belongs to the tree; and no scanned file is too big. */
  ghost predicate Tame(world: World, a: Account, maxFileBytes: nat, frames: seq<Frame>) {
    && (forall i :: 0 <= i < |frames| && frames[i].entries.Some? ==> SizesFit(frames[i].entries.value, maxFileBytes))
    && (Quiet(world) && Ordinary(world(0), a.tree) && frames != [] && frames[0].dir.expected.ino in a.tree ==>
          forall i :: 0 <= i < |frames| ==> frames[i].dir.expected.ino in a.tree)
  }

  /** The tree below this directory is of regular files and directories, its path leads to it, and its destination is free. */
  ghost predicate Easy(host: Host, a: Account, root: Opened) {
    && Ordinary(host.world(0), a.tree) && root.expected.ino in a.tree
    && host.resolve(host.world(0), a.source) == Some(root.expected.ino)
    && forall p :: p in a.before ==> !(a.destination <= p)
  }

  /** The only error is that there is too much to copy. */
  ghost predicate NoErrorButOver(error: Option<Error>, budget: Budget)
    reads budget
  {
    error.Some? ==> error.value.LimitsExceeded? && budget.Over()
  }

  lemma TopIsOrdinary(host: Host, budget: Budget, base: map<nat, Target>, a: Account, frames: seq<Frame>,
                      kids: seq<seq<Child>>, records: seq<Record>)
    requires Ongoing(host, budget, base, a, frames, kids, records) && frames != []
    requires Quiet(host.world) && Easy(host, a, frames[0].dir)
    ensures OrdinaryDirectory(host.world(0), frames[|frames| - 1].dir.expected.ino)
  {
    var n := |frames| - 1;
    TopFacts(host, budget, base, a, frames, kids, records);
    hide StackOk, Owns, Stored, AllPlaced, Made, Led, Tracked;
    assert frames[n].dir.expected.ino in a.tree;
    QuietStat(host.world, frames[n].dir.expected, frames[n].dir.at, 0);
  }

  /** In a quiet world a scanned entry is still what the directory has. */
  lemma EntryIsListed(world: World, now: nat, maxDepth: nat, dir: Opened, es: seq<Entry>, ready: nat, e: Entry)
    requires Quiet(world) && EntriesOk(world, now, maxDepth, dir, es, ready) && e in es
    requires dir.expected.kind.IsDirectory? && SeenAt(world, dir.expected, dir.at)
    ensures Listed(world(0), dir.expected.ino, e.name, e.info.ino) && e.info == StatOf(world(0), e.info.ino)
  {
    assert Seen(world, e, dir.at, ready);
    QuietStat(world, e.info, e.at, 0);
    QuietStat(world, dir.expected, dir.at, 0);
    assert world(dir.at) == world(0);
    QuietIsSteady(world, dir.expected.ino, dir.at, ready);
  }

  lemma CurrentIsOrdinary(host: Host, budget: Budget, base: map<nat, Target>, a: Account, frames: seq<Frame>,
                          kids: seq<seq<Child>>, records: seq<Record>)
    requires Ongoing(host, budget, base, a, frames, kids, records) && HasCurrent(frames)
    requires Quiet(host.world) && Easy(host, a, frames[0].dir)
    ensures var f := frames[|frames| - 1]; var e := Current(f);
      && Listed(host.world(0), f.dir.expected.ino, e.name, e.info.ino) && e.info == StatOf(host.world(0), e.info.ino)
      && e.info.ino in a.tree && !e.info.kind.IsSymlink?
      && (e.info.kind.IsRegular? ==> e.info.size <= budget.maxFileBytes)
  {
    var f := frames[|frames| - 1];
    TopIsOrdinary(host, budget, base, a, frames, kids, records);
    TopFacts(host, budget, base, a, frames, kids, records);
    LeafFacts(host, budget, base, a, frames, kids, records);
    hide StackOk, Owns, Stored, AllPlaced, Made, Led, Tracked, EntriesOk;
    EntryIsListed(host.world, host.now, budget.maxDepth, f.dir, f.entries.value, f.ready, Current(f));
  }

  /** No child of a frame has the name of the frame above it. */
  ghost predicate Apart(frames: seq<Frame>, kids: seq<seq<Child>>) {
    && |frames| == |kids|
    && (forall i :: 0 <= i < |frames| - 1 ==>
          && frames[i + 1].dir.relative == frames[i].dir.relative + [frames[i + 1].dir.name]
          && Unnamed(kids[i], frames[i + 1].dir.name))
  }

  predicate Unnamed(kids: seq<Child>, name: string) {
    forall k :: 0 <= k < |kids| ==> kids[k].name != name
  }

  lemma {:induction false} NoneBelow(frames: seq<Frame>, kids: seq<seq<Child>>, name: string)
    requires Apart(frames, kids) && frames != [] && Unnamed(kids[|frames| - 1], name)
    ensures forall r :: r in Made(frames, kids) ==> !(frames[|frames| - 1].dir.relative + [name] <= r.path)
    decreases |frames|
  {
    var n := |frames| - 1;
    var below, q := frames[n].dir.relative, frames[n].dir.relative + [name];
    PathsExtendAll(below, kids[n]);
    if n > 0 {
      NoneBelow(frames[..n], kids[..n], frames[n].dir.name);
    } else {
      assert Made(frames[..0], kids[..0]) == [];
    }
    forall r | r in Made(frames, kids)
      ensures !(q <= r.path)
    {
      BelowIsBelow(below, name, r.path);
      if r in FlattenAll(below, kids[n]) {
        var k :| 0 <= k < |kids[n]| && below + [kids[n][k].name] <= r.path;
        BesideIsNotBelow(below, kids[n][k].name, name, r.path);
      } else {
        assert r in Made(frames[..n], kids[..n]);
      }
    }
  }

  lemma BelowIsBelow(dir: Path, name: string, p: Path)
    ensures dir + [name] <= p ==> dir <= p
  {
  }

  lemma BesideIsNotBelow(dir: Path, name: string, other: string, p: Path)
    requires name != other && dir + [name] <= p
    ensures !(dir + [other] <= p)
  {
    assert p[|dir|] == name;
  }

  lemma KidsAreBefore(world: World, now: nat, maxDepth: nat, f: Frame, kids: seq<Child>, busy: bool, k: nat)
    requires FrameOk(world, now, maxDepth, f, kids, busy) && f.entries.Some?
    requires |kids| <= k < |f.entries.value|
    ensures Unnamed(kids, f.entries.value[k].name)
  {
    forall j | 0 <= j < |kids|
      ensures kids[j].name != f.entries.value[k].name
    {
      assert Finished(world, f.dir.expected.ino, f.entries.value[j], kids[j], f.dir.at, now);
      LessIsIrreflexive(f.entries.value[k].name);
    }
  }

  lemma StackIsApart(world: World, now: nat, maxDepth: nat, frames: seq<Frame>, kids: seq<seq<Child>>)
    requires StackOk(world, now, maxDepth, frames, kids)
    ensures Apart(frames, kids)
  {
    forall i | 0 <= i < |frames| - 1
      ensures frames[i + 1].dir.relative == frames[i].dir.relative + [frames[i + 1].dir.name]
      ensures Unnamed(kids[i], frames[i + 1].dir.name)
    {
      assert Above(frames[i], frames[i + 1]);
      KidsAreBefore(world, now, maxDepth, frames[i], kids[i], true, frames[i].index - 1);
    }
  }

  /** The place of the current entry is free. */
  lemma PlaceIsFree(host: Host, budget: Budget, base: map<nat, Target>, a: Account, frames: seq<Frame>,
                    kids: seq<seq<Child>>, records: seq<Record>)
    requires Ongoing(host, budget, base, a, frames, kids, records) && HasCurrent(frames)
    requires forall p :: p in a.before ==> !(a.destination <= p)
    ensures var f := frames[|frames| - 1]; f.dir.destination + [Current(f).name] !in host.dest
  {
    hide StackOk, FrameOk, Owns, Stored, Led, Tame, Made;
    NameIsNew(host.world, host.now, budget.maxDepth, frames, kids);
    RecordedElsewhere(host.dest, a, frames, kids, Current(frames[|frames| - 1]).name);
  }

  lemma NameIsNew(world: World, now: nat, maxDepth: nat, frames: seq<Frame>, kids: seq<seq<Child>>)
    requires StackOk(world, now, maxDepth, frames, kids) && HasCurrent(frames)
    ensures Apart(frames, kids) && Unnamed(kids[|frames| - 1], Current(frames[|frames| - 1]).name)
  {
    var f := frames[|frames| - 1];
    TopIsOk(world, now, maxDepth, frames, kids);
    StackIsApart(world, now, maxDepth, frames, kids);
    hide StackOk, Apart;
    KidsAreBefore(world, now, maxDepth, f, kids[|frames| - 1], false, f.index);
  }

  lemma RecordedElsewhere(dest: map<Path, Copy>, a: Account, frames: seq<Frame>, kids: seq<seq<Child>>, name: string)
    requires Apart(frames, kids) && frames != [] && Unnamed(kids[|frames| - 1], name) && AllPlaced(frames, a)
    requires Tracked(dest, a, Made(frames, kids)) && forall p :: p in a.before ==> !(a.destination <= p)
    ensures frames[|frames| - 1].dir.destination + [name] !in dest
  {
    var dir := frames[|frames| - 1].dir;
    NoneBelow(frames, kids, name);
    TopPlaced(frames, a);
    PlaceBelow(dir, a, name);
    hide Apart, Unnamed, Made;
    var q := dir.relative + [name];
    if Place(a, q) in dest {
      if r :| r in Made(frames, kids) && a.relative <= r.path && Place(a, q) == Place(a, r.path) {
        SamePlace(a, q, r.path);
      }
    }
  }

  lemma SamePlace(a: Account, p: Path, q: Path)
    requires a.relative <= p && a.relative <= q && Place(a, p) == Place(a, q)
    ensures p == q
  {
    var n := |a.destination|;
    assert Place(a, p)[n..] == p[|a.relative|..] && Place(a, q)[n..] == q[|a.relative|..];
    assert p == a.relative + p[|a.relative|..] && q == a.relative + q[|a.relative|..];
  }

  lemma EasyPlaceIsFree(host: Host, budget: Budget, base: map<nat, Target>, a: Account, frames: seq<Frame>,
                        kids: seq<seq<Child>>, records: seq<Record>)
    requires Ongoing(host, budget, base, a, frames, kids, records) && HasCurrent(frames)
    requires Easy(host, a, frames[0].dir)
    ensures var f := frames[|frames| - 1]; f.dir.destination + [Current(f).name] !in host.dest
  {
    PlaceIsFree(host, budget, base, a, frames, kids, records);
  }

  lemma TameSameDirs(world: World, a: Account, maxFileBytes: nat, frames: seq<Frame>, after: seq<Frame>)
    requires Tame(world, a, maxFileBytes, frames) && SameDirs(frames, after)
    requires forall i :: 0 <= i < |after| && after[i].entries.Some? ==>
      after[i].entries == frames[i].entries || SizesFit(after[i].entries.value, maxFileBytes)
    ensures Tame(world, a, maxFileBytes, after)
  {
    hide SizesFit;
  }

  lemma CurrentIsInTree(host: Host, budget: Budget, base: map<nat, Target>, a: Account, frames: seq<Frame>,
                        kids: seq<seq<Child>>, records: seq<Record>)
    requires Ongoing(host, budget, base, a, frames, kids, records) && HasCurrent(frames)
    requires Quiet(host.world) && Ordinary(host.world(0), a.tree) && frames[0].dir.expected.ino in a.tree
    ensures Current(frames[|frames| - 1]).info.ino in a.tree
  {
    var f := frames[|frames| - 1];
    TopFacts(host, budget, base, a, frames, kids, records);
    LeafFacts(host, budget, base, a, frames, kids, records);
    hide StackOk, Owns, Stored, AllPlaced, Made, Led, Tracked, EntriesOk;
    assert f.dir.expected.ino in a.tree;
    EntryIsListed(host.world, host.now, budget.maxDepth, f.dir, f.entries.value, f.ready, Current(f));
  }

  lemma TamePush(world: World, a: Account, maxFileBytes: nat, frames: seq<Frame>, child: Frame)
    requires Tame(world, a, maxFileBytes, frames) && HasCurrent(frames) && child.entries.None?
    requires Quiet(world) && Ordinary(world(0), a.tree) && frames[0].dir.expected.ino in a.tree ==>
      child.dir.expected.ino in a.tree
    ensures Tame(world, a, maxFileBytes, Advance(frames) + [child])
  {
    hide SizesFit, Ordinary, Quiet;
  }

  lemma TameLess(world: World, a: Account, maxFileBytes: nat, frames: seq<Frame>)
    requires Tame(world, a, maxFileBytes, frames) && frames != []
    ensures Tame(world, a, maxFileBytes, frames[..|frames| - 1])
  {
    hide SizesFit, Ordinary;
  }

  /** In a quiet world the checks before a frame is popped find what was opened. */
  lemma TopIsStillThere(host: Host, budget: Budget, base: map<nat, Target>, a: Account, frames: seq<Frame>,
                        kids: seq<seq<Child>>, records: seq<Record>)
    requires Ongoing(host, budget, base, a, frames, kids, records) && frames != []
    requires frames[0].dir.relative == a.relative
    requires Quiet(host.world) && Easy(host, a, frames[0].dir)
    ensures var n := |frames| - 1;
      if n > 0 then Listed(host.world(0), frames[n - 1].dir.expected.ino, frames[n].dir.name, frames[n].dir.expected.ino)
      else host.resolve(host.world(0), frames[n].dir.source) == Some(frames[n].dir.expected.ino)
  {
    var n := |frames| - 1;
    if n > 0 {
      var f := frames[n - 1];
      assert FrameOk(host.world, host.now, budget.maxDepth, f, kids[n - 1], true) && Above(f, frames[n]);
      EntryIsListed(host.world, host.now, budget.maxDepth, f.dir, f.entries.value, f.ready, f.entries.value[f.index - 1]);
    } else {
      assert Placed(frames[0].dir, a) && Origin(a, a.relative) == a.source;
    }
  }

  lemma TrackedOneMore(before: map<Path, Copy>, dest: map<Path, Copy>, a: Account, records: seq<Record>,
                       frames: seq<Frame>, f: Frame, name: string, bytes: Data)
    requires Tracked(before, a, records) && AllPlaced(frames, a) && frames != [] && f == frames[|frames| - 1]
    requires forall p :: p in dest ==> p in before || p == f.dir.destination + [name]
    ensures Tracked(dest, a, records + [Record(f.dir.relative + [name], bytes)])
  {
    var r := Record(f.dir.relative + [name], bytes);
    var more := records + [r];
    TopPlaced(frames, a);
    PlaceBelow(f.dir, a, name);
    assert forall x :: x in records ==> x in more;
    assert r in more;
  }

  predicate AllPlaced(frames: seq<Frame>, a: Account) {
    forall i :: 0 <= i < |frames| ==> Placed(frames[i].dir, a)
  }

  predicate SameDirs(frames: seq<Frame>, after: seq<Frame>) {
    |frames| == |after| && forall i :: 0 <= i < |frames| ==> after[i].dir == frames[i].dir
  }

  lemma SameDirsSameOwner(open: map<nat, Target>, base: map<nat, Target>, a: Account, frames: seq<Frame>, after: seq<Frame>)
    requires SameDirs(frames, after)
    ensures Owns(open, base, frames) ==> Owns(open, base, after)
    ensures AllPlaced(frames, a) ==> AllPlaced(after, a)
  {
  }

  /** Every record was written where its path says. */
  ghost predicate Stored(dest: map<Path, Copy>, a: Account, records: seq<Record>) {
    forall r :: r in records ==>
      && a.relative <= r.path && Place(a, r.path) in dest && dest[Place(a, r.path)].bytes == r.bytes
  }

  ghost predicate StoredAt(dest: map<Path, Copy>, relative: Path, destination: Path, records: seq<Record>) {
    forall r :: r in records ==>
      && relative <= r.path
      && var p := destination + r.path[|relative|..]; p in dest && dest[p].bytes == r.bytes
  }

  /** Charged at scan time is copied plus still to copy; written is copied. */
  ghost predicate Balanced(host: Host, budget: Budget, a: Account, frames: seq<Frame>, records: seq<Record>)
    reads host, budget
  {
    && budget.files == a.files + |records| + PendingFiles(frames)
    && budget.totalBytes == a.totalBytes + Size(records) + PendingBytes(frames)
    && host.written == a.written + Size(records) && a.written <= a.totalBytes
  }

  ghost predicate Underway(host: Host, budget: Budget, base: map<nat, Target>, a: Account, frames: seq<Frame>,
                           kids: seq<seq<Child>>, records: seq<Record>)
    reads host, budget
  {
    && host.Valid() && Charged(budget)
    && StackOk(host.world, host.now, budget.maxDepth, frames, kids)
    && Owns(host.open, base, frames) && Balanced(host, budget, a, frames, records)
    && Stored(host.dest, a, records) && AllPlaced(frames, a)
    && records == Made(frames, kids)
  }

  ghost predicate Ongoing(host: Host, budget: Budget, base: map<nat, Target>, a: Account, frames: seq<Frame>,
                          kids: seq<seq<Child>>, records: seq<Record>)
    reads host, budget
  {
    && Underway(host, budget, base, a, frames, kids, records)
    && Led(host.world, host.resolve, host.dest, a.roots, frames, kids)
    && Tracked(host.dest, a, records) && Tame(host.world, a, budget.maxFileBytes, frames)
  }

  /** What a failing step leaves for the clean-up. */
  ghost predicate Abandoned(host: Host, budget: Budget, base: map<nat, Target>, frames: seq<Frame>)
    reads host, budget
  {
    host.Valid() && Owns(host.open, base, frames) && host.written <= budget.maxTotalBytes
  }

  lemma OngoingCanStop(host: Host, budget: Budget, base: map<nat, Target>, a: Account, frames: seq<Frame>,
                       kids: seq<seq<Child>>, records: seq<Record>)
    requires Ongoing(host, budget, base, a, frames, kids, records)
    ensures Abandoned(host, budget, base, frames)
  {
  }

  lemma {:induction false} SizesAreFilesAndDirs(es: seq<Entry>)
    ensures Files(es) + Dirs(es) == |es|
  {
    if es != [] {
      SizesAreFilesAndDirs(es[1..]);
    }
  }

  lemma ScanKeeps(host: Host, budget: Budget, base: map<nat, Target>, a: Account, frames: seq<Frame>,
                  kids: seq<seq<Child>>, records: seq<Record>, es: seq<Entry>)
    requires host.Valid() && Charged(budget) && Owns(host.open, base, frames) && AllPlaced(frames, a)
    requires StackOk(host.world, host.now, budget.maxDepth, frames, kids) && records == Made(frames, kids)
    requires Stored(host.dest, a, records)
    requires frames != [] && frames[|frames| - 1].entries.None?
    requires EntriesOk(host.world, host.now, budget.maxDepth, frames[|frames| - 1].dir, es, host.now)
    requires budget.files == a.files + |records| + PendingFiles(frames) + Files(es)
    requires budget.totalBytes == a.totalBytes + Size(records) + PendingBytes(frames) + Bytes(es)
    requires host.written == a.written + Size(records) && a.written <= a.totalBytes
    ensures var after := SetTop(frames, frames[|frames| - 1].(entries := Some(es), ready := host.now));
      Underway(host, budget, base, a, after, kids, records) && Work(after) + 1 == Work(frames) + 3 * |es|
  {
    hide StackOk, Owns, Stored, AllPlaced, FrameOk, Finished, EntriesOk, Made, Flatten, Unvisited, Work;
    hide PendingFiles, PendingBytes;
    var after := SetTop(frames, frames[|frames| - 1].(entries := Some(es), ready := host.now));
    StackSizes(host.world, host.now, budget.maxDepth, frames, kids);
    ScanStep(host.world, host.now, budget.maxDepth, frames, kids, es);
    SameDirsSameOwner(host.open, base, a, frames, after);
  }

  lemma ScanGoesOn(host: Host, budget: Budget, base: map<nat, Target>, a: Account, frames: seq<Frame>,
                   kids: seq<seq<Child>>, records: seq<Record>, es: seq<Entry>)
    requires host.Valid() && Charged(budget) && Owns(host.open, base, frames) && AllPlaced(frames, a)
    requires StackOk(host.world, host.now, budget.maxDepth, frames, kids) && records == Made(frames, kids)
    requires Stored(host.dest, a, records) && Tracked(host.dest, a, records)
    requires Led(host.world, host.resolve, host.dest, a.roots, frames, kids)
    requires Tame(host.world, a, budget.maxFileBytes, frames) && SizesFit(es, budget.maxFileBytes)
    requires frames != [] && frames[|frames| - 1].entries.None?
    requires EntriesOk(host.world, host.now, budget.maxDepth, frames[|frames| - 1].dir, es, host.now)
    requires budget.files == a.files + |records| + PendingFiles(frames) + Files(es)
    requires budget.totalBytes == a.totalBytes + Size(records) + PendingBytes(frames) + Bytes(es)
    requires host.written == a.written + Size(records) && a.written <= a.totalBytes
    ensures var after := SetTop(frames, frames[|frames| - 1].(entries := Some(es), ready := host.now));
      && Ongoing(host, budget, base, a, after, kids, records)
      && Work(after) + 1 == Work(frames) + 3 * |es| && Files(es) + Dirs(es) == |es|
  {
    hide StackOk, Owns, Stored, AllPlaced, Made, EntriesOk, Led, Tracked, Tame, SizesFit, Work, PendingFiles, PendingBytes,
      Size, Files, Bytes, Dirs, Underway;
    var after := SetTop(frames, frames[|frames| - 1].(entries := Some(es), ready := host.now));
    ScanKeeps(host, budget, base, a, frames, kids, records, es);
    SizesAreFilesAndDirs(es);
    LedSameDirs(host.world, host.resolve, host.dest, a.roots, frames, after, kids);
    TameSameDirs(host.world, a, budget.maxFileBytes, frames, after);
  }

  function SetTop(frames: seq<Frame>, top: Frame): seq<Frame>
    requires frames != []
  {
    frames[|frames| - 1 := top]
  }

  lemma TopFacts(host: Host, budget: Budget, base: map<nat, Target>, a: Account, frames: seq<Frame>,
                 kids: seq<seq<Child>>, records: seq<Record>)
    requires Ongoing(host, budget, base, a, frames, kids, records) && frames != []
    ensures var dir := frames[|frames| - 1].dir;
      && dir.fd in host.open && host.open[dir.fd] == Source(dir.expected.ino)
      && dir.expected.kind.IsDirectory? && SeenAt(host.world, dir.expected, dir.at) && dir.at <= host.now
    ensures host.written <= budget.totalBytes <= budget.maxTotalBytes
  {
    assert FrameOk(host.world, host.now, budget.maxDepth, frames[|frames| - 1], kids[|frames| - 1], false);
  }

  /** First visit of a frame: make its destination and scan it. */
  method ScanTop(host: Host, budget: Budget, ghost base: map<nat, Target>, ghost a: Account, frames: seq<Frame>,
                 ghost kids: seq<seq<Child>>, ghost records: seq<Record>, allowSymlinks: bool)
    returns (error: Option<Error>, after: seq<Frame>)
    requires Ongoing(host, budget, base, a, frames, kids, records)
    requires frames != [] && frames[|frames| - 1].entries.None?
    modifies host`now, budget
    ensures error.None? ==> Ongoing(host, budget, base, a, after, kids, records)
    ensures SameDirs(frames, after)
    ensures error.Some? ==> Abandoned(host, budget, base, after)
    ensures error.None? ==> budget.files + budget.directories >= old(budget.files + budget.directories)
    ensures error.None? && budget.files + budget.directories == old(budget.files + budget.directories) ==>
              Work(after) < Work(frames)
    ensures Calm(host, budget) && Easy(host, a, frames[0].dir) ==> NoErrorButOver(error, budget)
  {
    hide StackOk, Owns, Stored, AllPlaced, Made, EntriesOk, Led, Tracked, Tame, Easy, OrdinaryDirectory, Quiet, SizesFit,
      Work, PendingFiles, PendingBytes, Size, Files, Bytes, Dirs;
    after := frames;
    var top := frames[|frames| - 1];
    TopFacts(host, budget, base, a, frames, kids, records);
    if Calm(host, budget) && Easy(host, a, frames[0].dir) {
      TopIsOrdinary(host, budget, base, a, frames, kids, records);
    }
    var made := host.Works();
    if !made {
      return Some(SourceInvalid), after;
    }
    ghost var start := host.now;
    var scan := ScanDirectory(host, budget, top.dir, allowSymlinks);
    if scan.Failure? {
      return Some(scan.error), after;
    }
    TimePasses(host.world, start, host.now, budget.maxDepth, frames, kids);
    ScanGoesOn(host, budget, base, a, frames, kids, records, scan.value);
    after := SetTop(frames, top.(entries := Some(scan.value), ready := host.now));
    error := None;
  }

  /** A name below a directory goes to the same name below its destination. */
  lemma PlaceBelow(dir: Opened, a: Account, name: string)
    requires Placed(dir, a)
    ensures a.relative <= dir.relative + [name] && Place(a, dir.relative + [name]) == dir.destination + [name]
    ensures Origin(a, dir.relative + [name]) == dir.source + [name]
  {
    assert (dir.relative + [name])[|a.relative|..] == dir.relative[|a.relative|..] + [name];
  }

  lemma {:induction false} SizeOfOneMore(records: seq<Record>, r: Record)
    ensures Size(records + [r]) == Size(records) + |r.bytes|
  {
    assert (records + [r])[..|records|] == records;
  }

  lemma StoredMore(before: map<Path, Copy>, dest: map<Path, Copy>, a: Account, records: seq<Record>, r: Record)
    requires Stored(before, a, records) && Kept(before, dest)
    requires a.relative <= r.path && Place(a, r.path) in dest && dest[Place(a, r.path)].bytes == r.bytes
    ensures Stored(dest, a, records + [r])
  {
  }

  predicate HasCurrent(frames: seq<Frame>) {
    && frames != [] && frames[|frames| - 1].entries.Some?
    && frames[|frames| - 1].index < |frames[|frames| - 1].entries.value|
  }

  function WithChild(kids: seq<seq<Child>>, child: Child): seq<seq<Child>>
    requires kids != []
  {
    kids[|kids| - 1 := kids[|kids| - 1] + [child]]
  }

  lemma LeafKeeps(host: Host, budget: Budget, base: map<nat, Target>, a: Account, frames: seq<Frame>,
                  kids: seq<seq<Child>>, records: seq<Record>, before: map<Path, Copy>, tree: Tree)
    requires host.Valid() && Charged(budget) && Owns(host.open, base, frames) && AllPlaced(frames, a)
    requires StackOk(host.world, host.now, budget.maxDepth, frames, kids) && records == Made(frames, kids)
    requires HasCurrent(frames) && !tree.DirNode?
    requires var f := frames[|frames| - 1]; var e := Current(f);
      && Finished(host.world, f.dir.expected.ino, e, Child(e.name, tree), f.dir.at, host.now) && f.ready <= tree.to
      && !e.info.kind.IsDirectory?
    requires Stored(before, a, records) && Kept(before, host.dest)
    requires var f := frames[|frames| - 1]; var p := f.dir.destination + [Current(f).name];
      p in host.dest && host.dest[p].bytes == tree.bytes
    requires budget.files == a.files + |records| + PendingFiles(frames)
    requires var e := Current(frames[|frames| - 1]);
      budget.totalBytes == a.totalBytes + Size(records) + PendingBytes(frames)
                           + (if e.info.kind.IsSymlink? then |tree.bytes| else 0)
    requires host.written == a.written + Size(records) + |tree.bytes| && a.written <= a.totalBytes
    ensures var f := frames[|frames| - 1]; var e := Current(f);
      && Underway(host, budget, base, a, Advance(frames), WithChild(kids, Child(e.name, tree)),
                 records + [Record(f.dir.relative + [e.name], tree.bytes)])
      && Work(Advance(frames)) < Work(frames)
  {
    hide StackOk, Made, Owns, AllPlaced, Stored, Flatten, Faithful, EntriesOk, Work, PendingFiles, PendingBytes, Unvisited;
    hide SortedThroughout, Finished, Place;
    var f := frames[|frames| - 1];
    var e := Current(f);
    var r := Record(f.dir.relative + [e.name], tree.bytes);
    KindOfFinished(host.world, f.dir.expected.ino, e, Child(e.name, tree), f.dir.at, host.now);
    assert |frames| == |kids| by {
      TopIsOk(host.world, host.now, budget.maxDepth, frames, kids);
    }
    LeafStep(host.world, host.now, budget.maxDepth, frames, kids, tree);
    AdvanceSums(frames);
    SizeOfOneMore(records, r);
    SameDirsSameOwner(host.open, base, a, frames, Advance(frames));
    TopPlaced(frames, a);
    PlaceBelow(f.dir, a, e.name);
    StoredMore(before, host.dest, a, records, r);
  }

  lemma KindOfFinished(world: World, dir: Inode, e: Entry, child: Child, from: nat, now: nat)
    requires Finished(world, dir, e, child, from, now)
    ensures SameKind(e.info.kind, e.info.size, child.tree)
  {
  }

  lemma LedLeaf(world: World, resolve: Resolver, before: map<Path, Copy>, dest: map<Path, Copy>, roots: seq<Path>,
                frames: seq<Frame>, kids: seq<seq<Child>>, child: Child)
    requires Led(world, resolve, before, roots, frames, kids) && Kept(before, dest) && frames != []
    requires var dir := frames[|frames| - 1].dir;
      && Resolved(world, resolve, dir.source + [child.name], child.tree)
      && CopiedTo(dest, dir.destination + [child.name], child.tree)
      && Confined(roots, dir.source + [child.name], child.tree)
    ensures Led(world, resolve, dest, roots, Advance(frames), WithChild(kids, child))
  {
    hide Resolved, CopiedTo, Confined, KidsLed, Kept;
    LedLater(world, resolve, before, dest, roots, frames, kids);
    LedOneMore(world, resolve, dest, roots, frames, kids, child);
    LedSameDirs(world, resolve, dest, roots, frames, Advance(frames), WithChild(kids, child));
  }

  lemma TopPlaced(frames: seq<Frame>, a: Account)
    requires AllPlaced(frames, a) && frames != []
    ensures Placed(frames[|frames| - 1].dir, a)
  {
  }

  lemma LeafFacts(host: Host, budget: Budget, base: map<nat, Target>, a: Account, frames: seq<Frame>,
                  kids: seq<seq<Child>>, records: seq<Record>)
    requires Ongoing(host, budget, base, a, frames, kids, records) && HasCurrent(frames)
    ensures var f := frames[|frames| - 1]; var e := Current(f);
      && EntriesOk(host.world, host.now, budget.maxDepth, f.dir, f.entries.value, f.ready) && f.ready <= host.now
      && Seen(host.world, e, f.dir.at, host.now)
      && (e.info.kind.IsRegular? ==> Room(host.written, e.info.size, budget.totalBytes, budget.maxTotalBytes))
  {
    TopIsOk(host.world, host.now, budget.maxDepth, frames, kids);
    AdvanceSums(frames);
  }

  /** A file or a link of a scanned directory. */
  method VisitLeaf(host: Host, budget: Budget, f: Frame, destination: Path, roots: seq<Path>)
    returns (r: Result<Data>, ghost tree: Tree)
    requires host.Valid() && f.dir.fd in host.open && host.open[f.dir.fd] == Source(f.dir.expected.ino)
    requires f.entries.Some? && f.index < |f.entries.value| && f.ready <= host.now
    requires EntriesOk(host.world, host.now, budget.maxDepth, f.dir, f.entries.value, f.ready)
    requires !Current(f).info.kind.IsDirectory? && Charged(budget) && host.written <= budget.totalBytes
    requires Current(f).info.kind.IsRegular? ==>
      Room(host.written, Current(f).info.size, budget.totalBytes, budget.maxTotalBytes)
    modifies host, budget
    ensures host.Valid() && host.open == old(host.open) && old(host.now) <= host.now
    ensures host.written <= budget.maxTotalBytes
    ensures Kept(old(host.dest), host.dest) && host.dest.Keys <= old(host.dest).Keys + {destination}
    ensures r.Success? ==> Charged(budget) && budget.files == old(budget.files)
                           && budget.directories == old(budget.directories)
    ensures r.Success? ==>
      budget.totalBytes == old(budget.totalBytes) + (if Current(f).info.kind.IsSymlink? then |r.value| else 0)
    ensures r.Success? ==> host.written == old(host.written) + |r.value|
    ensures r.Success? ==> !tree.DirNode? && tree.bytes == r.value && f.ready <= tree.to
    ensures r.Success? ==> CopiedTo(host.dest, destination, tree)
    ensures r.Success? ==> var e := Current(f);
      && Finished(host.world, f.dir.expected.ino, e, Child(e.name, tree), f.dir.at, host.now)
      && Resolved(host.world, host.resolve, f.dir.source + [e.name], tree)
      && Confined(roots, f.dir.source + [e.name], tree)
    ensures
      Calm(host, budget) && Current(f).info.kind.IsRegular? && destination !in old(host.dest)
      && Listed(host.world(0), f.dir.expected.ino, Current(f).name, Current(f).info.ino)
      && Current(f).info.size <= budget.maxFileBytes
      ==> r.Success?
  {
    hide EntriesOk, Resolved, Confined, CopiedTo, Quiet, Listed;
    CurrentIsSeen(host.world, host.now, budget.maxDepth, f);
    var e := Current(f);
    if e.info.kind.IsSymlink? {
      hide Finished;
      r, tree := VisitLink(host, budget, f, destination, roots);
    } else {
      r, tree := VisitFile(host, budget, f.dir.fd, destination, e, f.dir.expected.ino);
      if r.Success? {
        FinishedEarlier(host.world, f.dir.expected.ino, e, Child(e.name, tree), f.dir.at, host.now);
        FileIsResolved(host.world, host.resolve, roots, f.dir.source + [e.name], tree);
      }
    }
  }

  /** The destination of a leaf holds what was copied. */
  lemma LeafIsCopied(dest: map<Path, Copy>, place: Path, t: Tree)
    requires CopiedTo(dest, place, t) && !t.DirNode?
    ensures place in dest && dest[place].bytes == t.bytes
  {
  }

  lemma LeafGoesOn(host: Host, budget: Budget, base: map<nat, Target>, a: Account, frames: seq<Frame>,
                   kids: seq<seq<Child>>, records: seq<Record>, before: map<Path, Copy>, tree: Tree)
    requires host.Valid() && Charged(budget) && Owns(host.open, base, frames) && AllPlaced(frames, a)
    requires StackOk(host.world, host.now, budget.maxDepth, frames, kids) && records == Made(frames, kids) && kids != []
    requires HasCurrent(frames) && !tree.DirNode?
    requires Stored(before, a, records) && Tracked(before, a, records) && Tame(host.world, a, budget.maxFileBytes, frames)
    requires Led(host.world, host.resolve, before, a.roots, frames, kids) && Kept(before, host.dest)
    requires var f := frames[|frames| - 1]; var e := Current(f);
      && Finished(host.world, f.dir.expected.ino, e, Child(e.name, tree), f.dir.at, host.now) && f.ready <= tree.to
      && Resolved(host.world, host.resolve, f.dir.source + [e.name], tree)
      && CopiedTo(host.dest, f.dir.destination + [e.name], tree) && Confined(a.roots, f.dir.source + [e.name], tree)
      && host.dest.Keys <= before.Keys + {f.dir.destination + [e.name]} && !e.info.kind.IsDirectory?
    requires budget.files == a.files + |records| + PendingFiles(frames)
    requires var e := Current(frames[|frames| - 1]);
      budget.totalBytes == a.totalBytes + Size(records) + PendingBytes(frames)
                           + (if e.info.kind.IsSymlink? then |tree.bytes| else 0)
    requires host.written == a.written + Size(records) + |tree.bytes| && a.written <= a.totalBytes
    ensures var f := frames[|frames| - 1]; var e := Current(f);
      && Ongoing(host, budget, base, a, Advance(frames), WithChild(kids, Child(e.name, tree)),
                 records + [Record(f.dir.relative + [e.name], tree.bytes)])
      && Work(Advance(frames)) < Work(frames)
  {
    hide StackOk, Owns, Stored, AllPlaced, Made, Finished, Led, Resolved, CopiedTo, Confined, Tracked, Tame, Size, Work,
      PendingFiles, PendingBytes, Kept, Underway;
    var f := frames[|frames| - 1];
    var e := Current(f);
    LeafIsCopied(host.dest, f.dir.destination + [e.name], tree);
    LeafKeeps(host, budget, base, a, frames, kids, records, before, tree);
    LedLeaf(host.world, host.resolve, before, host.dest, a.roots, frames, kids, Child(e.name, tree));
    TrackedOneMore(before, host.dest, a, records, frames, f, e.name, tree.bytes);
    TameSameDirs(host.world, a, budget.maxFileBytes, frames, Advance(frames));
  }

  /** A file or a link: it is copied and its record appended. */
  method CopyLeaf(host: Host, budget: Budget, ghost base: map<nat, Target>, ghost a: Account, frames: seq<Frame>,
                  ghost kids: seq<seq<Child>>, records: seq<Record>, roots: seq<Path>)
    returns (error: Option<Error>, after: seq<Frame>, ghost kids': seq<seq<Child>>, records': seq<Record>)
    requires Ongoing(host, budget, base, a, frames, kids, records) && HasCurrent(frames)
    requires !Current(frames[|frames| - 1]).info.kind.IsDirectory? && roots == a.roots
    modifies host, budget
    ensures error.None? ==> Ongoing(host, budget, base, a, after, kids', records') && Work(after) < Work(frames)
    ensures error.None? ==> budget.files == old(budget.files) && budget.directories == old(budget.directories)
    ensures error.Some? ==> Abandoned(host, budget, base, after)
    ensures SameDirs(frames, after)
    ensures Kept(old(host.dest), host.dest)
    ensures Calm(host, budget) && Easy(host, a, frames[0].dir) ==> NoErrorButOver(error, budget)
  {
    hide StackOk, Owns, Stored, AllPlaced, Made, EntriesOk, Finished, Led, Resolved, CopiedTo, Confined, Tracked, Tame,
      Easy, Quiet, Listed, Work, PendingFiles, PendingBytes, Size;
    after, kids', records' := frames, kids, records;
    var f := frames[|frames| - 1];
    var e := Current(f);
    TopFacts(host, budget, base, a, frames, kids, records);
    LeafFacts(host, budget, base, a, frames, kids, records);
    if Calm(host, budget) && Easy(host, a, frames[0].dir) {
      CurrentIsOrdinary(host, budget, base, a, frames, kids, records);
      EasyPlaceIsFree(host, budget, base, a, frames, kids, records);
    }
    ghost var start, before, world := host.now, host.dest, host.world;
    var r, tree := VisitLeaf(host, budget, f, f.dir.destination + [e.name], roots);
    if r.Failure? {
      return Some(r.error), after, kids', records';
    }
    TimePasses(world, start, host.now, budget.maxDepth, frames, kids);
    KidsNotEmpty(world, host.now, budget.maxDepth, frames, kids);
    LeafGoesOn(host, budget, base, a, frames, kids, records, before, tree);
    after, kids' := Advance(frames), WithChild(kids, Child(e.name, tree));
    records' := records + [Record(f.dir.relative + [e.name], r.value)];
    error := None;
  }

  lemma KidsNotEmpty(world: World, now: nat, maxDepth: nat, frames: seq<Frame>, kids: seq<seq<Child>>)
    requires StackOk(world, now, maxDepth, frames, kids) && frames != []
    ensures kids != []
  {
  }

  lemma FileIsResolved(world: World, resolve: Resolver, roots: seq<Path>, path: Path, t: Tree)
    requires t.FileNode?
    ensures Resolved(world, resolve, path, t) && Confined(roots, path, t)
  {
  }

  /** What stood since the entry's `stat` stood within the directory's interval. */
  lemma FinishedEarlier(world: World, dir: Inode, e: Entry, child: Child, from: nat, now: nat)
    requires Finished(world, dir, e, child, e.at, now) && child.tree.FileNode? && from <= e.at
    requires Honest(world) ==> Faithful(world, child.tree)
    ensures Finished(world, dir, e, child, from, now)
  {
  }

  // ---------- entering and leaving a directory ----------

  lemma OwnsOneMore(open: map<nat, Target>, base: map<nat, Target>, frames: seq<Frame>, child: Frame)
    requires Owns(open, base, frames) && child.dir.fd !in open
    ensures Owns(open[child.dir.fd := Source(child.dir.expected.ino)], base, frames + [child])
  {
    var frames' := frames + [child];
    assert frames'[..|frames|] == frames;
    forall fd
      ensures fd in open[child.dir.fd := Source(child.dir.expected.ino)] <==> fd in base || OwnedBy(fd, frames')
    {
      OwnedByOneLess(fd, frames');
    }
    assert forall i :: 0 <= i < |frames| ==> OwnedBy(frames[i].dir.fd, frames);
  }

  /** Which descriptors belong to frames. */
  ghost predicate OwnedBy(fd: nat, frames: seq<Frame>) {
    exists i :: 0 <= i < |frames| && frames[i].dir.fd == fd
  }

  lemma OwnedByOneLess(fd: nat, frames: seq<Frame>)
    requires frames != []
    ensures OwnedBy(fd, frames) <==> OwnedBy(fd, frames[..|frames| - 1]) || fd == frames[|frames| - 1].dir.fd
  {
    var front := frames[..|frames| - 1];
    if i :| 0 <= i < |frames| && frames[i].dir.fd == fd && i < |front| {
      assert front[i].dir.fd == fd;
    }
    if i :| 0 <= i < |front| && front[i].dir.fd == fd {
      assert frames[i].dir.fd == fd;
    }
    assert frames[|front|] == frames[|frames| - 1];
  }

  lemma OwnsOneLess(open: map<nat, Target>, base: map<nat, Target>, frames: seq<Frame>)
    requires Owns(open, base, frames) && frames != []
    ensures Owns(open - {frames[|frames| - 1].dir.fd}, base, frames[..|frames| - 1])
  {
    var front, last := frames[..|frames| - 1], frames[|frames| - 1].dir.fd;
    assert !OwnedBy(last, front);
    forall fd
      ensures fd in open - {last} <==> fd in base || OwnedBy(fd, front)
    {
      OwnedByOneLess(fd, frames);
    }
  }

  lemma PlacedOneMore(frames: seq<Frame>, a: Account, child: Frame)
    requires AllPlaced(frames, a) && Placed(child.dir, a)
    ensures AllPlaced(frames + [child], a)
  {
  }

  /** The frame for the directory the current entry names. */
  function ChildFrame(f: Frame, fd: nat): Frame
    requires f.entries.Some? && f.index < |f.entries.value|
  {
    var e := Current(f);
    Frame(Opened(fd, f.dir.source + [e.name], f.dir.destination + [e.name], f.dir.relative + [e.name],
                 f.dir.depth + 1, e.info, e.at, e.name), None, 0, 0)
  }

  lemma ChildIsAbove(frames: seq<Frame>, fd: nat)
    requires HasCurrent(frames)
    ensures var f := frames[|frames| - 1]; Above(Advance(frames)[|frames| - 1], ChildFrame(f, fd))
  {
  }

  lemma EnterKeeps(host: Host, budget: Budget, base: map<nat, Target>, a: Account, frames: seq<Frame>,
                   kids: seq<seq<Child>>, records: seq<Record>, before: map<nat, Target>, fd: nat)
    requires host.Valid() && Charged(budget) && Owns(before, base, frames) && AllPlaced(frames, a)
    requires StackOk(host.world, host.now, budget.maxDepth, frames, kids) && |frames| == |kids|
    requires records == Made(frames, kids) && Balanced(host, budget, a, frames, records) && Stored(host.dest, a, records)
    requires HasCurrent(frames) && Current(frames[|frames| - 1]).info.kind.IsDirectory?
    requires fd !in before && host.open == before[fd := Source(Current(frames[|frames| - 1]).info.ino)]
    ensures var after := Advance(frames) + [ChildFrame(frames[|frames| - 1], fd)];
      Underway(host, budget, base, a, after, kids + [[]], records) && Work(after) < Work(frames)
  {
    hide StackOk, Owns, Stored, AllPlaced, Made, FrameOk, Flatten, Work, PendingFiles, PendingBytes, Unvisited, Size;
    hide Above, Placed;
    var f := frames[|frames| - 1];
    var top := ChildFrame(f, fd);
    ChildIsAbove(frames, fd);
    PushStep(host.world, host.now, budget.maxDepth, frames, kids, top);
    MadePush(frames, kids, top);
    AdvanceSums(frames);
    PushSums(Advance(frames), top);
    SameDirsSameOwner(before, base, a, frames, Advance(frames));
    OwnsOneMore(before, base, Advance(frames), top);
    TopPlaced(frames, a);
    PlaceBelow(f.dir, a, Current(f).name);
    PlacedOneMore(Advance(frames), a, top);
  }

  /** A subdirectory: opened, checked against its entry, and pushed. */
  method EnterChild(host: Host, budget: Budget, ghost base: map<nat, Target>, ghost a: Account, frames: seq<Frame>,
                    ghost kids: seq<seq<Child>>, ghost records: seq<Record>)
    returns (error: Option<Error>, after: seq<Frame>, ghost kids': seq<seq<Child>>)
    requires Ongoing(host, budget, base, a, frames, kids, records) && HasCurrent(frames)
    requires Current(frames[|frames| - 1]).info.kind.IsDirectory?
    modifies host`now, host`nextFd, host`open
    ensures error.None? ==> Ongoing(host, budget, base, a, after, kids', records) && Work(after) < Work(frames)
    ensures error.None? ==> |after| > |frames| && after[0].dir == frames[0].dir
    ensures error.Some? ==> Abandoned(host, budget, base, after)
    ensures Calm(host, budget) && Easy(host, a, frames[0].dir) ==> error.None?
  {
    hide StackOk, Owns, Stored, AllPlaced, Made, FrameOk, Led, Tracked, Tame, Easy, Quiet, Ordinary;
    after, kids' := frames, kids;
    var f := frames[|frames| - 1];
    TopFacts(host, budget, base, a, frames, kids, records);
    StackSizes(host.world, host.now, budget.maxDepth, frames, kids);
    if Calm(host, budget) && Easy(host, a, frames[0].dir) {
      CurrentIsOrdinary(host, budget, base, a, frames, kids, records);
    }
    if Quiet(host.world) && Ordinary(host.world(0), a.tree) && frames[0].dir.expected.ino in a.tree {
      CurrentIsInTree(host, budget, base, a, frames, kids, records);
    }
    ghost var start := host.now;
    var child := OpenChild(host, f.dir.fd, Current(f).name, Current(f).info);
    if child.Failure? {
      return Some(child.error), after, kids';
    }
    TimePasses(host.world, start, host.now, budget.maxDepth, frames, kids);
    EnterKeeps(host, budget, base, a, frames, kids, records, old(host.open), child.value);
    LedSameDirs(host.world, host.resolve, host.dest, a.roots, frames, Advance(frames), kids);
    LedPush(host.world, host.resolve, host.dest, a.roots, Advance(frames), kids, ChildFrame(f, child.value));
    TamePush(host.world, a, budget.maxFileBytes, frames, ChildFrame(f, child.value));
    after, kids' := Advance(frames) + [ChildFrame(f, child.value)], kids + [[]];
    error := None;
  }

  lemma StackSizes(world: World, now: nat, maxDepth: nat, frames: seq<Frame>, kids: seq<seq<Child>>)
    requires StackOk(world, now, maxDepth, frames, kids)
    ensures |frames| == |kids|
  {
  }

  /** All entries of the top frame are visited. */
  predicate IsDone(frames: seq<Frame>) {
    && frames != [] && frames[|frames| - 1].entries.Some?
    && frames[|frames| - 1].index == |frames[|frames| - 1].entries.value|
  }

  /** The whole tree, once only its root's frame is left and that one is done. */
  ghost predicate Completed(world: World, resolve: Resolver, dest: map<Path, Copy>, now: nat, maxDepth: nat, a: Account,
                            root: Opened, records: seq<Record>, snapshot: Tree)
  {
    && snapshot.DirNode? && records == Flatten(a.relative, snapshot) && Height(snapshot) <= maxDepth + 1
    && snapshot.ino == root.expected.ino && root.at == snapshot.from <= snapshot.to <= now
    && SortedThroughout(snapshot) && Spanned(snapshot)
    && Leads(world, resolve, a.source, snapshot) && Resolved(world, resolve, a.source, snapshot)
    && CopiedTo(dest, a.destination, snapshot) && Confined(a.roots, a.source, snapshot)
    && (Honest(world) ==> Faithful(world, snapshot))
  }

  lemma RootIsCompleted(world: World, resolve: Resolver, dest: map<Path, Copy>, now: nat, maxDepth: nat, a: Account,
                        frames: seq<Frame>, kids: seq<seq<Child>>)
    requires StackOk(world, now, maxDepth, frames, kids) && IsDone(frames) && |frames| == 1
    requires frames[0].dir.relative == a.relative && AllPlaced(frames, a) && Led(world, resolve, dest, a.roots, frames, kids)
    requires Honest(world) ==> Steady(world, frames[0].dir.expected.ino, frames[0].dir.at, now)
    requires resolve(world(now), frames[0].dir.source) == Some(frames[0].dir.expected.ino)
    ensures Completed(world, resolve, dest, now, maxDepth, a, frames[0].dir, Made(frames, kids),
              TreeOf(frames[0], kids[0], now))
  {
    hide Led, Resolved, CopiedTo, Confined, Steady, Spanned;
    TopIsOk(world, now, maxDepth, frames, kids);
    FrameIsTree(world, now, maxDepth, frames[0], kids[0]);
    assert Made(frames[..0], kids[..0]) == [];
    assert Placed(frames[0].dir, a) && Origin(a, a.relative) == a.source && Place(a, a.relative) == a.destination;
    LedTree(world, resolve, dest, a.roots, frames, kids, now);
  }

  lemma PopKeeps(world: World, resolve: Resolver, dest: map<Path, Copy>, now: nat, maxDepth: nat, a: Account,
                 frames: seq<Frame>, kids: seq<seq<Child>>) returns (kids': seq<seq<Child>>)
    requires StackOk(world, now, maxDepth, frames, kids) && IsDone(frames) && |frames| > 1
    requires var f := frames[|frames| - 1]; Honest(world) ==> Steady(world, f.dir.expected.ino, f.dir.at, now)
    requires AllPlaced(frames, a) && Led(world, resolve, dest, a.roots, frames, kids)
    ensures StackOk(world, now, maxDepth, frames[..|frames| - 1], kids')
    ensures Led(world, resolve, dest, a.roots, frames[..|frames| - 1], kids')
    ensures |kids'| == |frames| - 1 && |kids| == |frames| && Made(frames[..|frames| - 1], kids') == Made(frames, kids)
    ensures AllPlaced(frames[..|frames| - 1], a)
    ensures PendingFiles(frames[..|frames| - 1]) == PendingFiles(frames)
    ensures PendingBytes(frames[..|frames| - 1]) == PendingBytes(frames)
    ensures Work(frames[..|frames| - 1]) < Work(frames)
  {
    hide FrameOk, Led, Resolved, CopiedTo, Confined;
    var n := |frames| - 1;
    assert Above(frames[n - 1], frames[n]);
    LedPop(world, resolve, dest, a.roots, frames, kids, now, a);
    PopStep(world, now, maxDepth, frames, kids);
    kids' := kids[..n][n - 1 := kids[n - 1] + [Child(frames[n].dir.name, TreeOf(frames[n], kids[n], now))]];
    PopSums(frames);
  }

  /** A directory whose entries are all visited: checked once more, closed and popped. */
  method LeaveTop(host: Host, budget: Budget, ghost base: map<nat, Target>, ghost a: Account, frames: seq<Frame>,
                  ghost kids: seq<seq<Child>>, ghost records: seq<Record>)
    returns (error: Option<Error>, after: seq<Frame>, ghost kids': seq<seq<Child>>, ghost snapshot: Tree)
    requires Ongoing(host, budget, base, a, frames, kids, records) && IsDone(frames)
    requires frames[0].dir.relative == a.relative
    modifies host`now, host`open
    ensures error.None? ==> after == frames[..|frames| - 1] && Work(after) < Work(frames)
    ensures error.None? && |frames| > 1 ==> Ongoing(host, budget, base, a, after, kids', records)
    ensures error.None? && |frames| == 1 ==>
      && Completed(host.world, host.resolve, host.dest, host.now, budget.maxDepth, a, frames[0].dir, records, snapshot)
      && Abandoned(host, budget, base, [])
      && Charged(budget) && Balanced(host, budget, a, [], records) && Stored(host.dest, a, records)
      && Tracked(host.dest, a, records)
    ensures error.Some? ==> Abandoned(host, budget, base, after)
    ensures Calm(host, budget) && Easy(host, a, frames[0].dir) ==> error.None?
  {
    hide StackOk, Owns, Stored, AllPlaced, Made, FrameOk, Completed, Steady, Honest, Work, Unvisited, SeenAt, Led;
    hide Tracked, Tame, Easy, Quiet;
    after, kids', snapshot := frames, kids, FileNode(0, 0, 0, []);
    var n := |frames| - 1;
    TopFacts(host, budget, base, a, frames, kids, records);
    ghost var start, world := host.now, host.world;
    var below := None;
    if n > 0 {
      below := Some(frames[n - 1].dir.fd);
      OwnedIsOpen(host.open, base, frames, n - 1);
    }
    if Calm(host, budget) && Easy(host, a, frames[0].dir) {
      TopIsStillThere(host, budget, base, a, frames, kids, records);
    }
    error := LeaveDirectory(host, frames[n].dir, below);
    if error.Some? {
      return;
    }
    TimePasses(world, start, host.now, budget.maxDepth, frames, kids);
    OwnsOneLess(host.open, base, frames);
    host.Close(frames[n].dir.fd);
    after := frames[..n];
    if n > 0 {
      TameLess(world, a, budget.maxFileBytes, frames);
      kids' := PopKeeps(world, host.resolve, host.dest, host.now, budget.maxDepth, a, frames, kids);
    } else {
      RootIsCompleted(world, host.resolve, host.dest, host.now, budget.maxDepth, a, frames, kids);
      snapshot := RootTree(world, host.now, budget.maxDepth, frames, kids);
      PopSums(frames);
      assert after == [];
    }
  }

  lemma OwnedIsOpen(open: map<nat, Target>, base: map<nat, Target>, frames: seq<Frame>, i: nat)
    requires Owns(open, base, frames) && i < |frames|
    ensures frames[i].dir.fd in open && open[frames[i].dir.fd] == Source(frames[i].dir.expected.ino)
  {
  }

  lemma RootTree(world: World, now: nat, maxDepth: nat, frames: seq<Frame>, kids: seq<seq<Child>>) returns (t: Tree)
    requires StackOk(world, now, maxDepth, frames, kids) && frames != []
    ensures |kids| > 0 && t == TreeOf(frames[0], kids[0], now)
  {
    t := TreeOf(frames[0], kids[0], now);
  }

  // ---------- the whole walk ----------

  /** The `finally` block: one close for each frame still on the stack. */
  method CloseAll(host: Host, ghost base: map<nat, Target>, frames: seq<Frame>)
    requires host.Valid() && Owns(host.open, base, frames)
    modifies host`open
    ensures host.Valid() && host.open == base
  {
    hide Owns;
    var i := |frames|;
    assert frames[..i] == frames;
    while i > 0
      invariant 0 <= i <= |frames| && host.Valid() && Owns(host.open, base, frames[..i])
    {
      i := i - 1;
      OwnsOneLess(host.open, base, frames[..i + 1]);
      OwnedIsOpen(host.open, base, frames[..i + 1], i);
      assert frames[..i + 1][..i] == frames[..i];
      host.Close(frames[i].dir.fd);
    }
    OwnsNothing(host.open, base, frames[..0]);
  }

  lemma OwnsNothing(open: map<nat, Target>, base: map<nat, Target>, frames: seq<Frame>)
    requires Owns(open, base, frames) && frames == []
    ensures open == base
  {
  }

  /** One turn of the loop: scan, leave, copy or enter. */
  method WalkStep(host: Host, budget: Budget, ghost base: map<nat, Target>, ghost a: Account, frames: seq<Frame>,
                  ghost kids: seq<seq<Child>>, records: seq<Record>, roots: seq<Path>)
    returns (error: Option<Error>, after: seq<Frame>, ghost kids': seq<seq<Child>>, records': seq<Record>, ghost snapshot: Tree)
    requires Ongoing(host, budget, base, a, frames, kids, records)
    requires frames != [] && frames[0].dir.relative == a.relative && roots == a.roots
    modifies host, budget
    ensures error.None? ==> Charged(budget)
    ensures error.None? && after != [] ==>
      Ongoing(host, budget, base, a, after, kids', records') && after[0].dir == frames[0].dir
    ensures error.None? && after == [] ==>
      && Completed(host.world, host.resolve, host.dest, host.now, budget.maxDepth, a, frames[0].dir, records', snapshot)
      && Abandoned(host, budget, base, [])
      && Balanced(host, budget, a, [], records') && Stored(host.dest, a, records') && Tracked(host.dest, a, records')
    ensures error.Some? ==> Abandoned(host, budget, base, after)
    ensures error.None? ==> budget.files + budget.directories >= old(budget.files + budget.directories)
    ensures error.None? && budget.files + budget.directories == old(budget.files + budget.directories) ==>
              Work(after) < Work(frames)
    ensures Kept(old(host.dest), host.dest)
    ensures Calm(host, budget) && Easy(host, a, frames[0].dir) ==> NoErrorButOver(error, budget)
  {
    hide StackOk, Owns, Stored, AllPlaced, Made, Completed, Work, Led, Tracked, Tame, Easy, Quiet;
    kids', records', snapshot := kids, records, FileNode(0, 0, 0, []);
    error := budget.CheckDeadline();
    if error.Some? {
      OngoingCanStop(host, budget, base, a, frames, kids, records);
      after := frames;
      return;
    }
    var top := frames[|frames| - 1];
    TopIndex(host, budget, base, a, frames, kids, records);
    if top.entries.None? {
      error, after := ScanTop(host, budget, base, a, frames, kids, records, roots != []);
    } else if top.index >= |top.entries.value| {
      error, after, kids', snapshot := LeaveTop(host, budget, base, a, frames, kids, records);
    } else if Current(top).info.kind.IsDirectory? {
      error, after, kids' := EnterChild(host, budget, base, a, frames, kids, records);
    } else {
      error, after, kids', records' := CopyLeaf(host, budget, base, a, frames, kids, records, roots);
    }
  }

  lemma TopIndex(host: Host, budget: Budget, base: map<nat, Target>, a: Account, frames: seq<Frame>,
                 kids: seq<seq<Child>>, records: seq<Record>)
    requires Ongoing(host, budget, base, a, frames, kids, records) && frames != []
    ensures var f := frames[|frames| - 1]; f.entries.Some? ==> f.index <= |f.entries.value|
  {
    TopIsOk(host.world, host.now, budget.maxDepth, frames, kids);
  }

  /** The loop and the clean-up after it, from the frame of the root on. */
  method WalkTree(host: Host, budget: Budget, ghost base: map<nat, Target>, ghost a: Account, start: seq<Frame>,
                  roots: seq<Path>)
    returns (error: Option<Error>, records: seq<Record>, ghost snapshot: Tree)
    requires Ongoing(host, budget, base, a, start, [[]], [])
    requires |start| == 1 && start[0].dir.relative == a.relative && roots == a.roots
    modifies host, budget
    ensures host.Valid() && host.open == base && host.written <= budget.maxTotalBytes
    ensures error.None? ==>
      && Charged(budget) && Balanced(host, budget, a, [], records) && Stored(host.dest, a, records)
      && Completed(host.world, host.resolve, host.dest, host.now, budget.maxDepth, a, start[0].dir, records, snapshot)
      && Tracked(host.dest, a, records)
    ensures Kept(old(host.dest), host.dest)
    ensures Calm(host, budget) && Easy(host, a, start[0].dir) ==> NoErrorButOver(error, budget)
  {
    hide StackOk, Owns, Made, Work, Stored, Led, Completed, Tracked, Tame, Easy, Calm;
    var frames := start;
    ghost var root, kids: seq<seq<Child>> := start[0].dir, [[]];
    error, records, snapshot := None, [], FileNode(0, 0, 0, []);
    while frames != []
      invariant frames != [] ==>
        Ongoing(host, budget, base, a, frames, kids, records) && frames[0].dir == root
      invariant frames == [] ==>
        && Completed(host.world, host.resolve, host.dest, host.now, budget.maxDepth, a, root, records, snapshot)
        && Abandoned(host, budget, base, [])
        && Balanced(host, budget, a, [], records) && Stored(host.dest, a, records) && Tracked(host.dest, a, records)
      invariant Charged(budget) && error.None?
      invariant Kept(old(host.dest), host.dest)
      decreases 2 * budget.maxFiles - budget.files - budget.directories, Work(frames)
    {
      error, frames, kids, records, snapshot := WalkStep(host, budget, base, a, frames, kids, records, roots);
      if error.Some? {
        break;
      }
    }
    CloseAll(host, base, frames);
  }

  /** `_copy_posix_tree`. On success the records are the depth-first records of a tree that the world really held,
      node by node; the budget and the bytes written account for exactly them. Every descriptor is closed again,
      except the root's when its own charge is refused: that check stands before the guarded block. */
  method CopyTree(host: Host, budget: Budget, source: Path, destination: Path, relative: Path, roots: seq<Path>,
                  ghost tree: set<Inode>)
    returns (r: Result<seq<Record>>, ghost snapshot: Tree, ghost rootOpened: bool, ghost refused: bool)
    requires host.Valid() && Charged(budget) && host.written <= budget.totalBytes
    modifies host, budget
    ensures host.Valid() && host.written <= budget.maxTotalBytes
    ensures host.open == old(host.open) <==> !(rootOpened && refused)
    ensures rootOpened && old(budget.directories) >= budget.maxFiles ==> refused
    ensures refused ==> r.Failure? && (r.error.DeadlineExceeded? || old(budget.directories) >= budget.maxFiles)
    ensures refused && !r.error.DeadlineExceeded? ==> budget.directories > budget.maxFiles
    ensures rootOpened && refused ==>
      && host.dest == old(host.dest) && host.written == old(host.written)
      && budget.files == old(budget.files) && budget.totalBytes == old(budget.totalBytes)
    ensures r.Success? ==> rootOpened && !refused
    ensures r.Success? ==> Charged(budget) && budget.files == old(budget.files) + |r.value|
    ensures r.Success? ==> budget.totalBytes == old(budget.totalBytes) + Size(r.value)
    ensures r.Success? ==> host.written == old(host.written) + Size(r.value)
    ensures r.Success? ==> snapshot.DirNode? && r.value == Flatten(relative, snapshot)
    ensures r.Success? ==> Height(snapshot) <= budget.maxDepth + 1
    ensures r.Success? ==> SortedThroughout(snapshot) && DistinctPaths(r.value)
    ensures r.Success? ==> old(host.now) <= snapshot.from <= snapshot.to <= host.now && Spanned(snapshot)
    ensures r.Success? ==> Leads(host.world, host.resolve, source, snapshot)
    ensures r.Success? ==> CopiedTo(host.dest, destination, snapshot)
    ensures r.Success? ==> Confined(roots, source, snapshot) && (roots == [] ==> !HasLink(snapshot))
    ensures r.Success? ==> Resolved(host.world, host.resolve, source, snapshot)
    ensures r.Success? && Honest(host.world) ==> Faithful(host.world, snapshot)
    ensures r.Success? ==> StoredAt(host.dest, relative, destination, r.value)
    ensures Kept(old(host.dest), host.dest)
    ensures r.Success? ==> forall p :: p in host.dest ==> p in old(host.dest) || destination <= p
    ensures Calm(host, budget) && TreeIsThere(host, source, tree) && IsFree(old(host.dest), destination) ==>
      OnlyOver(r, budget)
  {
    hide StackOk, Owns, Made, Work, Flatten, Height, Faithful, Stored, Resolved, Led, CopiedTo, Confined, HasLink, Spanned;
    hide Tracked, Tame, Easy, TreeIsThere, IsFree, Calm, Quiet, Ongoing, Completed, Leads, SortedThroughout, DistinctPaths,
      StoredAt, Honest;
    ghost var base := host.open;
    ghost var a := Account(source, relative, destination, roots, host.dest.Keys, tree, budget.files, budget.totalBytes,
                           host.written);
    rootOpened, refused, snapshot := false, false, FileNode(0, 0, 0, []);
    ghost var easy := Calm(host, budget) && TreeIsThere(host, source, tree) && IsFree(host.dest, destination);
    if easy {
      CalmIsPatient(host, budget);
      TreeOpens(host, source, tree);
    }
    var fd, expected, seen := OpenAbsoluteDirectory(host, budget, source);
    if fd.Failure? {
      return Failure(fd.error), snapshot, rootOpened, refused;
    }
    rootOpened := true;
    var error := budget.AddDirectory();
    if error.Some? {
      refused := true;
      assert fd.value in host.open && fd.value !in base;
      return Failure(error.value), snapshot, rootOpened, refused;
    }
    var frames := [Frame(Opened(fd.value, source, destination, relative, 0, expected, seen, ""), None, 0, 0)];
    StartOk(host, budget, base, a, frames, [[]]);
    if easy {
      StartIsEasy(host, budget, a, frames[0].dir, old(host.dest));
    }
    var records;
    error, records, snapshot := WalkTree(host, budget, base, a, frames, roots);
    r := if error.Some? then Failure(error.value) else Success(records);
    if r.Success? {
      CopyIsDone(host.world, host.resolve, host.dest, host.now, budget.maxDepth, a, frames[0].dir, records, snapshot);
    }
  }

  lemma CopyIsDone(world: World, resolve: Resolver, dest: map<Path, Copy>, now: nat, maxDepth: nat, a: Account,
                   root: Opened, records: seq<Record>, snapshot: Tree)
    requires Completed(world, resolve, dest, now, maxDepth, a, root, records, snapshot)
    requires Stored(dest, a, records) && Tracked(dest, a, records)
    ensures snapshot.DirNode? && records == Flatten(a.relative, snapshot) && Height(snapshot) <= maxDepth + 1
    ensures SortedThroughout(snapshot) && DistinctPaths(records)
    ensures root.at == snapshot.from <= snapshot.to <= now && Spanned(snapshot)
    ensures Leads(world, resolve, a.source, snapshot) && Resolved(world, resolve, a.source, snapshot)
    ensures CopiedTo(dest, a.destination, snapshot) && StoredAt(dest, a.relative, a.destination, records)
    ensures Confined(a.roots, a.source, snapshot) && (a.roots == [] ==> !HasLink(snapshot))
    ensures Honest(world) ==> Faithful(world, snapshot)
    ensures forall p :: p in dest ==> p in a.before || a.destination <= p
  {
    hide Flatten, Height, Faithful, Stored, Resolved, CopiedTo, Confined, HasLink, Spanned, Tracked, Leads, StoredAt, Honest;
    StoredIsPlaced(dest, a, records);
    EachFileOnce(a.relative, snapshot);
    OnlyBelow(dest, a, records);
    if a.roots == [] {
      NoRootsNoLinks(a.source, snapshot);
    }
  }

  lemma StartIsEasy(host: Host, budget: Budget, a: Account, root: Opened, dest: map<Path, Copy>)
    requires Calm(host, budget) && TreeIsThere(host, a.source, a.tree) && IsFree(dest, a.destination) && a.before == dest.Keys
    requires host.resolve(host.world(host.now), a.source) == Some(root.expected.ino)
    ensures Easy(host, a, root)
  {
    assert host.world(host.now) == host.world(0);
    hide Walk, Ordinary;
  }

  lemma CalmIsPatient(host: Host, budget: Budget)
    requires Calm(host, budget)
    ensures budget.patient
  {
  }

  lemma TreeOpens(host: Host, source: Path, tree: set<Inode>)
    requires TreeIsThere(host, source, tree)
    ensures Opens(host.world(0), host.root, host.resolve, source)
  {
  }

  lemma OnlyBelow(dest: map<Path, Copy>, a: Account, records: seq<Record>)
    requires Tracked(dest, a, records)
    ensures forall p :: p in dest ==> p in a.before || a.destination <= p
  {
  }

  lemma StartOk(host: Host, budget: Budget, base: map<nat, Target>, a: Account, frames: seq<Frame>, kids: seq<seq<Child>>)
    requires host.Valid() && Charged(budget) && |frames| == 1 && kids == [[]]
    requires frames[0].entries.None? && frames[0].index == 0 && frames[0].dir.depth == 0
    requires var dir := frames[0].dir;
      && dir.expected.kind.IsDirectory? && SeenAt(host.world, dir.expected, dir.at) && dir.at <= host.now
      && dir.relative == a.relative && dir.destination == a.destination && dir.source == a.source
      && dir.fd !in base && host.open == base[dir.fd := Source(dir.expected.ino)]
    requires budget.files == a.files && budget.totalBytes == a.totalBytes && host.written == a.written <= a.totalBytes
    requires a.before == host.dest.Keys
    ensures Ongoing(host, budget, base, a, frames, kids, [])
  {
    assert FrameOk(host.world, host.now, budget.maxDepth, frames[0], kids[0], false);
    assert Made(frames[..0], kids[..0]) == [] && Made(frames, kids) == [];
    assert frames[..0] == [];
  }

  lemma StoredIsPlaced(dest: map<Path, Copy>, a: Account, records: seq<Record>)
    ensures Stored(dest, a, records) ==> StoredAt(dest, a.relative, a.destination, records)
  {
  }

  /** The path opens, and below it there are only regular files and directories. */
  ghost predicate TreeIsThere(host: Host, source: Path, tree: set<Inode>) {
    && Opens(host.world(0), host.root, host.resolve, source) && Ordinary(host.world(0), tree)
    && Walk(host.world(0), host.root, source).value in tree
  }

  /** Nothing is in the destination at or below this place. */
  ghost predicate IsFree(dest: map<Path, Copy>, destination: Path) {
    forall p :: p in dest ==> !(destination <= p)
  }
}
