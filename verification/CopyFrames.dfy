/** The explicit stack of a tree copy: what its frames stand for, and how one step changes that. */
module CopyFrames {
  import opened Lexicographic
  import opened FileWorld
  import opened Snapshot

  /** A scanned entry; `at` is the moment of its `stat`, which the program does not record. */
  datatype Entry = Entry(name: string, info: Stat, at: nat)

  /** A directory the copy has opened; `at` is the moment of `expected`, `name` its name in the directory above. */
  datatype Opened = Opened(
    fd: nat,
    source: Path,
    destination: Path,
    relative: Path,
    depth: nat,
    expected: Stat,
    at: nat,
    name: string)

  /** `ready` is the moment the scan ended. */
  datatype Frame = Frame(dir: Opened, entries: Option<seq<Entry>>, ready: nat, index: nat)

  // ---------- sorting the entries by name ----------

  function Insert(e: Entry, es: seq<Entry>): (r: seq<Entry>)
    ensures |r| == |es| + 1
    ensures forall x :: x in r <==> x == e || x in es
    ensures Files(r) == Files(es) + (if e.info.kind.IsDirectory? then 0 else 1)
    ensures Bytes(r) == Bytes(es) + (if e.info.kind.IsRegular? then e.info.size else 0)
    ensures Dirs(r) == Dirs(es) + (if e.info.kind.IsDirectory? then 1 else 0)
  {
    if es == [] || Less(e.name, es[0].name) then [e] + es
    else [es[0]] + Insert(e, es[1..])
  }

  function SortByName(es: seq<Entry>): (r: seq<Entry>)
    ensures |r| == |es|
    ensures forall x :: x in r <==> x in es
    ensures Files(r) == Files(es) && Bytes(r) == Bytes(es) && Dirs(r) == Dirs(es)
  {
    if es == [] then [] else Insert(es[0], SortByName(es[1..]))
  }

  predicate ByName(es: seq<Entry>) {
    forall i, j :: 0 <= i < j < |es| ==> Less(es[i].name, es[j].name)
  }

  predicate DistinctNames(es: seq<Entry>) {
    forall i, j :: 0 <= i < j < |es| ==> es[i].name != es[j].name
  }

  lemma {:induction false} InsertKeepsOrder(e: Entry, es: seq<Entry>)
    requires ByName(es) && forall x :: x in es ==> x.name != e.name
    ensures ByName(Insert(e, es))
  {
    if es != [] {
      if Less(e.name, es[0].name) {
        forall j | 0 < j < |es|
          ensures Less(e.name, es[j].name)
        {
          LessIsTransitive(e.name, es[0].name, es[j].name);
        }
      } else {
        LessIsTotal(e.name, es[0].name);
        assert es[0] in es;
        InsertKeepsOrder(e, es[1..]);
        forall x | x in Insert(e, es[1..])
          ensures Less(es[0].name, x.name)
        {
          if x != e {
            var j :| 0 <= j < |es[1..]| && es[1..][j] == x;
            assert x == es[j + 1];
          }
        }
      }
    }
  }

  lemma {:induction false} SortingOrders(es: seq<Entry>)
    requires DistinctNames(es)
    ensures ByName(SortByName(es))
  {
    if es != [] {
      assert forall x :: x in es[1..] ==> exists j :: 0 < j < |es| && es[j] == x;
      SortingOrders(es[1..]);
      InsertKeepsOrder(es[0], SortByName(es[1..]));
    }
  }

  // ---------- what is charged but not yet copied ----------

  function Files(es: seq<Entry>): nat {
    if es == [] then 0 else (if es[0].info.kind.IsDirectory? then 0 else 1) + Files(es[1..])
  }

  function Dirs(es: seq<Entry>): nat {
    if es == [] then 0 else (if es[0].info.kind.IsDirectory? then 1 else 0) + Dirs(es[1..])
  }

  function Bytes(es: seq<Entry>): nat {
    if es == [] then 0 else (if es[0].info.kind.IsRegular? then es[0].info.size else 0) + Bytes(es[1..])
  }

  lemma {:induction false} WeightsAppend(a: seq<Entry>, b: seq<Entry>)
    ensures Files(a + b) == Files(a) + Files(b)
    ensures Dirs(a + b) == Dirs(a) + Dirs(b)
    ensures Bytes(a + b) == Bytes(a) + Bytes(b)
  {
    if a == [] {
      assert a + b == b;
    } else {
      assert (a + b)[1..] == a[1..] + b;
      WeightsAppend(a[1..], b);
    }
  }

  function Unvisited(f: Frame): seq<Entry> {
    if f.entries.None? || f.index > |f.entries.value| then [] else f.entries.value[f.index..]
  }

  function PendingFiles(frames: seq<Frame>): nat {
    if frames == [] then 0 else PendingFiles(frames[..|frames| - 1]) + Files(Unvisited(frames[|frames| - 1]))
  }

  function PendingBytes(frames: seq<Frame>): nat {
    if frames == [] then 0 else PendingBytes(frames[..|frames| - 1]) + Bytes(Unvisited(frames[|frames| - 1]))
  }

  /** Steps still to make for what is on the stack: visiting an entry, opening and closing a directory. */
  function Work(frames: seq<Frame>): nat {
    if frames == [] then 0
    else
      var f := frames[|frames| - 1];
      Work(frames[..|frames| - 1]) + 3 * |Unvisited(f)| + 1 + (if f.entries.None? then 1 else 0)
  }

  // ---------- what has been copied ----------

  /** The records made so far: those of the finished children of every frame, bottom of the stack first. */
  function Made(frames: seq<Frame>, kids: seq<seq<Child>>): seq<Record>
    requires |frames| == |kids|
  {
    if frames == [] then []
    else
      var n := |frames| - 1;
      Made(frames[..n], kids[..n]) + FlattenAll(frames[n].dir.relative, kids[n])
  }

  // ---------- the stack ----------

  predicate Copyable(kind: Kind) {
    kind.IsRegular? || kind.IsDirectory? || kind.IsSymlink?
  }

  predicate Seen(world: World, e: Entry, from: nat, to: nat) {
    from <= e.at <= to && SeenAt(world, e.info, e.at) && Copyable(e.info.kind)
  }

  /** The entries are exactly those of the listing. */
  ghost predicate Covers(listing: map<string, Inode>, es: seq<Entry>) {
    && (forall e :: e in es ==> e.name in listing && listing[e.name] == e.info.ino)
    && (forall name :: name in listing ==> exists e :: e in es && e.name == name)
  }

  /** What a scan proves, provided the directory stayed as it was until the scan ended. */
  ghost predicate Scanned(world: World, ino: Inode, from: nat, ready: nat, es: seq<Entry>) {
    Steady(world, ino, from, ready) ==> world(from)[ino].Directory? && Covers(world(from)[ino].listing, es)
  }

  predicate SameKind(kind: Kind, size: nat, t: Tree) {
    match t
    case FileNode(_, _, _, bytes) => kind.IsRegular? && |bytes| == size
    case LinkNode(_, _, _, _, _, _, _, _, _) => kind.IsSymlink?
    case DirNode(_, _, _, _, _) => kind.IsDirectory?
  }

  /** A finished child is the subtree its entry led to, unchanged from the scan to the end of its copy, provided the
      directory it was looked up in has not changed either. */
  ghost predicate Finished(world: World, dir: Inode, e: Entry, child: Child, from: nat, now: nat) {
    && child.name == e.name && child.tree.ino == e.info.ino && SameKind(e.info.kind, e.info.size, child.tree)
    && from <= child.tree.from == e.at && child.tree.to <= now
    && SortedThroughout(child.tree) && Spanned(child.tree)
    && (Honest(world) && Steady(world, dir, from, child.tree.to) ==> Faithful(world, child.tree))
  }

  /** A directory that was seen, and what its scan found. */
  ghost predicate EntriesOk(world: World, now: nat, maxDepth: nat, dir: Opened, es: seq<Entry>, ready: nat) {
    && ByName(es) && dir.at <= ready <= now
    && (forall e :: e in es ==> Seen(world, e, dir.at, ready) && (e.info.kind.IsDirectory? ==> dir.depth < maxDepth))
    && Scanned(world, dir.expected.ino, dir.at, ready, es)
  }

  ghost predicate KidsOk(
      world: World, now: nat, dir: Inode, from: nat, ready: nat, es: seq<Entry>, kids: seq<Child>)
  {
    && |kids| <= |es|
    && forall k :: 0 <= k < |kids| ==> Finished(world, dir, es[k], kids[k], from, now) && ready <= kids[k].tree.to
  }

  ghost predicate FrameOk(world: World, now: nat, maxDepth: nat, f: Frame, kids: seq<Child>, busy: bool) {
    && f.dir.expected.kind.IsDirectory? && SeenAt(world, f.dir.expected, f.dir.at) && f.dir.at <= now
    && f.dir.depth + HeightAll(kids) <= maxDepth
    && if f.entries.None? then kids == [] && f.index == 0 && !busy
       else
         && EntriesOk(world, now, maxDepth, f.dir, f.entries.value, f.ready)
         && KidsOk(world, now, f.dir.expected.ino, f.dir.at, f.ready, f.entries.value, kids)
         && |kids| + (if busy then 1 else 0) == f.index <= |f.entries.value|
  }

  /** The frame above is the entry the frame below is visiting. */
  predicate Above(below: Frame, above: Frame) {
    && below.entries.Some? && 0 < below.index <= |below.entries.value|
    && above.dir.depth == below.dir.depth + 1
    && above.dir.relative == below.dir.relative + [above.dir.name]
    && above.dir.destination == below.dir.destination + [above.dir.name]
    && var e := below.entries.value[below.index - 1];
       e.name == above.dir.name && e.info == above.dir.expected && e.at == above.dir.at
  }

  ghost predicate StackOk(world: World, now: nat, maxDepth: nat, frames: seq<Frame>, kids: seq<seq<Child>>) {
    && |frames| == |kids|
    && (forall i :: 0 <= i < |frames| ==> frames[i].dir.depth == i)
    && (forall i :: 0 <= i < |frames| ==> FrameOk(world, now, maxDepth, frames[i], kids[i], i < |frames| - 1))
    && (forall i :: 0 <= i < |frames| - 1 ==> Above(frames[i], frames[i + 1]))
  }

  lemma TimePasses(world: World, now: nat, later: nat, maxDepth: nat, frames: seq<Frame>, kids: seq<seq<Child>>)
    requires StackOk(world, now, maxDepth, frames, kids) && now <= later
    ensures StackOk(world, later, maxDepth, frames, kids)
  {
  }

  lemma {:induction false} HeightAllIsMax(children: seq<Child>, bound: nat)
    requires forall i :: 0 <= i < |children| ==> Height(children[i].tree) <= bound
    ensures HeightAll(children) <= bound
  {
    if children != [] {
      HeightAllIsMax(children[..|children| - 1], bound);
    }
  }

  /** The stack never holds more than `maxDepth + 1` frames. */
  lemma StackIsBounded(world: World, now: nat, maxDepth: nat, frames: seq<Frame>, kids: seq<seq<Child>>)
    requires StackOk(world, now, maxDepth, frames, kids)
    ensures |frames| <= maxDepth + 1
  {
    if frames != [] {
      var n := |frames| - 1;
      assert FrameOk(world, now, maxDepth, frames[n], kids[n], false);
    }
  }

  // ---------- one step ----------

  lemma ScanStep(world: World, now: nat, maxDepth: nat, frames: seq<Frame>, kids: seq<seq<Child>>, es: seq<Entry>)
    requires StackOk(world, now, maxDepth, frames, kids) && frames != []
    requires frames[|frames| - 1].entries.None?
    requires EntriesOk(world, now, maxDepth, frames[|frames| - 1].dir, es, now)
    ensures var n := |frames| - 1; var after := frames[n := frames[n].(entries := Some(es), ready := now)];
      && StackOk(world, now, maxDepth, after, kids) && Made(after, kids) == Made(frames, kids)
      && PendingFiles(after) == PendingFiles(frames) + Files(es)
      && PendingBytes(after) == PendingBytes(frames) + Bytes(es)
      && Work(after) + 1 == Work(frames) + 3 * |es|
  {
    var n := |frames| - 1;
    var after := frames[n := frames[n].(entries := Some(es), ready := now)];
    assert after[..n] == frames[..n];
    assert Unvisited(after[n]) == es;
  }

  /** The frame that takes its next entry. */
  function Advance(frames: seq<Frame>): seq<Frame>
    requires frames != []
  {
    var n := |frames| - 1;
    frames[n := frames[n].(index := frames[n].index + 1)]
  }

  function Current(f: Frame): Entry
    requires f.entries.Some? && f.index < |f.entries.value|
  {
    f.entries.value[f.index]
  }

  lemma AdvanceSums(frames: seq<Frame>)
    requires frames != [] && frames[|frames| - 1].entries.Some?
    requires frames[|frames| - 1].index < |frames[|frames| - 1].entries.value|
    ensures var e := Current(frames[|frames| - 1]); var after := Advance(frames);
      && PendingFiles(after) == PendingFiles(frames) - (if e.info.kind.IsDirectory? then 0 else 1)
      && PendingBytes(after) == PendingBytes(frames) - (if e.info.kind.IsRegular? then e.info.size else 0)
      && Work(after) + 3 == Work(frames)
  {
    var n := |frames| - 1;
    var after := Advance(frames);
    assert after[..n] == frames[..n];
    assert Unvisited(frames[n])[1..] == Unvisited(after[n]);
  }

  lemma ReplaceTop(world: World, now: nat, maxDepth: nat, frames: seq<Frame>, kids: seq<seq<Child>>, top: Frame, done: seq<Child>)
    requires StackOk(world, now, maxDepth, frames, kids) && frames != []
    requires FrameOk(world, now, maxDepth, top, done, false)
    requires top.dir == frames[|frames| - 1].dir
    ensures var n := |frames| - 1; StackOk(world, now, maxDepth, frames[n := top], kids[n := done])
  {
    var n := |frames| - 1;
    if n > 0 {
      assert Above(frames[n - 1], frames[n]);
    }
  }

  lemma LeafFrame(world: World, now: nat, maxDepth: nat, f: Frame, done: seq<Child>, tree: Tree)
    requires FrameOk(world, now, maxDepth, f, done, false) && f.entries.Some? && f.index < |f.entries.value|
    requires !tree.DirNode? && f.ready <= tree.to
    requires Finished(world, f.dir.expected.ino, Current(f), Child(Current(f).name, tree), f.dir.at, now)
    ensures FrameOk(world, now, maxDepth, f.(index := f.index + 1), done + [Child(Current(f).name, tree)], false)
  {
    var more := done + [Child(Current(f).name, tree)];
    assert more[..|done|] == done;
    assert forall k :: 0 <= k < |done| ==> more[k] == done[k];
  }

  lemma TopIsOk(world: World, now: nat, maxDepth: nat, frames: seq<Frame>, kids: seq<seq<Child>>)
    requires StackOk(world, now, maxDepth, frames, kids) && frames != []
    ensures |frames| == |kids| && FrameOk(world, now, maxDepth, frames[|frames| - 1], kids[|frames| - 1], false)
  {
  }

  /** A file or link has been copied. */
  lemma LeafStep(world: World, now: nat, maxDepth: nat, frames: seq<Frame>, kids: seq<seq<Child>>, tree: Tree)
    requires StackOk(world, now, maxDepth, frames, kids) && frames != []
    requires frames[|frames| - 1].entries.Some?
    requires frames[|frames| - 1].index < |frames[|frames| - 1].entries.value|
    requires !tree.DirNode?
    requires var f := frames[|frames| - 1];
      && f.ready <= tree.to
      && Finished(world, f.dir.expected.ino, Current(f), Child(Current(f).name, tree), f.dir.at, now)
    ensures var n := |frames| - 1; var f := frames[n];
      var after := kids[n := kids[n] + [Child(Current(f).name, tree)]];
      && StackOk(world, now, maxDepth, Advance(frames), after)
      && Made(Advance(frames), after) == Made(frames, kids) + [Record(f.dir.relative + [Current(f).name], tree.bytes)]
  {
    hide StackOk, FrameOk, Finished, Made;
    var n := |frames| - 1;
    var f, child := frames[n], Child(Current(frames[n]).name, tree);
    TopIsOk(world, now, maxDepth, frames, kids);
    LeafFrame(world, now, maxDepth, f, kids[n], tree);
    ReplaceTop(world, now, maxDepth, frames, kids, f.(index := f.index + 1), kids[n] + [child]);
    MadeTop(frames, kids, f.(index := f.index + 1), child);
  }

  lemma MadeTop(frames: seq<Frame>, kids: seq<seq<Child>>, top: Frame, child: Child)
    requires |frames| == |kids| && frames != [] && top.dir == frames[|frames| - 1].dir
    ensures var n := |frames| - 1;
      Made(frames[n := top], kids[n := kids[n] + [child]])
      == Made(frames, kids) + Flatten(top.dir.relative + [child.name], child.tree)
  {
    var n := |frames| - 1;
    var frames', kids' := frames[n := top], kids[n := kids[n] + [child]];
    assert frames'[..n] == frames[..n] && kids'[..n] == kids[..n];
    assert kids'[n][..|kids[n]|] == kids[n];
  }

  lemma PushFrames(world: World, now: nat, maxDepth: nat, f: Frame, done: seq<Child>, child: Frame)
    requires FrameOk(world, now, maxDepth, f, done, false) && f.entries.Some? && f.index < |f.entries.value|
    requires Current(f).info.kind.IsDirectory?
    requires Above(f.(index := f.index + 1), child) && child.entries.None? && child.index == 0
    ensures FrameOk(world, now, maxDepth, f.(index := f.index + 1), done, true)
    ensures FrameOk(world, now, maxDepth, child, [], false)
  {
    assert Current(f) in f.entries.value;
  }

  /** A stack whose every frame is waiting for the one above it. */
  ghost predicate Waiting(world: World, now: nat, maxDepth: nat, frames: seq<Frame>, kids: seq<seq<Child>>) {
    && |frames| == |kids|
    && (forall i :: 0 <= i < |frames| ==>
          frames[i].dir.depth == i && FrameOk(world, now, maxDepth, frames[i], kids[i], true))
    && (forall i :: 0 <= i < |frames| - 1 ==> Above(frames[i], frames[i + 1]))
  }

  lemma AdvanceWaits(world: World, now: nat, maxDepth: nat, frames: seq<Frame>, kids: seq<seq<Child>>)
    requires StackOk(world, now, maxDepth, frames, kids) && frames != []
    requires var n := |frames| - 1; FrameOk(world, now, maxDepth, frames[n].(index := frames[n].index + 1), kids[n], true)
    ensures Waiting(world, now, maxDepth, Advance(frames), kids)
  {
    var n := |frames| - 1;
    var front := Advance(frames);
    forall i | 0 <= i < |front|
      ensures front[i].dir.depth == i && FrameOk(world, now, maxDepth, front[i], kids[i], true)
    {
      assert FrameOk(world, now, maxDepth, frames[i], kids[i], i < n);
    }
    if n > 0 {
      assert Above(frames[n - 1], frames[n]);
    }
  }

  lemma AppendTop(world: World, now: nat, maxDepth: nat, frames: seq<Frame>, kids: seq<seq<Child>>, child: Frame)
    requires Waiting(world, now, maxDepth, frames, kids) && frames != []
    requires FrameOk(world, now, maxDepth, child, [], false) && Above(frames[|frames| - 1], child)
    ensures StackOk(world, now, maxDepth, frames + [child], kids + [[]])
  {
  }

  /** A directory is entered. */
  lemma PushStep(world: World, now: nat, maxDepth: nat, frames: seq<Frame>, kids: seq<seq<Child>>, child: Frame)
    requires StackOk(world, now, maxDepth, frames, kids) && frames != []
    requires frames[|frames| - 1].entries.Some?
    requires frames[|frames| - 1].index < |frames[|frames| - 1].entries.value|
    requires Current(frames[|frames| - 1]).info.kind.IsDirectory?
    requires Above(Advance(frames)[|frames| - 1], child) && child.entries.None? && child.index == 0
    ensures StackOk(world, now, maxDepth, Advance(frames) + [child], kids + [[]])
  {
    var n := |frames| - 1;
    hide StackOk, FrameOk;
    TopIsOk(world, now, maxDepth, frames, kids);
    PushFrames(world, now, maxDepth, frames[n], kids[n], child);
    AdvanceWaits(world, now, maxDepth, frames, kids);
    AppendTop(world, now, maxDepth, Advance(frames), kids, child);
  }

  lemma MadePush(frames: seq<Frame>, kids: seq<seq<Child>>, child: Frame)
    requires |frames| == |kids| && frames != []
    ensures Made(Advance(frames) + [child], kids + [[]]) == Made(frames, kids)
  {
    var n := |frames| - 1;
    var front := Advance(frames);
    assert (front + [child])[..n + 1] == front && (kids + [[]])[..n + 1] == kids;
    assert front[..n] == frames[..n];
  }

  lemma PushSums(frames: seq<Frame>, child: Frame)
    requires child.entries.None?
    ensures PendingFiles(frames + [child]) == PendingFiles(frames)
    ensures PendingBytes(frames + [child]) == PendingBytes(frames)
    ensures Work(frames + [child]) == Work(frames) + 2
  {
    assert (frames + [child])[..|frames|] == frames;
  }

  /** The subtree a finished frame has copied. */
  function TreeOf(f: Frame, done: seq<Child>, now: nat): Tree {
    DirNode(f.dir.expected.ino, f.dir.at, f.ready, now, done)
  }

  lemma KidsAreSorted(world: World, now: nat, dir: Inode, from: nat, ready: nat, es: seq<Entry>, done: seq<Child>)
    requires ByName(es) && KidsOk(world, now, dir, from, ready, es, done)
    ensures Sorted(done)
  {
    forall i, j | 0 <= i < j < |done|
      ensures Less(done[i].name, done[j].name)
    {
      assert Finished(world, dir, es[i], done[i], from, now) && Finished(world, dir, es[j], done[j], from, now);
    }
  }

  lemma ListingHeld(world: World, ino: Inode, from: nat, ready: nat, now: nat, es: seq<Entry>, done: seq<Child>)
    requires Scanned(world, ino, from, ready, es) && Steady(world, ino, from, now) && from <= ready <= now
    requires KidsOk(world, now, ino, from, ready, es, done) && |done| == |es|
    ensures forall m: nat :: from <= m <= now ==>
      ino in world(m) && world(m)[ino].Directory? && Lists(world(m)[ino].listing, done)
  {
    assert Steady(world, ino, from, ready);
    forall k | 0 <= k < |done|
      ensures done[k].name == es[k].name && done[k].tree.ino == es[k].info.ino
    {
      assert Finished(world, ino, es[k], done[k], from, now);
    }
    ListsFromCovers(world(from)[ino].listing, es, done);
    forall m: nat | from <= m <= now
      ensures ino in world(m) && world(m)[ino].Directory? && Lists(world(m)[ino].listing, done)
    {
      assert world(m)[ino] == world(from)[ino];
    }
  }

  /** All entries visited and the directory unchanged since its first `stat`: its subtree is known. */
  lemma FrameIsTree(world: World, now: nat, maxDepth: nat, f: Frame, done: seq<Child>)
    requires FrameOk(world, now, maxDepth, f, done, false) && f.entries.Some? && f.index == |f.entries.value|
    requires Honest(world) ==> Steady(world, f.dir.expected.ino, f.dir.at, now)
    ensures Honest(world) ==> Faithful(world, TreeOf(f, done, now))
    ensures SortedThroughout(TreeOf(f, done, now)) && Spanned(TreeOf(f, done, now))
  {
    var es, ino, from := f.entries.value, f.dir.expected.ino, f.dir.at;
    KidsAreSorted(world, now, ino, from, f.ready, es, done);
    forall i | 0 <= i < |done|
      ensures SortedThroughout(done[i].tree) && Spanned(done[i].tree)
      ensures from <= done[i].tree.from <= f.ready <= done[i].tree.to <= now
    {
      assert Finished(world, ino, es[i], done[i], from, now) && Seen(world, es[i], from, f.ready);
    }
    if Honest(world) {
      ListingHeld(world, ino, from, f.ready, now, es, done);
      forall i | 0 <= i < |done|
        ensures from <= done[i].tree.from && done[i].tree.to <= now && Faithful(world, done[i].tree)
      {
        assert Finished(world, ino, es[i], done[i], from, now);
        SteadyPart(world, ino, from, done[i].tree.to, now);
      }
      DirectoryIsFaithful(world, ino, from, f.ready, now, done);
    }
  }

  lemma SteadyPart(world: World, ino: Inode, from: nat, to: nat, now: nat)
    requires Steady(world, ino, from, now) && from <= to <= now
    ensures Steady(world, ino, from, to)
  {
  }

  lemma DirectoryIsFaithful(world: World, ino: Inode, from: nat, ready: nat, now: nat, done: seq<Child>)
    requires from <= now && Sorted(done)
    requires forall m: nat :: from <= m <= now ==>
      ino in world(m) && world(m)[ino].Directory? && Lists(world(m)[ino].listing, done)
    requires forall i :: 0 <= i < |done| ==>
      from <= done[i].tree.from && done[i].tree.to <= now && Faithful(world, done[i].tree)
    ensures Faithful(world, DirNode(ino, from, ready, now, done))
  {
  }

  lemma ListsFromCovers(listing: map<string, Inode>, es: seq<Entry>, done: seq<Child>)
    requires Covers(listing, es) && |done| == |es|
    requires forall k :: 0 <= k < |done| ==> done[k].name == es[k].name && done[k].tree.ino == es[k].info.ino
    ensures Lists(listing, done)
  {
    forall name | name in listing
      ensures exists i :: 0 <= i < |done| && done[i].name == name
    {
      var e :| e in es && e.name == name;
      var i :| 0 <= i < |es| && es[i] == e;
      assert done[i].name == name;
    }
    assert forall k :: 0 <= k < |es| ==> es[k] in es;
  }

  lemma PopFrame(world: World, now: nat, maxDepth: nat, below: Frame, done: seq<Child>, f: Frame, child: Child)
    requires FrameOk(world, now, maxDepth, below, done, true) && Above(below, f)
    requires child.name == f.dir.name && child.tree.DirNode? && child.tree.ino == f.dir.expected.ino
    requires f.dir.expected.kind.IsDirectory?
    requires f.dir.at == child.tree.from && below.ready <= child.tree.to <= now
    requires SortedThroughout(child.tree) && Spanned(child.tree) && (Honest(world) ==> Faithful(world, child.tree))
    requires below.dir.depth + Height(child.tree) <= maxDepth
    ensures FrameOk(world, now, maxDepth, below, done + [child], false)
  {
    var es, more := below.entries.value, done + [child];
    assert more[..|done|] == done;
    var e := es[below.index - 1];
    assert e in es;
    assert Finished(world, below.dir.expected.ino, e, child, below.dir.at, now);
    assert forall k :: 0 <= k < |done| ==> more[k] == done[k];
  }

  lemma DropTop(world: World, now: nat, maxDepth: nat, frames: seq<Frame>, kids: seq<seq<Child>>, done: seq<Child>)
    requires StackOk(world, now, maxDepth, frames, kids) && |frames| > 1
    requires var n := |frames| - 1; FrameOk(world, now, maxDepth, frames[n - 1], done, false)
    ensures var n := |frames| - 1; StackOk(world, now, maxDepth, frames[..n], kids[..n][n - 1 := done])
  {
    var n := |frames| - 1;
    var front, kids' := frames[..n], kids[..n][n - 1 := done];
    forall i | 0 <= i < n
      ensures FrameOk(world, now, maxDepth, front[i], kids'[i], i < n - 1)
    {
      assert front[i] == frames[i];
      if i < n - 1 {
        assert FrameOk(world, now, maxDepth, frames[i], kids[i], i < |frames| - 1);
      }
    }
    forall i | 0 <= i < n - 1
      ensures Above(front[i], front[i + 1])
    {
      assert Above(frames[i], frames[i + 1]);
    }
  }

  lemma MadePop(frames: seq<Frame>, kids: seq<seq<Child>>, tree: Tree)
    requires |frames| == |kids| > 1 && tree.DirNode?
    requires var n := |frames| - 1; tree.children == kids[n] && Above(frames[n - 1], frames[n])
    ensures var n := |frames| - 1;
      Made(frames[..n], kids[..n][n - 1 := kids[n - 1] + [Child(frames[n].dir.name, tree)]]) == Made(frames, kids)
  {
    var n := |frames| - 1;
    var front, child := frames[..n], Child(frames[n].dir.name, tree);
    MadeTop(front, kids[..n], front[n - 1], child);
    assert front[n - 1 := front[n - 1]] == front;
    assert Flatten(frames[n].dir.relative, tree) == FlattenAll(frames[n].dir.relative, kids[n]);
  }

  /** A directory is left: its subtree becomes a child of the frame below. */
  lemma PopStep(world: World, now: nat, maxDepth: nat, frames: seq<Frame>, kids: seq<seq<Child>>)
    requires StackOk(world, now, maxDepth, frames, kids) && |frames| > 1
    requires var f := frames[|frames| - 1]; f.entries.Some? && f.index == |f.entries.value|
    requires var f := frames[|frames| - 1]; Honest(world) ==> Steady(world, f.dir.expected.ino, f.dir.at, now)
    ensures var n := |frames| - 1; var tree := TreeOf(frames[n], kids[n], now);
      var after := kids[..n][n - 1 := kids[n - 1] + [Child(frames[n].dir.name, tree)]];
      StackOk(world, now, maxDepth, frames[..n], after) && Made(frames[..n], after) == Made(frames, kids)
  {
    var n := |frames| - 1;
    var below, f := frames[n - 1], frames[n];
    var tree := TreeOf(f, kids[n], now);
    assert Above(below, f) && FrameOk(world, now, maxDepth, below, kids[n - 1], true);
    assert FrameOk(world, now, maxDepth, f, kids[n], false);
    FrameIsTree(world, now, maxDepth, f, kids[n]);
    PopFrame(world, now, maxDepth, below, kids[n - 1], f, Child(f.dir.name, tree));
    DropTop(world, now, maxDepth, frames, kids, kids[n - 1] + [Child(f.dir.name, tree)]);
    MadePop(frames, kids, tree);
  }

  lemma PopSums(frames: seq<Frame>)
    requires frames != [] && frames[|frames| - 1].entries.Some?
    requires frames[|frames| - 1].index == |frames[|frames| - 1].entries.value|
    ensures var n := |frames| - 1;
      && PendingFiles(frames[..n]) == PendingFiles(frames) && PendingBytes(frames[..n]) == PendingBytes(frames)
      && Work(frames[..n]) < Work(frames)
  {
  }
}
