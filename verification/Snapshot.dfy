/** What a tree copy claims to have read: a tree whose nodes carry the interval they stood unchanged. */
module Snapshot {
  import opened FileWorld
  import opened Lexicographic
  import Links

  datatype Record = Record(path: Path, bytes: Data)

  datatype Child = Child(name: string, tree: Tree)

  /** `from` is the `stat` of a node in the scan of its directory, `ready` the end of a directory's own scan, `to` the last
      check of the node. */
  datatype Tree =
    | FileNode(ino: Inode, from: nat, to: nat, bytes: Data)
    | LinkNode(ino: Inode, from: nat, to: nat, text: seq<string>, parent: Inode, target: string,
               targetIno: Inode, targetFrom: nat, bytes: Data)
    | DirNode(ino: Inode, from: nat, ready: nat, to: nat, children: seq<Child>)

  /** Depth-first records of a tree: the recursive walk the explicit stack has to reproduce. */
  function Flatten(path: Path, t: Tree): (records: seq<Record>)
    decreases t, 0
  {
    match t
    case FileNode(_, _, _, bytes) => [Record(path, bytes)]
    case LinkNode(_, _, _, _, _, _, _, _, bytes) => [Record(path, bytes)]
    case DirNode(_, _, _, _, children) => FlattenAll(path, children)
  }

  function FlattenAll(path: Path, children: seq<Child>): (records: seq<Record>)
    decreases children, 1
  {
    if children == [] then []
    else
      var front, last := children[..|children| - 1], children[|children| - 1];
      FlattenAll(path, front) + Flatten(path + [last.name], last.tree)
  }

  function Height(t: Tree): nat
    decreases t, 0
  {
    if t.DirNode? then 1 + HeightAll(t.children) else 0
  }

  function HeightAll(children: seq<Child>): nat
    decreases children, 1
  {
    if children == [] then 0
    else
      var front, last := children[..|children| - 1], children[|children| - 1];
      if Height(last.tree) > HeightAll(front) then Height(last.tree) else HeightAll(front)
  }

  predicate Sorted(children: seq<Child>) {
    forall i, j :: 0 <= i < j < |children| ==> Less(children[i].name, children[j].name)
  }

  /** The children are exactly the entries of this listing. */
  ghost predicate Lists(listing: map<string, Inode>, children: seq<Child>) {
    && (forall name :: name in listing <==> exists i :: 0 <= i < |children| && children[i].name == name)
    && (forall i :: 0 <= i < |children| ==>
          children[i].name in listing && listing[children[i].name] == children[i].tree.ino)
  }

  /** Every node was what the tree says throughout its interval, and the interval of a directory encloses those of
      all its descendants. */
  ghost predicate Faithful(world: World, t: Tree)
    decreases t
  {
    t.from <= t.to &&
    match t
    case FileNode(ino, from, to, bytes) =>
      forall m: nat :: from <= m <= to ==> ino in world(m) && world(m)[ino].Regular? && world(m)[ino].bytes == bytes
    case LinkNode(ino, from, to, text, parent, target, targetIno, targetFrom, bytes) =>
      && from <= targetFrom <= to
      && (forall m: nat :: from <= m <= to ==> ino in world(m) && world(m)[ino].Symlink? && world(m)[ino].text == text)
      && (forall m: nat :: targetFrom <= m <= to ==>
            && parent in world(m) && world(m)[parent].Directory?
            && target in world(m)[parent].listing && world(m)[parent].listing[target] == targetIno
            && targetIno in world(m) && world(m)[targetIno].Regular? && world(m)[targetIno].bytes == bytes)
    case DirNode(ino, from, _, to, children) =>
      && Sorted(children)
      && (forall m: nat :: from <= m <= to ==>
            ino in world(m) && world(m)[ino].Directory? && Lists(world(m)[ino].listing, children))
      && (forall i :: 0 <= i < |children| ==>
            from <= children[i].tree.from && children[i].tree.to <= to && Faithful(world, children[i].tree))
  }

  /** Whatever the world does, the nodes of a directory were seen before its scan ended and checked afterwards, all within
      its own interval. */
  ghost predicate Spanned(t: Tree)
    decreases t
  {
    && t.from <= t.to
    && (t.LinkNode? ==> t.from <= t.targetFrom <= t.to)
    && (t.DirNode? ==>
          && t.from <= t.ready <= t.to
          && forall i :: 0 <= i < |t.children| ==>
               var c := t.children[i].tree; t.from <= c.from <= t.ready <= c.to <= t.to && Spanned(c))
  }

  /** Every file of the tree is in the destination at its place, and was created and written within the interval in which
      its source is known. */
  ghost predicate CopiedTo(dest: map<Path, Copy>, place: Path, t: Tree)
    decreases t
  {
    match t
    case FileNode(_, from, to, bytes) => place in dest && dest[place].bytes == bytes && Within(dest[place], from, to)
    case LinkNode(_, _, to, _, _, _, _, from, bytes) =>
      place in dest && dest[place].bytes == bytes && Within(dest[place], from, to)
    case DirNode(_, _, _, _, children) =>
      forall i :: 0 <= i < |children| ==> CopiedTo(dest, place + [children[i].name], children[i].tree)
  }

  /** What was copied is not touched again. */
  predicate Kept(before: map<Path, Copy>, after: map<Path, Copy>) {
    forall p :: p in before ==> p in after && after[p] == before[p]
  }

  lemma {:induction false} CopiedIsKept(before: map<Path, Copy>, after: map<Path, Copy>, place: Path, t: Tree)
    requires CopiedTo(before, place, t) && Kept(before, after)
    ensures CopiedTo(after, place, t)
    decreases t
  {
    if t.DirNode? {
      forall i | 0 <= i < |t.children|
        ensures CopiedTo(after, place + [t.children[i].name], t.children[i].tree)
      {
        CopiedIsKept(before, after, place + [t.children[i].name], t.children[i].tree);
      }
    }
  }

  function Size(records: seq<Record>): nat {
    if records == [] then 0 else Size(records[..|records| - 1]) + |records[|records| - 1].bytes|
  }

  // ---------- what the records of a tree are ----------

  lemma {:induction false} PathsExtend(path: Path, t: Tree)
    ensures forall r :: r in Flatten(path, t) ==> path <= r.path
    ensures !t.DirNode? ==> forall r :: r in Flatten(path, t) ==> r.path == path
    decreases t, 0
  {
    if t.DirNode? {
      PathsExtendAll(path, t.children);
    }
  }

  lemma {:induction false} PathsExtendAll(path: Path, children: seq<Child>)
    ensures forall r :: r in FlattenAll(path, children) ==>
      exists i :: 0 <= i < |children| && path + [children[i].name] <= r.path
    decreases children, 1
  {
    if children != [] {
      var front, last := children[..|children| - 1], children[|children| - 1];
      PathsExtendAll(path, front);
      PathsExtend(path + [last.name], last.tree);
      forall r | r in FlattenAll(path, children)
        ensures exists i :: 0 <= i < |children| && path + [children[i].name] <= r.path
      {
        if r in FlattenAll(path, front) {
          var i :| 0 <= i < |front| && path + [front[i].name] <= r.path;
          assert children[i] == front[i];
        } else {
          assert path + [children[|children| - 1].name] <= r.path;
        }
      }
    }
  }

  // ---------- a tree's records name each file once ----------

  predicate SortedThroughout(t: Tree)
    decreases t
  {
    t.DirNode? ==> Sorted(t.children) && forall i :: 0 <= i < |t.children| ==> SortedThroughout(t.children[i].tree)
  }

  predicate DistinctPaths(records: seq<Record>) {
    forall i, j :: 0 <= i < j < |records| ==> records[i].path != records[j].path
  }

  /** Every non-directory entry of a tree has one record, at its own path. */
  lemma {:induction false} EachFileOnce(path: Path, t: Tree)
    requires SortedThroughout(t)
    ensures DistinctPaths(Flatten(path, t))
    decreases t, 0
  {
    if t.DirNode? {
      EachFileOnceAmong(path, t.children);
    }
  }

  lemma {:induction false} EachFileOnceAmong(path: Path, children: seq<Child>)
    requires Sorted(children) && forall i :: 0 <= i < |children| ==> SortedThroughout(children[i].tree)
    ensures DistinctPaths(FlattenAll(path, children))
    decreases children, 1
  {
    if children != [] {
      var front, last := children[..|children| - 1], children[|children| - 1];
      var a, b := FlattenAll(path, front), Flatten(path + [last.name], last.tree);
      EachFileOnceAmong(path, front);
      EachFileOnce(path + [last.name], last.tree);
      PathsExtendAll(path, front);
      PathsExtend(path + [last.name], last.tree);
      forall x, y | x in a && y in b
        ensures x.path != y.path
      {
        var i :| 0 <= i < |front| && path + [front[i].name] <= x.path;
        LessIsIrreflexive(last.name);
        assert Less(children[i].name, children[|children| - 1].name);
        assert x.path[|path|] == front[i].name && y.path[|path|] == last.name;
      }
    }
  }

  lemma {:induction false} FaithfulIsSorted(world: World, t: Tree)
    requires Faithful(world, t)
    ensures SortedThroughout(t)
    decreases t
  {
    if t.DirNode? {
      forall i | 0 <= i < |t.children|
        ensures SortedThroughout(t.children[i].tree)
      {
        FaithfulIsSorted(world, t.children[i].tree);
      }
    }
  }

  // ---------- on a quiet file system there is only one answer ----------

  /** Every link below this path was followed where its text leads. */
  ghost predicate Resolved(world: World, resolve: Resolver, path: Path, t: Tree)
    decreases t
  {
    match t
    case FileNode(_, _, _, _) => true
    case LinkNode(_, from, to, text, parent, target, _, _, _) =>
      path != [] && Links.Follows(world, resolve, path[..|path| - 1], text, parent, target, from, to)
    case DirNode(_, _, _, _, children) =>
      forall i :: 0 <= i < |children| ==> Resolved(world, resolve, path + [children[i].name], children[i].tree)
  }

  /** Every link below this path has an allowed text that leads into one of the approved roots. */
  predicate Confined(roots: seq<Path>, path: Path, t: Tree)
    decreases t
  {
    match t
    case FileNode(_, _, _, _) => true
    case LinkNode(_, _, _, text, _, _, _, _, _) => path != [] && Links.Approved(roots, path[..|path| - 1], text)
    case DirNode(_, _, _, _, children) =>
      forall i :: 0 <= i < |children| ==> Confined(roots, path + [children[i].name], children[i].tree)
  }

  predicate HasLink(t: Tree)
    decreases t
  {
    t.LinkNode? || (t.DirNode? && exists i :: 0 <= i < |t.children| && HasLink(t.children[i].tree))
  }

  /** Without approved roots there is no link at all. */
  lemma {:induction false} NoRootsNoLinks(path: Path, t: Tree)
    requires Confined([], path, t)
    ensures !HasLink(t)
    decreases t
  {
    if t.DirNode? {
      forall i | 0 <= i < |t.children|
        ensures !HasLink(t.children[i].tree)
      {
        NoRootsNoLinks(path + [t.children[i].name], t.children[i].tree);
      }
    }
  }

  /** If nothing changes, any two faithful copies of one directory have the same records. */
  lemma {:induction false} QuietWorldFixesRecords(
      world: World, resolve: Resolver, source: Path, path: Path, s: Tree, t: Tree)
    requires Quiet(world) && s.ino == t.ino
    requires Faithful(world, s) && Faithful(world, t)
    requires Resolved(world, resolve, source, s) && Resolved(world, resolve, source, t)
    ensures Flatten(path, s) == Flatten(path, t)
    decreases s, 0
  {
    assert s.ino in world(s.from) && s.ino in world(t.from) && world(s.from) == world(t.from);
    if s.DirNode? {
      var listing := world(s.from)[s.ino].listing;
      ListsTheSame(listing, s.children, t.children);
      forall i | 0 <= i < |s.children|
        ensures Flatten(path + [s.children[i].name], s.children[i].tree) == Flatten(path + [t.children[i].name], t.children[i].tree)
      {
        QuietWorldFixesRecords(world, resolve, source + [s.children[i].name], path + [s.children[i].name],
                               s.children[i].tree, t.children[i].tree);
      }
      FlattenPointwise(path, s.children, t.children);
    } else if s.LinkNode? {
      QuietLinks(world, resolve, source, s, t);
    }
  }

  /** When the copy ended, the path led to the directory that was copied. */
  predicate Leads(world: World, resolve: Resolver, source: Path, t: Tree) {
    resolve(world(t.to), source) == Some(t.ino)
  }

  /** If nothing changes, any two copies of one path have the same records. */
  lemma QuietCopiesAgree(world: World, resolve: Resolver, source: Path, path: Path, s: Tree, t: Tree)
    requires Quiet(world) && Leads(world, resolve, source, s) && Leads(world, resolve, source, t)
    requires Faithful(world, s) && Faithful(world, t)
    requires Resolved(world, resolve, source, s) && Resolved(world, resolve, source, t)
    ensures Flatten(path, s) == Flatten(path, t)
  {
    assert world(s.to) == world(0) == world(t.to);
    QuietWorldFixesRecords(world, resolve, source, path, s, t);
  }

  lemma QuietLinks(world: World, resolve: Resolver, source: Path, s: Tree, t: Tree)
    requires Quiet(world) && s.ino == t.ino && s.LinkNode?
    requires Faithful(world, s) && Faithful(world, t)
    requires Resolved(world, resolve, source, s) && Resolved(world, resolve, source, t)
    ensures t.LinkNode? && s.bytes == t.bytes
  {
    var fs := world(0);
    assert world(s.from) == fs && world(t.from) == fs && world(s.targetFrom) == fs;
    assert fs[s.ino].Symlink? && t.LinkNode? && s.text == t.text;
    var p := Links.Joined(source[..|source| - 1], s.text);
    var x: nat :| s.from <= x <= s.to && resolve(world(x), p[..|p| - 1]) == Some(s.parent);
    var y: nat :| t.from <= y <= t.to && resolve(world(y), p[..|p| - 1]) == Some(t.parent);
    assert world(x) == fs && world(y) == fs && world(t.targetFrom) == fs;
  }

  lemma {:induction false} FlattenPointwise(path: Path, a: seq<Child>, b: seq<Child>)
    requires |a| == |b|
    requires forall i :: 0 <= i < |a| ==>
      a[i].name == b[i].name && Flatten(path + [a[i].name], a[i].tree) == Flatten(path + [b[i].name], b[i].tree)
    ensures FlattenAll(path, a) == FlattenAll(path, b)
  {
    if a != [] {
      FlattenPointwise(path, a[..|a| - 1], b[..|b| - 1]);
    }
  }

  /** Sorted children of one listing are the same entries in the same order. */
  lemma {:induction false} ListsTheSame(listing: map<string, Inode>, a: seq<Child>, b: seq<Child>)
    requires Lists(listing, a) && Lists(listing, b) && Sorted(a) && Sorted(b)
    ensures |a| == |b| && forall i :: 0 <= i < |a| ==> a[i].name == b[i].name && a[i].tree.ino == b[i].tree.ino
    decreases |a|
  {
    hide Lists, Sorted;
    if a == [] || b == [] {
      NothingListed(listing, a, b);
    } else {
      var m, n := |a| - 1, |b| - 1;
      LastName(listing, a, b);
      DropLast(listing, a);
      DropLast(listing, b);
      ListsTheSame(listing - {a[m].name}, a[..m], b[..n]);
      assert listing[a[m].name] == a[m].tree.ino && listing[b[n].name] == b[n].tree.ino by {
        ListsIt(listing, a, m);
        ListsIt(listing, b, n);
      }
    }
  }

  lemma NothingListed(listing: map<string, Inode>, a: seq<Child>, b: seq<Child>)
    requires Lists(listing, a) && Lists(listing, b) && (a == [] || b == [])
    ensures a == [] && b == []
  {
    EmptyListing(listing, a);
    EmptyListing(listing, b);
  }

  lemma EmptyListing(listing: map<string, Inode>, a: seq<Child>)
    requires Lists(listing, a)
    ensures a == [] <==> listing == map[]
  {
    if a == [] {
      assert forall name :: name !in listing;
    } else {
      assert a[0].name in listing;
    }
  }

  lemma ListsIt(listing: map<string, Inode>, a: seq<Child>, i: nat)
    requires Lists(listing, a) && i < |a|
    ensures a[i].name in listing && listing[a[i].name] == a[i].tree.ino
  {
  }

  lemma LastName(listing: map<string, Inode>, a: seq<Child>, b: seq<Child>)
    requires Lists(listing, a) && Lists(listing, b) && Sorted(a) && Sorted(b) && a != [] && b != []
    ensures a[|a| - 1].name == b[|b| - 1].name
  {
    var x, y := a[|a| - 1].name, b[|b| - 1].name;
    assert x in listing && y in listing;
    var i :| 0 <= i < |a| && a[i].name == y;
    var j :| 0 <= j < |b| && b[j].name == x;
    if x != y {
      assert Less(y, x) && Less(x, y);
      LessIsTransitive(x, y, x);
      LessIsIrreflexive(x);
    }
  }

  lemma DropLast(listing: map<string, Inode>, a: seq<Child>)
    requires Lists(listing, a) && Sorted(a) && a != []
    ensures Lists(listing - {a[|a| - 1].name}, a[..|a| - 1]) && Sorted(a[..|a| - 1])
  {
    hide Less;
    var m := |a| - 1;
    LessIsIrreflexive(a[m].name);
    forall i | 0 <= i < m
      ensures a[i].name != a[m].name
    {
      assert Less(a[i].name, a[m].name);
    }
    forall name | name in listing - {a[m].name}
      ensures exists i :: 0 <= i < m && a[..m][i].name == name
    {
      var i :| 0 <= i < |a| && a[i].name == name;
      assert a[..m][i].name == name;
    }
  }
}
