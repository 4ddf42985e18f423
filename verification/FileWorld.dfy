/** A file system that other processes keep changing, seen through `stat` results. */
module FileWorld {

  type Inode = nat
  type Data = seq<nat>
  type Path = seq<string>

  /** `stamp` stands for the modification and change times. A link text is kept split at its slashes. */
  datatype Object =
    | Regular(bytes: Data, stamp: nat)
    | Directory(listing: map<string, Inode>, stamp: nat)
    | Symlink(text: seq<string>, stamp: nat)
    | Special(stamp: nat)

  type Fs = map<Inode, Object>

  datatype Option<+T> = None | Some(value: T)

  /** Which inode an absolute path leads to in a file system: whatever the kernel makes of it. */
  type Resolver = (Fs, Path) -> Option<Inode>

  /** The file system at every moment: any function of time. */
  type World = nat -> Fs

  datatype Kind = IsRegular | IsDirectory | IsSymlink | IsSpecial

  datatype Stat = Stat(kind: Kind, ino: Inode, size: nat, stamp: nat)

  /** A file of the private destination, with the times of its creation and of its last write. */
  datatype Copy = Copy(bytes: Data, created: nat, written: nat)

  predicate Within(c: Copy, from: nat, to: nat) {
    from <= c.created <= c.written <= to
  }

  function KindOf(o: Object): Kind {
    match o
    case Regular(_, _) => IsRegular
    case Directory(_, _) => IsDirectory
    case Symlink(_, _) => IsSymlink
    case Special(_) => IsSpecial
  }

  /** An inode that is gone reads as one no check accepts. */
  function StatOf(fs: Fs, ino: Inode): Stat {
    if ino !in fs then Stat(IsSpecial, ino, 0, 0)
    else Stat(KindOf(fs[ino]), ino, if fs[ino].Regular? then |fs[ino].bytes| else 0, fs[ino].stamp)
  }

  /** `_matches_identity`: a directory must also carry the same times. */
  predicate MatchesIdentity(info: Stat, expected: Stat, directory: bool) {
    && info.kind == (if directory then IsDirectory else IsRegular)
    && info.ino == expected.ino
    && (directory ==> info.stamp == expected.stamp)
  }

  predicate MatchesStableFile(info: Stat, expected: Stat) {
    MatchesIdentity(info, expected, false) && info.size == expected.size && info.stamp == expected.stamp
  }

  predicate MatchesStableSymlink(info: Stat, expected: Stat) {
    info.kind == IsSymlink && info.ino == expected.ino && info.size == expected.size && info.stamp == expected.stamp
  }

  /** `info` was this inode's stat at moment `at`. */
  predicate SeenAt(world: World, info: Stat, at: nat) {
    info.kind != IsSpecial && info == StatOf(world(at), info.ino)
  }

  /** The inode is the same object throughout. */
  ghost predicate Steady(world: World, ino: Inode, from: nat, to: nat) {
    from <= to && ino in world(from) && forall t: nat :: from <= t <= to ==> ino in world(t) && world(t)[ino] == world(from)[ino]
  }

  ghost predicate Quiet(world: World) {
    forall m: nat :: world(m) == world(0)
  }

  /** Going down a path from a directory, component by component, without following links. */
  function Walk(fs: Fs, from: Inode, path: Path): Option<Inode> {
    if path == [] then if from in fs && fs[from].Directory? then Some(from) else None
    else
      var n := |path| - 1;
      var d := Walk(fs, from, path[..n]);
      if d.None? || d.value !in fs || !fs[d.value].Directory? || path[n] !in fs[d.value].listing then None
      else
        var ino := fs[d.value].listing[path[n]];
        if ino in fs && fs[ino].Directory? then Some(ino) else None
  }

  /** The path leads to a directory without any link on its way. */
  predicate Opens(fs: Fs, root: Inode, resolve: Resolver, path: Path) {
    Walk(fs, root, path).Some? && resolve(fs, path) == Walk(fs, root, path)
  }

  /** Every component of a path that opens is a directory of the one before. */
  lemma {:induction false} WalkOn(fs: Fs, root: Inode, path: Path, i: nat)
    requires Walk(fs, root, path).Some? && i < |path|
    ensures Walk(fs, root, path[..i]).Some?
    ensures var d := Walk(fs, root, path[..i]).value;
      && d in fs && fs[d].Directory? && path[i] in fs[d].listing
      && Walk(fs, root, path[..i + 1]) == Some(fs[d].listing[path[i]])
      && fs[d].listing[path[i]] in fs && fs[fs[d].listing[path[i]]].Directory?
    decreases |path|
  {
    var n := |path| - 1;
    assert path[..n + 1] == path;
    if i < n {
      WalkOn(fs, root, path[..n], i);
      assert path[..n][..i] == path[..i] && path[..n][..i + 1] == path[..i + 1];
    }
    WalkEnds(fs, root, path[..i]);
  }

  lemma WalkEnds(fs: Fs, root: Inode, path: Path)
    ensures var d := Walk(fs, root, path); d.Some? ==> d.value in fs && fs[d.value].Directory?
  {
  }

  lemma {:induction false} WalkStarts(fs: Fs, root: Inode, path: Path)
    requires Walk(fs, root, path).Some?
    ensures Walk(fs, root, []) == Some(root)
  {
    if path != [] {
      WalkStarts(fs, root, path[..|path| - 1]);
    }
  }

  lemma QuietIsSteady(world: World, ino: Inode, from: nat, to: nat)
    requires Quiet(world) && ino in world(from) && from <= to
    ensures Steady(world, ino, from, to)
  {
    assert world(from) == world(0);
  }

  /** These inodes are regular files, and directories of nothing but such. */
  predicate Ordinary(fs: Fs, tree: set<Inode>) {
    forall ino :: ino in tree ==>
      && ino in fs
      && (fs[ino].Regular? || (fs[ino].Directory? && forall name :: name in fs[ino].listing ==> fs[ino].listing[name] in tree))
  }

  /** Every mutation leaves a stamp the inode never had before. */
  ghost predicate Honest(world: World) {
    forall ino: Inode, s: nat, u: nat ::
      s <= u && ino in world(s) && ino in world(u) && world(s)[ino].stamp == world(u)[ino].stamp
      ==> Steady(world, ino, s, u)
  }

  /** Equal stamps at two moments freeze everything between them. */
  lemma StampFreezes(world: World, first: Stat, at: nat, second: Stat, later: nat)
    requires Honest(world) && at <= later
    requires SeenAt(world, first, at) && SeenAt(world, second, later)
    requires first.ino == second.ino && first.stamp == second.stamp
    ensures Steady(world, first.ino, at, later)
  {
  }
}
