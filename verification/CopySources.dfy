/** The sources of one backup: two files and two trees, under one budget. */
module CopySources {
  import opened FileWorld
  import opened Snapshot
  import opened CopyHost
  import opened TreeCopy
  import opened TreeWalk

  datatype Sources = Sources(
    environmentDirectory: Path,
    environmentName: string,
    unitDirectory: Path,
    unitName: string,
    nginx: Path,
    frontend: Path,
    nginxModules: Path)

  /** The name led to the inode in this directory at this moment. */
  ghost predicate NamedIn(world: World, dir: Inode, name: string, ino: Inode, at: nat) {
    && dir in world(at) && world(at)[dir].Directory?
    && name in world(at)[dir].listing && world(at)[dir].listing[name] == ino
  }

  /** The copied inode had this name when the copy saw it and when it was checked, in the directory the parent's path led to
      at the last moment of the copy; that directory did not change in between. */
  ghost predicate Sourced(
      world: World, resolve: Resolver, parent: Path, dir: Inode, name: string, t: Tree, last: nat)
  {
    && t.to <= last && resolve(world(last), parent) == Some(dir)
    && NamedIn(world, dir, name, t.ino, t.from) && NamedIn(world, dir, name, t.ino, t.to)
    && (Honest(world) ==> Steady(world, dir, t.from, last))
  }

  /** A copy of one file, made from one moment to another. */
  ghost predicate FileCopied(host: Host, dest: map<Path, Copy>, parent: Path, name: string, destination: Path, t: Tree,
                             from: nat, to: nat)
  {
    && t.FileNode? && from <= t.from <= t.to && CopiedTo(dest, destination, t)
    && (exists dir, last: nat :: last <= to && Sourced(host.world, host.resolve, parent, dir, name, t, last))
    && (Honest(host.world) ==> Faithful(host.world, t))
  }

  /** A copy of one tree, made from one moment to another. */
  ghost predicate TreeCopied(host: Host, dest: map<Path, Copy>, source: Path, destination: Path, roots: seq<Path>, t: Tree,
                             from: nat, to: nat)
  {
    && t.DirNode? && from <= t.from && t.to <= to && Spanned(t) && SortedThroughout(t) && CopiedTo(dest, destination, t)
    && Leads(host.world, host.resolve, source, t) && Resolved(host.world, host.resolve, source, t)
    && Confined(roots, source, t)
    && (Honest(host.world) ==> Faithful(host.world, t))
  }

  /** Later, and with more copied. */
  lemma FileStaysCopied(host: Host, before: map<Path, Copy>, dest: map<Path, Copy>, parent: Path, name: string,
                        destination: Path, t: Tree, from: nat, to: nat, earlier: nat, later: nat)
    requires FileCopied(host, before, parent, name, destination, t, from, to) && Kept(before, dest)
    requires earlier <= from && to <= later
    ensures FileCopied(host, dest, parent, name, destination, t, earlier, later)
  {
    hide Sourced, Faithful, Honest;
    CopiedIsKept(before, dest, destination, t);
  }

  lemma TreeStaysCopied(host: Host, before: map<Path, Copy>, dest: map<Path, Copy>, source: Path, destination: Path,
                        roots: seq<Path>, t: Tree, from: nat, to: nat, earlier: nat, later: nat)
    requires TreeCopied(host, before, source, destination, roots, t, from, to) && Kept(before, dest)
    requires earlier <= from && to <= later
    ensures TreeCopied(host, dest, source, destination, roots, t, earlier, later)
  {
    hide Resolved, Faithful, Honest;
    CopiedIsKept(before, dest, destination, t);
  }

  /** Where links of the nginx configuration may lead. */
  function NginxRoots(sources: Sources): seq<Path> {
    [sources.nginx, sources.nginxModules]
  }

  /** The parent's path opens, and has a regular file of this name. */
  ghost predicate FileIsThere(host: Host, parent: Path, name: string) {
    var fs := host.world(0);
    && Opens(fs, host.root, host.resolve, parent)
    && IsFile(fs, Walk(fs, host.root, parent).value, name)
  }

  predicate IsFile(fs: Fs, dir: Inode, name: string) {
    && dir in fs && fs[dir].Directory? && name in fs[dir].listing
    && fs[dir].listing[name] in fs && fs[fs[dir].listing[name]].Regular?
  }

  /** `_copy_posix_file`: the file under this name, held from the moment it was seen to its last check. */
  method CopyFile(host: Host, budget: Budget, parent: Path, name: string, destination: Path, relative: Path)
    returns (r: Result<Record>, ghost tree: Tree)
    requires host.Valid() && Charged(budget) && host.written <= budget.totalBytes
    modifies host, budget
    ensures host.Valid() && host.open == old(host.open) && host.written <= budget.maxTotalBytes
    ensures r.Success? ==> Charged(budget) && budget.files == old(budget.files) + 1
    ensures r.Success? ==> budget.totalBytes == old(budget.totalBytes) + |r.value.bytes|
    ensures r.Success? ==> host.written == old(host.written) + |r.value.bytes|
    ensures r.Success? ==> tree.FileNode? && r.value == Record(relative, tree.bytes) && old(host.now) <= host.now
    ensures r.Success? ==> FileCopied(host, host.dest, parent, name, destination, tree, old(host.now), host.now)
    ensures Kept(old(host.dest), host.dest) && host.dest.Keys <= old(host.dest).Keys + {destination}
    ensures Calm(host, budget) && FileIsThere(host, parent, name) && destination !in old(host.dest) ==> OnlyOver(r, budget)
  {
    hide Faithful, Walk, Quiet, CopiedTo, Sourced, Steady, Honest, StatOf, NamedIn;
    tree := FileNode(0, 0, 0, []);
    var parentFd, parentInfo, parentSeen := OpenAbsoluteDirectory(host, budget, parent);
    if parentFd.Failure? {
      return Failure(parentFd.error), tree;
    }
    var data: Result<Data>;
    ghost var there := Calm(host, budget) && FileIsThere(host, parent, name);
    if there {
      OpensAtAnyTime(host.world, host.root, host.resolve, parent, host.now);
    }
    data, tree := CopyFileAt(host, budget, parentFd.value, name, destination);
    if data.Success? {
      var linked := host.Lstat(parent);
      if there {
        OpensAtAnyTime(host.world, host.root, host.resolve, parent, host.now);
        QuietStat(host.world, parentInfo, parentSeen, host.now);
      }
      if linked.None? || !MatchesIdentity(linked.value, parentInfo, true) {
        data := Failure(if linked.None? then SourceInvalid else SourceChanged);
      } else {
        ParentStood(host.world, host.resolve, parent, parentInfo, parentSeen, linked.value, name, tree, host.now);
      }
    }
    host.Close(parentFd.value);
    assert host.open == old(host.open);
    r := if data.Success? then Success(Record(relative, data.value)) else Failure(data.error);
  }

  lemma ParentStood(world: World, resolve: Resolver, parent: Path, info: Stat, seen: nat, after: Stat, name: string, t: Tree,
                    last: nat)
    requires SeenAt(world, info, seen) && SeenAt(world, after, last) && MatchesIdentity(after, info, true)
    requires resolve(world(last), parent) == Some(after.ino) && seen <= t.from <= t.to <= last
    requires NamedIn(world, info.ino, name, t.ino, t.from) && NamedIn(world, info.ino, name, t.ino, t.to)
    ensures Sourced(world, resolve, parent, info.ino, name, t, last)
  {
    if Honest(world) {
      StampFreezes(world, info, seen, after, last);
      assert world(t.from)[info.ino] == world(seen)[info.ino];
    }
  }

  method CopyFileAt(host: Host, budget: Budget, parentFd: nat, name: string, destination: Path)
    returns (r: Result<Data>, ghost tree: Tree)
    requires host.Valid() && parentFd in host.open && host.open[parentFd].Source?
    requires Charged(budget) && host.written <= budget.totalBytes
    modifies host, budget
    ensures host.Valid() && host.open == old(host.open) && host.written <= budget.maxTotalBytes
    ensures r.Success? ==> Charged(budget) && budget.files == old(budget.files) + 1
    ensures r.Success? ==> budget.totalBytes == old(budget.totalBytes) + |r.value|
    ensures r.Success? ==> host.written == old(host.written) + |r.value|
    ensures r.Success? ==> tree.FileNode? && tree.bytes == r.value && CopiedTo(host.dest, destination, tree)
    ensures r.Success? ==> var dir := old(host.open)[parentFd].ino;
      && old(host.now) <= tree.from <= tree.to <= host.now
      && NamedIn(host.world, dir, name, tree.ino, tree.from) && NamedIn(host.world, dir, name, tree.ino, tree.to)
    ensures r.Success? && Honest(host.world) ==> Faithful(host.world, tree)
    ensures Kept(old(host.dest), host.dest) && host.dest.Keys <= old(host.dest).Keys + {destination}
    ensures Calm(host, budget) && IsFile(host.world(0), old(host.open)[parentFd].ino, name) ==>
      (destination !in old(host.dest) ==> OnlyOver(r, budget))
  {
    tree := FileNode(0, 0, 0, []);
    var info := host.StatAt(parentFd, name);
    if info.None? || !info.value.kind.IsRegular? {
      return Failure(SourceInvalid), tree;
    }
    ghost var seen := host.now;
    assert Quiet(host.world) ==> host.world(seen) == host.world(0);
    var error := budget.AddFile(info.value.size, false);
    if error.Some? {
      return Failure(error.value), tree;
    }
    r, tree := CopyNamed(host, budget, parentFd, name, destination, info.value, seen);
  }

  /** The part of it after the charge. */
  method CopyNamed(host: Host, budget: Budget, parentFd: nat, name: string, destination: Path, expected: Stat,
                   ghost seen: nat)
    returns (r: Result<Data>, ghost tree: Tree)
    requires host.Valid() && parentFd in host.open && host.open[parentFd].Source?
    requires expected.kind.IsRegular? && SeenAt(host.world, expected, seen) && seen <= host.now
    requires Room(host.written, expected.size, budget.totalBytes, budget.maxTotalBytes)
    modifies host
    ensures host.Valid() && host.open == old(host.open) && host.written <= budget.maxTotalBytes
    ensures r.Success? ==> |r.value| == expected.size && host.written == old(host.written) + |r.value|
    ensures r.Success? ==> tree == FileNode(expected.ino, seen, tree.to, r.value) && CopiedTo(host.dest, destination, tree)
    ensures r.Success? ==> old(host.now) <= tree.to <= host.now
    ensures r.Success? ==> NamedIn(host.world, old(host.open)[parentFd].ino, name, expected.ino, tree.to)
    ensures r.Success? && Honest(host.world) ==> Faithful(host.world, tree)
    ensures Kept(old(host.dest), host.dest) && host.dest.Keys <= old(host.dest).Keys + {destination}
    ensures Calm(host, budget) && Listed(host.world(0), old(host.open)[parentFd].ino, name, expected.ino) ==>
      (expected.size <= budget.maxFileBytes && destination !in old(host.dest) ==> r.Success?)
  {
    tree := FileNode(0, 0, 0, []);
    var source := host.OpenAt(parentFd, name, false);
    if source.None? {
      return Failure(SourceInvalid), tree;
    }
    r := CopyDescriptor(host, budget, source.value, destination, expected, seen);
    if r.Success? {
      var linked := host.StatAt(parentFd, name);
      if linked.None? || !MatchesStableFile(linked.value, expected) {
        r := Failure(if linked.None? then SourceInvalid else SourceChanged);
      } else {
        tree := FileNode(expected.ino, seen, host.now, r.value);
        if Honest(host.world) {
          StampFreezes(host.world, expected, seen, linked.value, host.now);
          HeldFromSteady(host.world, expected.ino, seen, host.now, r.value);
        }
      }
    }
    host.Close(source.value);
    assert host.open == old(host.open);
  }

  lemma {:induction false} SizeAppend(a: seq<Record>, b: seq<Record>)
    ensures Size(a + b) == Size(a) + Size(b)
  {
    if b == [] {
      assert a + b == a;
    } else {
      assert (a + b)[..|a + b| - 1] == a + b[..|b| - 1];
      SizeAppend(a, b[..|b| - 1]);
    }
  }

  lemma SizesAdd(env: Record, unit_: Record, a: seq<Record>, b: seq<Record>)
    ensures Size([env, unit_] + (a + b)) == |env.bytes| + |unit_.bytes| + Size(a) + Size(b)
  {
    SizeAppend([env], [unit_]);
    assert [env] + [unit_] == [env, unit_] && [] + [env] == [env] && [] + [unit_] == [unit_];
    SizeOfOneMore([], env);
    SizeOfOneMore([], unit_);
    SizeAppend([env, unit_], a + b);
    SizeAppend(a, b);
  }

  lemma BelowTop(top: string, t: Tree)
    requires t.DirNode?
    ensures forall r :: r in Flatten([top], t) ==> |r.path| >= 2 && r.path[0] == top
  {
    PathsExtendAll([top], t.children);
  }

  lemma DistinctTogether(a: seq<Record>, b: seq<Record>)
    requires DistinctPaths(a) && DistinctPaths(b) && forall x, y :: x in a && y in b ==> x.path != y.path
    ensures DistinctPaths(a + b)
  {
  }

  /** The four sources go to four places. */
  lemma SourcesAreDistinct(env: Record, unit_: Record, nginx: Tree, frontend: Tree)
    requires |env.path| == |unit_.path| == 2 && env.path[0] == "environment" && unit_.path[0] == "systemd"
    requires nginx.DirNode? && DistinctPaths(Flatten(["nginx"], nginx))
    requires frontend.DirNode? && DistinctPaths(Flatten(["frontend"], frontend))
    ensures var all := [env, unit_] + (Flatten(["nginx"], nginx) + Flatten(["frontend"], frontend));
      DistinctPaths(all) && forall x :: x in all ==> |x.path| >= 2
  {
    hide Flatten, DistinctPaths;
    BelowTop("nginx", nginx);
    BelowTop("frontend", frontend);
    DistinctTogether(Flatten(["nginx"], nginx), Flatten(["frontend"], frontend));
    assert DistinctPaths([env, unit_]) by {
      assert env.path[0] != unit_.path[0];
      TwoAreDistinct(env, unit_);
    }
    DistinctTogether([env, unit_], Flatten(["nginx"], nginx) + Flatten(["frontend"], frontend));
  }

  lemma TwoAreDistinct(a: Record, b: Record)
    requires a.path != b.path
    ensures DistinctPaths([a, b])
  {
  }

  /** What was copied of the four sources. */
  datatype Copies = Copies(environment: Tree, unit_: Tree, nginx: Tree, frontend: Tree)

  const NOTHING := FileNode(0, 0, 0, [])

  /** All four were copied from their sources, one after another, between the two moments, and are in the destination. */
  ghost predicate AllCopied(
      host: Host, dest: map<Path, Copy>, sources: Sources, partial: Path, c: Copies, from: nat, to: nat)
  {
    && FileCopied(host, dest, sources.environmentDirectory, sources.environmentName, partial + ["environment", ".env"],
                  c.environment, from, to)
    && FileCopied(host, dest, sources.unitDirectory, sources.unitName, partial + ["systemd", sources.unitName],
                  c.unit_, from, to)
    && TreeCopied(host, dest, sources.nginx, partial + ["nginx"], NginxRoots(sources), c.nginx, from, to)
    && TreeCopied(host, dest, sources.frontend, partial + ["frontend"], [], c.frontend, from, to)
  }

  /** The records of the four sources. */
  function RecordsOf(c: Copies, unitName: string): seq<Record>
    requires c.environment.FileNode? && c.unit_.FileNode?
  {
    [Record(["environment", ".env"], c.environment.bytes), Record(["systemd", unitName], c.unit_.bytes)]
    + (Flatten(["nginx"], c.nginx) + Flatten(["frontend"], c.frontend))
  }

  /** The two files. */
  method CopyFiles(host: Host, budget: Budget, sources: Sources, partial: Path)
    returns (r: Result<seq<Record>>, ghost environment: Tree, ghost unit_: Tree)
    requires host.Valid() && Charged(budget) && host.written <= budget.totalBytes
    modifies host, budget
    ensures host.Valid() && host.open == old(host.open) && host.written <= budget.maxTotalBytes
    ensures r.Success? ==> Charged(budget) && budget.files == old(budget.files) + 2
    ensures r.Success? ==> old(host.now) <= host.now && Kept(old(host.dest), host.dest)
    ensures r.Success? ==>
      FileCopied(host, host.dest, sources.environmentDirectory, sources.environmentName,
                 partial + ["environment", ".env"], environment, old(host.now), host.now)
    ensures r.Success? ==>
      FileCopied(host, host.dest, sources.unitDirectory, sources.unitName, partial + ["systemd", sources.unitName], unit_,
                 old(host.now), host.now)
    ensures r.Success? ==> r.value == [Record(["environment", ".env"], environment.bytes),
                                       Record(["systemd", sources.unitName], unit_.bytes)]
    ensures r.Success? ==> var size := |environment.bytes| + |unit_.bytes|;
      budget.totalBytes == old(budget.totalBytes) + size && host.written == old(host.written) + size
    ensures r.Success? ==> host.dest.Keys <= old(host.dest).Keys
                           + {partial + ["environment", ".env"], partial + ["systemd", sources.unitName]}
    ensures Calm(host, budget) && FileIsThere(host, sources.environmentDirectory, sources.environmentName)
      && FileIsThere(host, sources.unitDirectory, sources.unitName) && IsFree(old(host.dest), partial)
      ==> OnlyOver(r, budget)
  {
    hide FileIsThere, Quiet;
    assert partial + ["environment", ".env"] != partial + ["systemd", sources.unitName] by {
      assert (partial + ["environment", ".env"])[|partial|] != (partial + ["systemd", sources.unitName])[|partial|];
    }

    hide FileCopied, CopiedTo;
    environment, unit_ := NOTHING, NOTHING;
    ghost var start := host.now;
    var a, b;
    a, environment := CopyFile(host, budget, sources.environmentDirectory, sources.environmentName,
                               partial + ["environment", ".env"], ["environment", ".env"]);
    if a.Failure? {
      return Failure(a.error), environment, unit_;
    }
    ghost var middle, before := host.now, host.dest;
    b, unit_ := CopyFile(host, budget, sources.unitDirectory, sources.unitName,
                         partial + ["systemd", sources.unitName], ["systemd", sources.unitName]);
    if b.Failure? {
      return Failure(b.error), environment, unit_;
    }
    FileStaysCopied(host, before, host.dest, sources.environmentDirectory, sources.environmentName,
                    partial + ["environment", ".env"], environment, start, middle, start, host.now);
    FileStaysCopied(host, host.dest, host.dest, sources.unitDirectory, sources.unitName,
                    partial + ["systemd", sources.unitName], unit_, middle, host.now, start, host.now);
    r := Success([a.value, b.value]);
  }

  /** What is copied to one place leaves the places beside it free. */
  lemma StaysFree(before: map<Path, Copy>, dest: map<Path, Copy>, partial: Path, name: string, other: string)
    requires forall p :: p in dest ==> p in before || partial + [name] <= p
    requires name != other && IsFree(before, partial + [other])
    ensures IsFree(dest, partial + [other])
  {
    forall p | p in dest
      ensures !(partial + [other] <= p)
    {
      if partial + [name] <= p {
        BesideIsNotBelow(partial, name, other, p);
      }
    }
  }

  /** The two trees. */
  method CopyTrees(host: Host, budget: Budget, sources: Sources, partial: Path, ghost nginxTree: set<Inode>,
                   ghost frontendTree: set<Inode>)
    returns (r: Result<seq<Record>>, ghost nginx: Tree, ghost frontend: Tree, ghost leaked: bool)
    requires host.Valid() && Charged(budget) && host.written <= budget.totalBytes
    modifies host, budget
    ensures host.Valid() && host.written <= budget.maxTotalBytes
    ensures host.open == old(host.open) <==> !leaked
    ensures leaked ==> r.Failure? && (r.error.DeadlineExceeded? || budget.directories > budget.maxFiles)
    ensures leaked ==> budget.totalBytes - old(budget.totalBytes) == host.written - old(host.written)
    ensures leaked ==> budget.files - old(budget.files) in {0, |Flatten(["nginx"], nginx)|}
    ensures r.Success? ==> Charged(budget) && budget.files == old(budget.files) + |r.value|
    ensures r.Success? ==> budget.totalBytes == old(budget.totalBytes) + Size(r.value)
    ensures r.Success? ==> host.written == old(host.written) + Size(r.value)
    ensures r.Success? ==> old(host.now) <= host.now && Kept(old(host.dest), host.dest)
    ensures r.Success? ==>
      && TreeCopied(host, host.dest, sources.nginx, partial + ["nginx"], NginxRoots(sources), nginx, old(host.now), host.now)
      && TreeCopied(host, host.dest, sources.frontend, partial + ["frontend"], [], frontend, old(host.now), host.now)
    ensures r.Success? ==> r.value == Flatten(["nginx"], nginx) + Flatten(["frontend"], frontend)
    ensures r.Success? ==> DistinctPaths(Flatten(["nginx"], nginx)) && DistinctPaths(Flatten(["frontend"], frontend))
    ensures Calm(host, budget) && TreeIsThere(host, sources.nginx, nginxTree) && TreeIsThere(host, sources.frontend, frontendTree)
      && IsFree(old(host.dest), partial + ["nginx"]) && IsFree(old(host.dest), partial + ["frontend"])
      ==> OnlyOver(r, budget)
  {
    hide TreeIsThere, Quiet;
    hide Flatten, Faithful, Height, Stored, Resolved, SortedThroughout, DistinctPaths, Size, Honest, CopiedTo, Confined, HasLink, Spanned,
      Leads;
    nginx, frontend := NOTHING, NOTHING;
    ghost var start := host.now;
    var a, b;
    ghost var rootOpened, refused;
    a, nginx, rootOpened, refused := CopyTree(host, budget, sources.nginx, partial + ["nginx"], ["nginx"],
                                             NginxRoots(sources), nginxTree);
    leaked := rootOpened && refused;
    if a.Failure? {
      return Failure(a.error), nginx, frontend, leaked;
    }
    ghost var middle, before := host.now, host.dest;
    if IsFree(old(host.dest), partial + ["frontend"]) {
      StaysFree(old(host.dest), host.dest, partial, "nginx", "frontend");
    }
    b, frontend, rootOpened, refused := CopyTree(host, budget, sources.frontend, partial + ["frontend"], ["frontend"], [],
                                                frontendTree);
    leaked := rootOpened && refused;
    if b.Failure? {
      return Failure(b.error), nginx, frontend, leaked;
    }
    TreeStaysCopied(host, before, host.dest, sources.nginx, partial + ["nginx"], NginxRoots(sources), nginx,
                    start, middle, start, host.now);
    r := Success(a.value + b.value);
    SizeAppend(a.value, b.value);
  }

  /** `_copy_sources`: what the budget was charged is what the records say and what was written. On every exit the
      descriptors are those of before, unless the charge for the root of one of the trees was refused (`leaked`). */
  method CopyAll(host: Host, budget: Budget, sources: Sources, partial: Path, ghost nginxTree: set<Inode>,
                 ghost frontendTree: set<Inode>)
    returns (r: Result<seq<Record>>, ghost copies: Copies, ghost leaked: bool)
    requires host.Valid() && Charged(budget) && host.written <= budget.totalBytes
    modifies host, budget
    ensures host.Valid() && host.written <= budget.maxTotalBytes
    ensures host.open == old(host.open) <==> !leaked
    ensures leaked ==> r.Failure? && (r.error.DeadlineExceeded? || budget.directories > budget.maxFiles)
    ensures leaked ==> budget.totalBytes - old(budget.totalBytes) == host.written - old(host.written)
    ensures leaked ==> budget.files - old(budget.files) in {2, 2 + |Flatten(["nginx"], copies.nginx)|}
    ensures r.Success? ==> Charged(budget)
    ensures r.Success? ==> budget.files == old(budget.files) + |r.value|
    ensures r.Success? ==> budget.totalBytes == old(budget.totalBytes) + Size(r.value)
    ensures r.Success? ==> host.written == old(host.written) + Size(r.value)
    ensures r.Success? ==> AllCopied(host, host.dest, sources, partial, copies, old(host.now), host.now)
    ensures r.Success? ==> r.value == RecordsOf(copies, sources.unitName)
    ensures r.Success? ==> DistinctPaths(r.value) && forall x :: x in r.value ==> |x.path| >= 2
    ensures Calm(host, budget) && AllAreThere(host, sources, nginxTree, frontendTree) && IsFree(old(host.dest), partial) ==>
      OnlyOver(r, budget)
  {
    hide Flatten, DistinctPaths, Size, CopiedTo, FileCopied, TreeIsThere, FileIsThere, Quiet;
    leaked := false;
    ghost var start := host.now;
    var files, environment, unit_ := CopyFiles(host, budget, sources, partial);
    copies := Copies(environment, unit_, NOTHING, NOTHING);
    if files.Failure? {
      return Failure(files.error), copies, leaked;
    }
    FilesAreFiles(host, host.dest, sources, partial, environment, unit_, start, host.now);
    ghost var middle, before := host.now, host.dest;
    var trees;
    ghost var nginx, frontend;
    if IsFree(old(host.dest), partial) {
      TreesAreFree(old(host.dest), host.dest, partial, sources.unitName);
    }
    trees, nginx, frontend, leaked := CopyTrees(host, budget, sources, partial, nginxTree, frontendTree);
    copies := Copies(environment, unit_, nginx, frontend);
    if trees.Failure? {
      return Failure(trees.error), copies, leaked;
    }
    AllStayCopied(host, before, host.dest, sources, partial, copies, start, middle, host.now);
    SourcesAreDistinct(files.value[0], files.value[1], nginx, frontend);
    SizesAdd(files.value[0], files.value[1], Flatten(["nginx"], nginx), Flatten(["frontend"], frontend));
    SizeAppend(Flatten(["nginx"], nginx), Flatten(["frontend"], frontend));
    assert files.value == [files.value[0], files.value[1]];
    r := Success(files.value + trees.value);
  }

  lemma TreesAreFree(before: map<Path, Copy>, dest: map<Path, Copy>, partial: Path, unitName: string)
    requires IsFree(before, partial)
    requires dest.Keys <= before.Keys + {partial + ["environment", ".env"], partial + ["systemd", unitName]}
    ensures IsFree(dest, partial + ["nginx"]) && IsFree(dest, partial + ["frontend"])
  {
    forall p, top | p in dest && top in {"nginx", "frontend"}
      ensures !(partial + [top] <= p)
    {
      BelowIsBelow(partial, top, p);
      if p !in before {
        var name := if p == partial + ["environment", ".env"] then "environment" else "systemd";
        assert partial + [name] <= p;
        BesideIsNotBelow(partial, name, top, p);
      }
    }
  }

  /** The four sources are there, the trees of regular files and directories only. */
  ghost predicate AllAreThere(host: Host, sources: Sources, nginxTree: set<Inode>, frontendTree: set<Inode>) {
    && FileIsThere(host, sources.environmentDirectory, sources.environmentName)
    && FileIsThere(host, sources.unitDirectory, sources.unitName)
    && TreeIsThere(host, sources.nginx, nginxTree) && TreeIsThere(host, sources.frontend, frontendTree)
  }

  lemma FilesAreFiles(host: Host, dest: map<Path, Copy>, sources: Sources, partial: Path, environment: Tree, unit_: Tree,
                      from: nat, to: nat)
    requires FileCopied(host, dest, sources.environmentDirectory, sources.environmentName,
                        partial + ["environment", ".env"], environment, from, to)
    requires FileCopied(host, dest, sources.unitDirectory, sources.unitName, partial + ["systemd", sources.unitName], unit_,
                        from, to)
    ensures environment.FileNode? && unit_.FileNode?
  {
  }

  /** The files were copied first, then the trees. */
  lemma AllStayCopied(host: Host, before: map<Path, Copy>, dest: map<Path, Copy>, sources: Sources, partial: Path, c: Copies,
                      from: nat, middle: nat, to: nat)
    requires from <= middle <= to && Kept(before, dest)
    requires FileCopied(host, before, sources.environmentDirectory, sources.environmentName,
                        partial + ["environment", ".env"], c.environment, from, middle)
    requires FileCopied(host, before, sources.unitDirectory, sources.unitName, partial + ["systemd", sources.unitName],
                        c.unit_, from, middle)
    requires TreeCopied(host, dest, sources.nginx, partial + ["nginx"], NginxRoots(sources), c.nginx, middle, to)
    requires TreeCopied(host, dest, sources.frontend, partial + ["frontend"], [], c.frontend, middle, to)
    ensures AllCopied(host, dest, sources, partial, c, from, to)
  {
    hide FileCopied, TreeCopied, Kept;
    FileStaysCopied(host, before, dest, sources.environmentDirectory, sources.environmentName,
                    partial + ["environment", ".env"], c.environment, from, middle, from, to);
    FileStaysCopied(host, before, dest, sources.unitDirectory, sources.unitName, partial + ["systemd", sources.unitName],
                    c.unit_, from, middle, from, to);
    assert Kept(dest, dest) by {
      KeptByItself(dest);
    }
    TreeStaysCopied(host, dest, dest, sources.nginx, partial + ["nginx"], NginxRoots(sources), c.nginx, middle, to, from, to);
    TreeStaysCopied(host, dest, dest, sources.frontend, partial + ["frontend"], [], c.frontend, middle, to, from, to);
  }

  lemma KeptByItself(dest: map<Path, Copy>)
    ensures Kept(dest, dest)
  {
  }

  /** `_record_dump`: the dump is charged and read to its end; success means it held these bytes all the while. */
  method RecordDump(host: Host, budget: Budget, fd: nat, name: string, expected: Stat, ghost seen: nat)
    returns (r: Result<Record>)
    requires fd in host.open && host.open[fd] == Source(expected.ino) && Charged(budget)
    requires expected.kind.IsRegular? && SeenAt(host.world, expected, seen) && seen <= host.now
    modifies host`now, budget
    ensures old(host.now) <= host.now
    ensures r.Success? ==> Charged(budget) && r.value.path == [name] && |r.value.bytes| == expected.size > 0
    ensures r.Success? ==> budget.files == old(budget.files) + 1
    ensures r.Success? ==> budget.totalBytes == old(budget.totalBytes) + |r.value.bytes|
    ensures r.Success? && Honest(host.world) ==> Held(host.world, expected.ino, seen, host.now, r.value.bytes)
    ensures Calm(host, budget) && expected.size > 0 ==> OnlyOver(r, budget)
  {
    if expected.size == 0 {
      return Failure(CopyFailed);
    }
    var error := budget.AddFile(expected.size, false);
    if error.Some? {
      return Failure(error.value);
    }
    var data := ReadDump(host, budget, fd, expected, seen);
    if data.Failure? {
      return Failure(data.error);
    }
    ghost var last := host.now;
    var after := host.Fstat(fd);
    if Calm(host, budget) {
      QuietStat(host.world, expected, seen, host.now);
    }
    if |data.value| != expected.size || !MatchesStableFile(after, expected) {
      return Failure(SourceChanged);
    }
    SteadyBefore(host.world, expected.ino, seen, last, host.now);
    if Honest(host.world) {
      StampFreezes(host.world, expected, seen, after, host.now);
      HeldFromSteady(host.world, expected.ino, seen, host.now, data.value);
    }
    r := Success(Record([name], data.value));
  }

  method ReadDump(host: Host, budget: Budget, fd: nat, expected: Stat, ghost seen: nat) returns (r: Result<Data>)
    requires fd in host.open && host.open[fd] == Source(expected.ino)
    requires expected.kind.IsRegular? && SeenAt(host.world, expected, seen) && seen <= host.now
    modifies host`now
    ensures old(host.now) <= host.now
    ensures r.Success? && Steady(host.world, expected.ino, seen, host.now) && |r.value| == expected.size ==>
              r.value == host.world(seen)[expected.ino].bytes
    ensures Calm(host, budget) && expected.size <= budget.maxFileBytes && budget.totalBytes <= budget.maxTotalBytes ==>
      r.Success? && |r.value| == expected.size
  {
    hide Steady, StatOf, Quiet;
    ghost var calm := Calm(host, budget);
    var read: Data := [];
    SourceIsThere(host.world, expected, seen);
    while true
      invariant old(host.now) <= host.now
      invariant Steady(host.world, expected.ino, seen, host.now) ==> read <= host.world(seen)[expected.ino].bytes
      invariant |read| <= budget.maxFileBytes || read == []
      decreases budget.maxFileBytes + 1 - |read|
    {
      ghost var before := host.now;
      var chunk := host.Read(fd, |read|);
      if calm {
        QuietRead(host.world, expected, seen, host.now);
      }
      if chunk.None? {
        return Failure(CopyFailed);
      }
      ReadExtends(host.world, expected.ino, seen, before, host.now, read, chunk.value);
      if chunk.value == [] {
        break;
      }
      var error := budget.CheckCopySize(expected.size, |read| + |chunk.value|);
      if error.Some? {
        return Failure(error.value);
      }
      read := read + chunk.value;
    }
    r := Success(read);
  }

  /** The records of a whole backup, under a new budget: files and bytes charged are exactly those of the manifest. The
      dump held its bytes until `checked`, and then the four sources were copied. */
  method CollectRecords(host: Host, budget: Budget, dump: nat, name: string, expected: Stat, ghost seen: nat,
                        sources: Sources, partial: Path, ghost nginxTree: set<Inode>, ghost frontendTree: set<Inode>)
    returns (r: Result<seq<Record>>, ghost copies: Copies, ghost checked: nat)
    requires host.Valid() && dump in host.open && host.open[dump] == Source(expected.ino)
    requires expected.kind.IsRegular? && SeenAt(host.world, expected, seen) && seen <= host.now
    requires budget.files == budget.directories == budget.totalBytes == 0 && host.written == 0
    modifies host, budget
    ensures r.Success? ==> budget.files == |r.value| <= budget.maxFiles
    ensures r.Success? ==> budget.totalBytes == Size(r.value) <= budget.maxTotalBytes
    ensures r.Success? ==> r.value != [] && r.value[0].path == [name] && DistinctPaths(r.value)
    ensures r.Success? ==> host.written == Size(r.value) - |r.value[0].bytes|
    ensures r.Success? ==> old(host.now) <= checked
    ensures r.Success? && Honest(host.world) ==> Held(host.world, expected.ino, seen, checked, r.value[0].bytes)
    ensures r.Success? ==> AllCopied(host, host.dest, sources, partial, copies, checked, host.now)
    ensures r.Success? ==> r.value[1..] == RecordsOf(copies, sources.unitName)
    ensures Calm(host, budget) && AllAreThere(host, sources, nginxTree, frontendTree) && IsFree(old(host.dest), partial) ==>
      (expected.size > 0 ==> OnlyOver(r, budget))
  {
    hide AllCopied, Held, Honest, RecordsOf, DistinctPaths, AllAreThere, Quiet;
    copies, checked := Copies(NOTHING, NOTHING, NOTHING, NOTHING), host.now;
    var first := RecordDump(host, budget, dump, name, expected, seen);
    checked := host.now;
    if first.Failure? {
      return Failure(first.error), copies, checked;
    }
    var rest;
    ghost var leaked;
    rest, copies, leaked := CopyAll(host, budget, sources, partial, nginxTree, frontendTree);
    if rest.Failure? {
      return Failure(rest.error), copies, checked;
    }
    SizeAppend([first.value], rest.value);
    SizeOfOneMore([], first.value);
    assert [] + [first.value] == [first.value];
    assert DistinctPaths([first.value] + rest.value) by {
      OneIsDistinct(first.value);
      DistinctTogether([first.value], rest.value);
    }
    r := Success([first.value] + rest.value);
  }

  lemma OneIsDistinct(a: Record)
    ensures DistinctPaths([a])
  {
  }
}
