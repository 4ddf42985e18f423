/** Deleting a backup set entry by entry, deepest entries first. */
module TreeRemoval {

  type Path = seq<string>

  datatype Kind = Folder | Plain | Link | Other

  type Nodes = map<Path, Kind>

  predicate Inside(directory: Path, p: Path) {
    directory < p
  }

  /** Neither the directory nor anything below it is left. */
  predicate Gone(nodes: Nodes, directory: Path) {
    forall p :: p in nodes ==> !(directory <= p)
  }

  /** The set holds directories and regular files only. */
  predicate Safe(nodes: Nodes, directory: Path) {
    && directory in nodes && nodes[directory] == Folder
    && forall p :: p in nodes && Inside(directory, p) ==> nodes[p] == Folder || nodes[p] == Plain
  }

  /** Nothing appears, and what is not in the directory stays as it was. */
  predicate OnlyWithin(before: Nodes, after: Nodes, directory: Path) {
    && (forall p :: p in after ==> p in before && after[p] == before[p])
    && (forall p :: p in before && !(directory <= p) ==> p in after)
  }

  predicate DeepestFirst(entries: seq<Path>) {
    forall i, j :: 0 <= i < j < |entries| ==> |entries[i]| >= |entries[j]| && entries[i] != entries[j]
  }

  ghost predicate Deepest(p: Path, left: set<Path>) {
    p in left && forall q :: q in left ==> |q| <= |p|
  }

  lemma {:induction false} DeepestExists(left: set<Path>)
    requires left != {}
    ensures exists p :: Deepest(p, left)
  {
    var p :| p in left;
    if left == {p} {
      assert Deepest(p, left);
    } else {
      DeepestExists(left - {p});
      var q :| Deepest(q, left - {p});
      assert Deepest(if |q| < |p| then p else q, left);
    }
  }

  class Files {
    var nodes: Nodes
    /** How many calls were made, and which of them the system refuses for reasons of its own. */
    var calls: nat
    const refuses: nat -> bool

    constructor (nodes: Nodes, refuses: nat -> bool)
      ensures this.nodes == nodes && this.refuses == refuses && calls == 0
    {
      this.nodes, this.refuses, calls := nodes, refuses, 0;
    }

    /** `sorted(directory.rglob("*"), key=depth, reverse=True)`; entries of one depth come in any order. */
    method List(directory: Path) returns (entries: seq<Path>)
      ensures DeepestFirst(entries)
      ensures forall p :: p in entries <==> p in nodes && Inside(directory, p)
    {
      ghost var all := set p | p in nodes && Inside(directory, p);
      var left := set p | p in nodes && Inside(directory, p);
      entries := [];
      while left != {}
        invariant left <= all
        invariant forall p :: p in entries <==> p in all && p !in left
        invariant forall p, q :: p in entries && q in left ==> |p| >= |q|
        invariant DeepestFirst(entries)
        decreases left
      {
        DeepestExists(left);
        var p :| p in left && forall q :: q in left ==> |q| <= |p|;
        entries := entries + [p];
        left := left - {p};
      }
    }

    /** Fails on a directory that is not empty, or because the call is refused. */
    method Rmdir(p: Path) returns (ok: bool)
      modifies this
      ensures calls == old(calls) + 1
      ensures nodes == if ok then old(nodes) - {p} else old(nodes)
      ensures ok <==>
        && !refuses(old(calls)) && p in old(nodes) && old(nodes)[p] == Folder
        && !exists q :: q in old(nodes) && Inside(p, q)
    {
      ok := !refuses(calls) && p in nodes && nodes[p] == Folder && !exists q :: q in nodes && Inside(p, q);
      calls := calls + 1;
      if ok {
        nodes := nodes - {p};
      }
    }

    method Unlink(p: Path) returns (ok: bool)
      modifies this
      ensures calls == old(calls) + 1
      ensures nodes == if ok then old(nodes) - {p} else old(nodes)
      ensures ok <==> !refuses(old(calls)) && p in old(nodes) && old(nodes)[p] != Folder
    {
      ok := !refuses(calls) && p in nodes && nodes[p] != Folder;
      calls := calls + 1;
      if ok {
        nodes := nodes - {p};
      }
    }

    /** Whether the system refused one of the calls from this one on. */
    ghost predicate RefusedSince(call: nat)
      reads this`calls
    {
      exists c: nat :: call <= c < calls && refuses(c)
    }

    /** `_remove_safe_tree`, with the verdict of `_trusted_success`. It deletes a safe set completely exactly if none of
        its calls is refused: no `rmdir` meets a directory that still has entries. */
    method RemoveSafeTree(directory: Path, trusted: bool) returns (done: bool)
      modifies this
      ensures OnlyWithin(old(nodes), nodes, directory)
      ensures done ==> Gone(nodes, directory)
      ensures trusted && Safe(old(nodes), directory) ==> (done <==> !RefusedSince(old(calls)))
      ensures !trusted ==> !done && nodes == old(nodes)
    {
      done := false;
      if !trusted {
        return;
      }
      var entries := List(directory);
      if exists i :: 0 <= i < |entries| && nodes[entries[i]] == Link {
        return;
      }
      ghost var before := nodes;
      var i := 0;
      while i < |entries|
        invariant 0 <= i <= |entries| && nodes == Without(before, entries[..i])
        invariant old(calls) <= calls && !RefusedSince(old(calls))
      {
        var p, ok := entries[i], false;
        assert p in nodes && nodes[p] == before[p];
        NothingBelow(before, entries, i, directory);
        if nodes[p] == Folder {
          ok := Rmdir(p);
        } else if nodes[p] == Plain {
          ok := Unlink(p);
        }
        if !ok {
          return;
        }
        OneLess(before, entries, i);
        i := i + 1;
      }
      assert entries[..i] == entries;
      NothingElseLeft(before, entries, directory);
      done := Rmdir(directory);
    }
  }

  function Without(nodes: Nodes, gone: seq<Path>): Nodes {
    map p | p in nodes && p !in gone :: nodes[p]
  }

  lemma OneLess(nodes: Nodes, gone: seq<Path>, i: nat)
    requires i < |gone|
    ensures Without(nodes, gone[..i]) - {gone[i]} == Without(nodes, gone[..i + 1])
  {
    assert gone[..i + 1] == gone[..i] + [gone[i]];
  }

  lemma NothingElseLeft(before: Nodes, entries: seq<Path>, directory: Path)
    requires forall p :: p in entries <==> p in before && Inside(directory, p)
    ensures Gone(Without(before, entries) - {directory}, directory)
    ensures forall q :: q in Without(before, entries) ==> !Inside(directory, q)
    ensures OnlyWithin(before, Without(before, entries) - {directory}, directory)
  {
    forall p | directory <= p && !Inside(directory, p)
      ensures p == directory
    {
    }
  }

  /** When an entry's turn comes, everything below it is gone. */
  lemma NothingBelow(before: Nodes, entries: seq<Path>, i: nat, directory: Path)
    requires DeepestFirst(entries) && i < |entries|
    requires forall p :: p in entries <==> p in before && Inside(directory, p)
    ensures forall q :: q in Without(before, entries[..i]) ==> !Inside(entries[i], q)
  {
    forall q | q in before && Inside(entries[i], q)
      ensures q in entries[..i]
    {
      assert entries[i] in entries;
      assert Inside(directory, q);
      var j :| 0 <= j < |entries| && entries[j] == q;
    }
  }
}
