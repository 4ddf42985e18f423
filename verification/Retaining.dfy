/** Retention as the program performs it after a publication: sort, choose what to keep, delete the rest, sync. */
module Retaining {
  import opened Lexicographic
  import opened Retention
  import opened BackupRoot
  import opened Publication
  import opened PublicationSafety
  import opened PublicationHistory
  import opened PublicationRollback
  import opened Publisher

  /** `sorted(..., reverse=True)` on names. */
  method SortNewestFirst(sets: set<string>) returns (names: seq<string>)
    ensures names == NewestFirst(sets)
  {
    var left := sets;
    names := [];
    while left != {}
      invariant left <= sets
      invariant forall s :: s in names <==> s in sets && s !in left
      invariant forall s, t :: s in names && t in left ==> Less(t, s)
      invariant Descending(names)
      decreases left
    {
      NewestExists(left);
      var m :| m in left && forall s :: s in left && s != m ==> Less(s, m);
      names := names + [m];
      left := left - {m};
    }
    DescendingIsUnique(names, NewestFirst(sets));
  }

  /** The candidates that are not kept, in order. */
  function Dropped(candidates: seq<string>, keep: set<string>): seq<string> {
    if candidates == [] then []
    else (if candidates[0] in keep then [] else [candidates[0]]) + Dropped(candidates[1..], keep)
  }

  lemma {:induction false} DroppedMembers(candidates: seq<string>, keep: set<string>)
    requires Descending(candidates)
    ensures Descending(Dropped(candidates, keep))
    ensures forall s :: s in Dropped(candidates, keep) <==> s in candidates && s !in keep
  {
    if candidates != [] {
      DroppedMembers(candidates[1..], keep);
      forall s | s in candidates[1..]
        ensures Less(s, candidates[0])
      {
      }
      assert candidates == [candidates[0]] + candidates[1..];
    }
  }

  /** The newest `retention - 1` of the others. */
  function Newest(others: seq<string>, retention: nat): seq<string>
    requires retention > 0
  {
    if |others| < retention then others else others[..retention - 1]
  }

  lemma PartsAreDisjoint(all: seq<string>, a: seq<string>, b: seq<string>, s: string)
    requires Descending(all) && all == a + b
    ensures !(s in a && s in b)
    ensures s in all <==> s in a || s in b
  {
    if s in a && s in b {
      var i :| 0 <= i < |a| && a[i] == s;
      var j :| 0 <= j < |b| && b[j] == s;
      assert all[|a| + j] == s && all[i] == s;
      LessIsIrreflexive(s);
    }
  }

  /** Keeping the current set and the newest others drops exactly the doomed sets, in their order. */
  lemma DroppedAreDoomed(sets: set<string>, retention: nat, current: string, keep: set<string>)
    requires retention > 0 && current in sets
    requires forall s :: s in keep <==> s == current || s in Newest(NewestFirst(sets - {current}), retention)
    ensures Dropped(NewestFirst(sets), keep) == Doomed(sets, retention, current)
  {
    var all, others, doomed := NewestFirst(sets), NewestFirst(sets - {current}), Doomed(sets, retention, current);
    var kept := Newest(others, retention);
    DoomedIsTheRest(sets, retention, current);
    DroppedMembers(all, keep);
    hide NewestFirst, Newest, Doomed, Dropped, Descending;
    forall s
      ensures s in Dropped(all, keep) <==> s in doomed
    {
      PartsAreDisjoint(others, kept, doomed, s);
      assert s in all <==> s in sets;
      assert s in others <==> s in sets && s != current;
    }
    DescendingIsUnique(Dropped(all, keep), doomed);
  }

  lemma DoomedIsTheRest(sets: set<string>, retention: nat, current: string)
    requires retention > 0
    ensures var others := NewestFirst(sets - {current});
      && others == Newest(others, retention) + Doomed(sets, retention, current)
      && Descending(Doomed(sets, retention, current))
  {
    hide NewestFirst;
  }

  /** `_remove_safe_tree` on the root: it may stop with the set removed in part. */
  method RemoveSet(root: Root, name: string) returns (removed: bool)
    requires root.Valid() && root.m.pc.DeleteSet? && root.m.run.deleted < |root.m.run.plan.doomed|
    requires name == root.m.run.plan.doomed[root.m.run.deleted]
    modifies root
    ensures root.Valid() && root.base == old(root.base) && root.m.run.job == old(root.m.run.job)
    ensures root.m.run.plan == old(root.m.run.plan)
    ensures old(root.failed) <= root.failed && (root.failed == old(root.failed) ==> removed)
    ensures !removed ==> root.m.pc.RetentionFailed?
    ensures removed ==> root.m.run.deleted == old(root.m.run.deleted) + 1
    ensures removed ==> root.m.pc == if root.m.run.deleted == |root.m.run.plan.doomed| then SyncDeleted else DeleteSet
  {
    var pieces: nat :| pieces >= 0;
    while pieces > 0
      invariant root.Valid() && root.base == old(root.base) && root.m.pc.DeleteSet? && root.m.run == old(root.m.run)
      invariant old(root.failed) <= root.failed
    {
      var left: Node := *;
      if left.SetDir? {
        var torn := Outcome(Torn, left);
        DeletingStep(root.m, torn);
        root.entries := root.entries[Final(name) := Unsynced(left)];
        root.Advance(torn);
      }
      pieces := pieces - 1;
    }
    var o: Outcome := *;
    if !o.end.Torn? {
      DeletingStep(root.m, o);
      if Took(o) {
        root.entries := root.entries - {Final(name)};
      }
      root.Advance(o);
      removed := o.end.Done?;
    } else {
      var failed := Outcome(FailedBefore, o.left);
      DeletingStep(root.m, failed);
      root.Advance(failed);
      removed := false;
    }
  }

  lemma DeletingStep(m: Machine, o: Outcome)
    requires m.pc.DeleteSet? && m.run.deleted < |m.run.plan.doomed|
    ensures var n := Final(m.run.plan.doomed[m.run.deleted]); var torn := o.end.Torn? && o.left.SetDir?;
      && Step(m, o).disk.view == (if torn then m.disk.view[n := Unsynced(o.left)]
                                  else if Took(o) then m.disk.view - {n} else m.disk.view)
      && Step(m, o).run == (if o.end.Done? then m.run.(deleted := m.run.deleted + 1) else m.run)
      && Step(m, o).pc == (if torn then DeleteSet else if !o.end.Done? then RetentionFailed
                           else if m.run.deleted + 1 == |m.run.plan.doomed| then SyncDeleted else DeleteSet)
  {
  }

  /** `_apply_retention`: the number of deleted sets, or nothing when it raises. */
  method ApplyRetention(root: Root, retention: nat, current: string) returns (deleted: Option<nat>)
    requires root.Valid() && root.m.pc.ListSets?
    requires retention == root.m.run.job.retention > 0 && current == root.m.run.job.setName
    modifies root
    ensures root.Valid() && root.base == old(root.base) && root.m.run.job == old(root.m.run.job)
    ensures deleted.None? ==> root.m.pc.RetentionFailed?
    ensures !MayDelete(old(root.entries), current) ==> deleted.None? && root.entries == old(root.entries)
    ensures deleted.None? ==>
      OnlyTouches(root.entries, old(root.entries), Doomed(TrustedSets(old(root.entries)), retention, current))
    ensures root.failed == old(root.failed) ==> deleted.Some?
    ensures deleted.Some? ==> root.m.pc.Succeeded?
    ensures deleted.Some? ==> deleted.value == |Doomed(TrustedSets(old(root.entries)), retention, current)|
    ensures deleted.Some? ==> current in TrustedSets(old(root.entries))
    ensures deleted.Some? ==>
      LeftWithout(root.entries, old(root.entries), Doomed(TrustedSets(old(root.entries)), retention, current))
  {
    ReplayKeeps(root.base, root.log);
    PublishedMayDelete(root.m);
    hide Inv, Replay, TrustedSets, Doomed, Dropped, Step, Entry;
    var o: Outcome := *;
    var may, candidates, keep := Choose(root.entries, retention, current);
    ListingStep(root.m, o);
    root.Advance(o);
    if !o.end.Done? || !may {
      return None;
    }
    deleted := DeleteAll(root, candidates, keep);
    ReplayKeeps(root.base, root.log);
    if deleted.Some? {
      SucceededExactly(root.m);
    } else {
      FailedTouchesOnly(root.m);
    }
  }

  /** These sets are gone, and every other entry is as it was. */
  ghost predicate LeftWithout(after: Dir, before: Dir, doomed: seq<string>) {
    forall n :: Entry(after, n) == if n.Final? && n.setName in doomed then None else Entry(before, n)
  }

  /** Only these sets may differ, and nothing has appeared. */
  ghost predicate OnlyTouches(after: Dir, before: Dir, doomed: seq<string>) {
    && (forall n: Name :: (n.Final? ==> n.setName !in doomed) ==> Entry(after, n) == Entry(before, n))
    && forall n: Name :: n in after ==> n in before
  }

  lemma FailedTouchesOnly(m: Machine)
    requires Inv(m) && m.pc.RetentionFailed?
    ensures OnlyTouches(m.disk.view, m.run.plan.listing, m.run.plan.doomed)
  {
    hide CrashSafe, Served, Chosen;
  }

  lemma SucceededExactly(m: Machine)
    requires Inv(m) && m.pc.Succeeded?
    ensures LeftWithout(m.disk.view, m.run.plan.listing, m.run.plan.doomed)
  {
    hide CrashSafe, Served, Chosen, Cleared, Entry;
    forall n
      ensures Entry(m.disk.view, n) == if n.Final? && n.setName in m.run.plan.doomed then None else Entry(m.run.plan.listing, n)
    {
      ClearedExactly(m.disk.view, m.run.plan.listing, m.run.plan.doomed, n);
    }
  }

  /** The current set is trusted and the marker is its own metadata. */
  predicate MayDelete(entries: Dir, current: string) {
    && current in TrustedSets(entries) && ReadMarker(entries).Found?
    && Final(current) in entries && entries[Final(current)].SetDir?
    && entries[Final(current)].backup == Some(ReadMarker(entries).bytes)
  }

  lemma PublishedMayDelete(m: Machine)
    requires Inv(m) && m.pc.ListSets? && m.run.job.retention > 0
    ensures MayDelete(m.disk.view, m.run.job.setName)
  {
    MayRetainPublished(m, Outcome(Done, File(Junk(0), true)));
    hide Inv;
  }

  /** What to delete: the candidates, newest first, that are not to be kept. */
  method Choose(entries: Dir, retention: nat, current: string)
    returns (may: bool, candidates: seq<string>, keep: set<string>)
    requires retention > 0
    ensures may <==> MayDelete(entries, current)
    ensures may ==> Dropped(candidates, keep) == Doomed(TrustedSets(entries), retention, current)
  {
    hide TrustedSets, ReadMarker, Doomed, Dropped, Newest, NewestFirst;
    may, candidates, keep := MayDelete(entries, current), [], {};
    if may {
      var sets := TrustedSets(entries);
      candidates := SortNewestFirst(sets);
      var others := SortNewestFirst(sets - {current});
      var newest := Newest(others, retention);
      keep := {current} + set s | s in newest;
      DroppedAreDoomed(sets, retention, current, keep);
    }
  }

  lemma ListingStep(m: Machine, o: Outcome)
    requires m.pc.ListSets? && m.run.job.retention > 0
    ensures var v, job := m.disk.view, m.run.job; var after := Step(m, o);
      && after.disk == m.disk && after.run.job == job
      && (if o.end.Done? && MayDelete(v, job.setName)
          then
            && after.run.deleted == 0
            && after.run.plan == Plan(v, Doomed(TrustedSets(v), job.retention, job.setName))
            && after.pc == (if after.run.plan.doomed == [] then Succeeded else DeleteSet)
          else after.pc.RetentionFailed?)
  {
    hide ReadMarker, Doomed;
  }

  lemma NothingDropped(keep: set<string>)
    ensures Dropped([], keep) == []
  {
  }

  lemma NextDropped(candidates: seq<string>, i: nat, keep: set<string>, dropped: seq<string>)
    requires i < |candidates| && dropped == Dropped(candidates[i..], keep)
    ensures if candidates[i] in keep then dropped == Dropped(candidates[i + 1..], keep)
            else |dropped| > 0 && dropped[0] == candidates[i] && dropped[1..] == Dropped(candidates[i + 1..], keep)
  {
    assert candidates[i..][1..] == candidates[i + 1..];
  }

  method DeleteAll(root: Root, candidates: seq<string>, keep: set<string>) returns (deleted: Option<nat>)
    requires root.Valid() && root.m.run.deleted == 0
    requires root.m.run.plan.doomed == Dropped(candidates, keep)
    requires root.m.pc == if root.m.run.plan.doomed == [] then Succeeded else DeleteSet
    modifies root
    ensures root.Valid() && root.base == old(root.base) && root.m.run.job == old(root.m.run.job)
    ensures root.m.run.plan == old(root.m.run.plan)
    ensures root.m.pc == if deleted.Some? then Succeeded else RetentionFailed
    ensures old(root.failed) <= root.failed && (root.failed == old(root.failed) ==> deleted.Some?)
    ensures deleted.Some? ==> deleted.value == |root.m.run.plan.doomed|
  {
    hide Inv, Replay, Step, Dropped;
    ghost var doomed := root.m.run.plan.doomed;
    NothingDropped(keep);
    assert candidates[0..] == candidates;
    var count, i := 0, 0;
    while i < |candidates|
      invariant 0 <= i <= |candidates|
      invariant root.Valid() && root.base == old(root.base) && root.m.run.job == old(root.m.run.job)
      invariant root.m.run.plan == old(root.m.run.plan) && root.m.run.deleted == count <= |doomed|
      invariant old(root.failed) <= root.failed
      invariant doomed[count..] == Dropped(candidates[i..], keep)
      invariant root.m.pc == if doomed == [] then Succeeded else if count == |doomed| then SyncDeleted else DeleteSet
    {
      NextDropped(candidates, i, keep, doomed[count..]);
      if candidates[i] !in keep {
        assert doomed[count] == candidates[i];
        var removed := RemoveSet(root, candidates[i]);
        if !removed {
          return None;
        }
        assert doomed[count + 1..] == doomed[count..][1..];
        count := count + 1;
      }
      i := i + 1;
    }
    assert candidates[|candidates|..] == [] && doomed[count..] == [];
    if count > 0 {
      var o: Outcome := *;
      SyncDeletedStep(root.m, o);
      root.Advance(o);
      if !o.end.Done? {
        return None;
      }
    }
    return Some(count);
  }

  lemma SyncDeletedStep(m: Machine, o: Outcome)
    requires m.pc.SyncDeleted?
    ensures var after := Step(m, o);
      && after.disk.view == m.disk.view && after.run == m.run
      && after.pc == (if o.end.Done? then Succeeded else RetentionFailed)
  {
  }
}
