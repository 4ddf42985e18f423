/** Which backup sets a successful run deletes; sets are known by their names. */
module Retention {
  import opened Lexicographic

  ghost predicate NewestOf(m: string, sets: set<string>) {
    m in sets && forall s :: s in sets && s != m ==> Less(s, m)
  }

  lemma {:induction false} NewestExists(sets: set<string>)
    requires sets != {}
    ensures exists m :: NewestOf(m, sets)
  {
    var s :| s in sets;
    if sets == {s} {
      assert NewestOf(s, sets);
    } else {
      NewestExists(sets - {s});
      var m :| NewestOf(m, sets - {s});
      LessIsTotal(s, m);
      if Less(s, m) {
        assert NewestOf(m, sets);
      } else {
        forall t | t in sets && t != s
          ensures Less(t, s)
        {
          if t != m {
            LessIsTransitive(t, m, s);
          }
        }
        assert NewestOf(s, sets);
      }
    }
  }

  ghost predicate Descending(names: seq<string>) {
    forall i, j :: 0 <= i < j < |names| ==> Less(names[j], names[i])
  }

  /** The sets sorted by name, newest first. */
  ghost function NewestFirst(sets: set<string>): (names: seq<string>)
    ensures Descending(names)
    ensures forall s :: s in names <==> s in sets
    ensures |names| == |sets|
  {
    if sets == {} then []
    else
      NewestExists(sets);
      var m :| NewestOf(m, sets);
      [m] + NewestFirst(sets - {m})
  }

  function Reversed(names: seq<string>): (r: seq<string>)
    ensures |r| == |names| && forall i :: 0 <= i < |r| ==> r[i] == names[|names| - 1 - i]
  {
    seq(|names|, i requires 0 <= i < |names| => names[|names| - 1 - i])
  }

  /** A list in descending name order is determined by its members. */
  lemma DescendingIsUnique(a: seq<string>, b: seq<string>)
    requires Descending(a) && Descending(b)
    requires forall s :: s in a <==> s in b
    ensures a == b
  {
    hide Reversed, Descending, Ascending;
    forall s
      ensures s in Reversed(a) <==> s in Reversed(b)
    {
      SameMembersReversed(a, s);
      SameMembersReversed(b, s);
    }
    ReversedTwice(a);
    ReversedTwice(b);
    AscendingIsUnique(Reversed(a), Reversed(b));
  }

  lemma ReversedTwice(names: seq<string>)
    ensures Reversed(Reversed(names)) == names
    ensures Descending(names) ==> Ascending(Reversed(names))
  {
  }

  lemma SameMembersReversed(names: seq<string>, s: string)
    ensures s in names <==> s in Reversed(names)
  {
    if s in names {
      var i :| 0 <= i < |names| && names[i] == s;
      assert Reversed(names)[|names| - 1 - i] == s;
    }
  }

  /** The other sets beyond the newest `retention - 1`, in the order they are deleted. */
  ghost function Doomed(sets: set<string>, retention: nat, current: string): (names: seq<string>)
    requires retention > 0
  {
    var others := NewestFirst(sets - {current});
    if |others| < retention then [] else others[retention - 1..]
  }

  ghost function Kept(sets: set<string>, retention: nat, current: string): set<string>
    requires retention > 0
  {
    sets - (set s | s in Doomed(sets, retention, current))
  }

  /** Retention keeps the current set, whatever its date, and the newest of the others. */
  lemma KeepsCurrentAndNewest(sets: set<string>, retention: nat, current: string)
    requires retention > 0 && current in sets
    ensures current in Kept(sets, retention, current)
    ensures |Kept(sets, retention, current)| == if |sets| < retention then |sets| else retention
    ensures |Doomed(sets, retention, current)| == if |sets| < retention then 0 else |sets| - retention
    ensures forall d :: d in Doomed(sets, retention, current) ==> d in sets && d != current
    ensures forall k, d :: k in Kept(sets, retention, current) && k != current && d in Doomed(sets, retention, current)
              ==> Less(d, k)
  {
    DoomedAreOthers(sets, retention, current);
    DoomedCount(sets, retention, current);
    forall k, d | k in Kept(sets, retention, current) && k != current && d in Doomed(sets, retention, current)
      ensures Less(d, k)
    {
      KeptIsNewer(sets, retention, current, k, d);
    }
  }

  lemma DoomedAreOthers(sets: set<string>, retention: nat, current: string)
    requires retention > 0
    ensures forall d :: d in Doomed(sets, retention, current) ==> d in sets && d != current
  {
    var others := NewestFirst(sets - {current});
    assert forall d :: d in Doomed(sets, retention, current) ==> d in others;
  }

  lemma DoomedAreDistinct(sets: set<string>, retention: nat, current: string)
    requires retention > 0
    ensures var all := Doomed(sets, retention, current); forall i, j :: 0 <= i < j < |all| ==> all[i] != all[j]
  {
    var all := Doomed(sets, retention, current);
    assert Descending(all);
    forall i, j | 0 <= i < j < |all|
      ensures all[i] != all[j]
    {
      LessIsIrreflexive(all[i]);
    }
  }

  lemma DoomedCount(sets: set<string>, retention: nat, current: string)
    requires retention > 0 && current in sets
    ensures |Doomed(sets, retention, current)| == if |sets| < retention then 0 else |sets| - retention
    ensures |Kept(sets, retention, current)| == |sets| - |Doomed(sets, retention, current)|
  {
    var doomed := Doomed(sets, retention, current);
    var gone := set s | s in doomed;
    DoomedAreOthers(sets, retention, current);
    assert |sets - {current}| == |sets| - 1;
    CountDistinct(doomed);
    assert gone <= sets && sets == (sets - gone) + gone;
  }

  lemma KeptIsNewer(sets: set<string>, retention: nat, current: string, k: string, d: string)
    requires retention > 0
    requires k in Kept(sets, retention, current) && k != current && d in Doomed(sets, retention, current)
    ensures Less(d, k)
  {
    var others := NewestFirst(sets - {current});
    var doomed := Doomed(sets, retention, current);
    assert k in others;
    var i :| 0 <= i < |others| && others[i] == k;
    var j :| 0 <= j < |doomed| && doomed[j] == d;
    assert d == others[retention - 1 + j];
    assert i >= retention - 1 ==> doomed[i - (retention - 1)] == k;
  }

  lemma {:induction false} CountDistinct(names: seq<string>)
    requires Descending(names)
    ensures |set s | s in names| == |names|
  {
    if names != [] {
      CountDistinct(names[1..]);
      LessIsIrreflexive(names[0]);
      assert names[0] !in names[1..];
      assert (set s | s in names) == {names[0]} + (set s | s in names[1..]);
    }
  }

  /** A set given up once, whose deletion was interrupted, is given up again by any later run that retains no more, as long
      as the sets kept then are still there. */
  lemma DoomedStaysDoomed(
      sets: set<string>, retention: nat, current: string, later: set<string>, fewer: nat, next: string, d: string)
    requires 0 < fewer <= retention && current in sets && next !in sets
    requires d in Doomed(sets, retention, current) && d in later
    requires Kept(sets, retention, current) <= later + {current}
    ensures d in Doomed(later, fewer, next)
  {
    hide Kept, Less, NewestFirst, Descending;
    var kept := Kept(sets, retention, current) - {current};
    KeptWhenOneIsDoomed(sets, retention, current, d);
    RankDooms(later, fewer, next, d, kept);
  }

  lemma KeptWhenOneIsDoomed(sets: set<string>, retention: nat, current: string, d: string)
    requires retention > 0 && current in sets && d in Doomed(sets, retention, current)
    ensures d in sets
    ensures var kept := Kept(sets, retention, current) - {current};
      |kept| == retention - 1 && kept <= sets && forall k :: k in kept ==> Less(d, k)
  {
    hide Less, NewestFirst, Descending;
    KeepsCurrentAndNewest(sets, retention, current);
    assert Kept(sets, retention, current) == Kept(sets, retention, current) - {current} + {current};
  }

  /** A set with so many newer ones is given up. */
  lemma RankDooms(sets: set<string>, retention: nat, current: string, d: string, newer: set<string>)
    requires retention > 0 && d in sets && d != current && |newer| >= retention - 1
    requires newer <= sets - {current} && forall k :: k in newer ==> Less(d, k)
    ensures d in Doomed(sets, retention, current)
  {
    hide Less, NewestFirst, Descending;
    var others := NewestFirst(sets - {current});
    assert d in others;
    var j :| 0 <= j < |others| && others[j] == d;
    RankIsCount(others, j, newer);
    assert d == others[retention - 1..][j - (retention - 1)];
  }

  lemma RankIsCount(names: seq<string>, j: nat, newer: set<string>)
    requires Descending(names) && j < |names|
    requires forall k :: k in newer ==> k in names && Less(names[j], k)
    ensures |newer| <= j
  {
    hide Less;
    var before := set s | s in names[..j];
    CountDistinct(names[..j]);
    forall k | k in newer
      ensures k in before
    {
      IsBefore(names, j, k);
    }
    SubsetIsSmaller(newer, before);
  }

  lemma IsBefore(names: seq<string>, j: nat, k: string)
    requires Descending(names) && j < |names| && k in names && Less(names[j], k)
    ensures k in names[..j]
  {
    var i :| 0 <= i < |names| && names[i] == k;
    LessIsIrreflexive(k);
    if i > j {
      LessIsTransitive(k, names[j], k);
    }
  }

  lemma SubsetIsSmaller(a: set<string>, b: set<string>)
    requires a <= b
    ensures |a| <= |b|
  {
    assert b == a + (b - a);
  }
}
