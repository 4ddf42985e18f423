/** Reservoir sampling over the filtered stream, and its exact uniformity by counting the outcomes of the draws. */
module Reservoir {
  import opened Filtering

  // ---------- the sample as stream positions ----------

  function Range(n: nat): (s: seq<nat>) {
    seq(n, i => i)
  }

  /** Positions in the sample of size `k` after `k + |draws|` filtered entries; one draw for each entry past the
      first `k`. */
  function Sample(k: nat, draws: seq<nat>): (s: seq<nat>)
    ensures |s| == k
  {
    if draws == [] then Range(k)
    else
      var m := |draws| - 1;
      var s, r := Sample(k, draws[..m]), draws[m];
      if r < k then s[r := k + m] else s
  }

  /** The draw made when entry number `seen` is filtered in is below `seen`. */
  predicate ValidDraws(k: nat, draws: seq<nat>) {
    forall i :: 0 <= i < |draws| ==> draws[i] < k + i + 1
  }

  predicate Distinct(s: seq<nat>) {
    forall i, j :: 0 <= i < j < |s| ==> s[i] != s[j]
  }

  function Elements(s: seq<nat>): set<nat> {
    set x | x in s
  }

  /** The first `n` positions. */
  ghost function Below(n: nat): set<nat> {
    Elements(Range(n))
  }

  /** Every sample holds distinct positions of the stream. */
  lemma {:induction false} SampleIsDistinct(k: nat, draws: seq<nat>)
    ensures Distinct(Sample(k, draws))
    ensures forall x :: x in Sample(k, draws) ==> x < k + |draws|
  {
    if draws != [] {
      var m := |draws| - 1;
      SampleIsDistinct(k, draws[..m]);
      var s, r := Sample(k, draws[..m]), draws[m];
      if r < k {
        ReplacingKeepsDistinct(s, r, k + m);
        assert Sample(k, draws) == s[r := k + m];
      } else {
        assert Sample(k, draws) == s;
      }
    } else {
      assert Sample(k, draws) == Range(k);
    }
  }

  lemma ReplacingKeepsDistinct(s: seq<nat>, r: nat, n: nat)
    requires Distinct(s) && r < |s| && forall x :: x in s ==> x < n
    ensures var t := s[r := n];
      Distinct(t) && forall x :: x in t ==> x <= n
  {
    var t := s[r := n];
    forall i, j | 0 <= i < j < |t|
      ensures t[i] != t[j]
    {
      assert s[i] in s && s[j] in s;
    }
    forall x | x in t
      ensures x <= n
    {
      assert x == n || x in s;
    }
  }

  // ---------- the algorithm ----------

  /** `collect_reservoir_candidates`; `draws` are the results of `rng.randrange` in order. */
  method Collect<T>(stream: seq<T>, wanted: T -> bool, size: nat, draws: seq<nat>)
    returns (sample: seq<T>, used: nat)
    requires |Filtered(stream, wanted)| <= size + |draws|
    ensures var kept := Filtered(stream, wanted);
      && used == (if |kept| <= size then 0 else |kept| - size)
      && |sample| == (if |kept| <= size then |kept| else size)
      && (|kept| <= size ==> sample == kept)
      && (|kept| > size ==> forall i :: 0 <= i < size ==>
            Sample(size, draws[..used])[i] < |kept| && sample[i] == kept[Sample(size, draws[..used])[i]])
  {
    sample, used := [], 0;
    var seen, i := 0, 0;
    ghost var kept: seq<T> := [];
    while i < |stream|
      invariant 0 <= i <= |stream| && kept == Filtered(stream[..i], wanted) && seen == |kept|
      invariant |kept| <= |Filtered(stream, wanted)|
      invariant used == (if |kept| <= size then 0 else |kept| - size)
      invariant |kept| <= size ==> sample == kept
      invariant |kept| > size ==> |sample| == size && forall j :: 0 <= j < size ==>
        Sample(size, draws[..used])[j] < |kept| && sample[j] == kept[Sample(size, draws[..used])[j]]
    {
      assert stream[..i + 1][..i] == stream[..i];
      FilteredGrows(stream, wanted, i + 1);
      if wanted(stream[i]) {
        ghost var before := kept;
        kept := kept + [stream[i]];
        seen := seen + 1;
        if |sample| < size {
          sample := sample + [stream[i]];
        } else {
          var index := draws[used];
          assert draws[..used + 1][..used] == draws[..used];
          if used == 0 {
            assert Sample(size, draws[..0]) == Range(size) && sample == before;
          }
          if index < size {
            sample := sample[index := stream[i]];
          }
          used := used + 1;
        }
      }
      i := i + 1;
    }
    assert stream[..i] == stream;
  }

  // ---------- counting ----------

  /** All outcomes of the draws for `m` entries past the first `k`; each is equally likely. */
  ghost function Outcomes(k: nat, m: nat): (all: set<seq<nat>>)
  {
    if m == 0 then {[]} else Extend(Outcomes(k, m - 1), UpTo(k + m))
  }

  /** Which draws may continue a run: those below `n`; those below `n` that leave position `p` in the sample; the one
      that replaces position `p`; those from `k` up to `n`, which leave the whole sample as it is. */
  datatype Allowed =
    | UpTo(n: nat)
    | Sparing(n: nat, k: nat, p: nat)
    | Hitting(k: nat, p: nat)
    | Between(k: nat, n: nat)

  ghost function Draws(a: Allowed, c: seq<nat>): set<nat> {
    match a
    case UpTo(n) => Below(n)
    case Sparing(n, k, p) => set r | r in Below(n) && !(r < k && Sample(k, c)[r] == p)
    case Hitting(k, p) => set r | r in Below(k) && r < k && Sample(k, c)[r] == p
    case Between(k, n) => Below(n) - Below(k)
  }

  /** Every continuation of a run in `runs` by one allowed draw. */
  ghost function Extend(runs: set<seq<nat>>, a: Allowed): set<seq<nat>> {
    set c, r | c in runs && r in Draws(a, c) :: c + [r]
  }

  lemma InExtend(runs: set<seq<nat>>, a: Allowed, x: seq<nat>)
    ensures x in Extend(runs, a) <==> |x| > 0 && x[..|x| - 1] in runs && x[|x| - 1] in Draws(a, x[..|x| - 1])
  {
    hide Draws;
    if x in Extend(runs, a) {
      var c, r :| c in runs && r in Draws(a, c) && x == c + [r];
      assert x[..|x| - 1] == c;
    }
    if |x| > 0 && x[..|x| - 1] in runs && x[|x| - 1] in Draws(a, x[..|x| - 1]) {
      assert x == x[..|x| - 1] + [x[|x| - 1]];
    }
  }

  /** The outcomes are exactly the sequences of draws the generator can return. */
  lemma {:induction false} OutcomesAreTheValidDraws(k: nat, m: nat, c: seq<nat>)
    ensures c in Outcomes(k, m) <==> |c| == m && ValidDraws(k, c)
  {
    if m > 0 {
      InExtend(Outcomes(k, m - 1), UpTo(k + m), c);
      BelowSize(k + m);
      if |c| == m {
        OutcomesAreTheValidDraws(k, m - 1, c[..m - 1]);
        assert ValidDraws(k, c) <==> ValidDraws(k, c[..m - 1]) && c[m - 1] < k + m;
      } else if |c| > 0 {
        OutcomesAreTheValidDraws(k, m - 1, c[..|c| - 1]);
      }
    }
  }

  lemma {:induction false} BelowSize(n: nat)
    ensures |Below(n)| == n
    ensures forall x: nat :: x in Below(n) <==> x < n
  {
    forall x: nat | x < n
      ensures x in Below(n)
    {
      assert Range(n)[x] == x;
    }
    if n > 0 {
      BelowSize(n - 1);
      assert Below(n) == Below(n - 1) + {n - 1};
    }
  }

  ghost function Continued(c: seq<nat>, draws: set<nat>): set<seq<nat>> {
    set r | r in draws :: c + [r]
  }

  lemma {:induction false} OneRunSize(c: seq<nat>, draws: set<nat>)
    ensures |Continued(c, draws)| == |draws|
  {
    if draws != {} {
      var r :| r in draws;
      var rest := draws - {r};
      OneRunSize(c, rest);
      forall s | s in rest
        ensures c + [s] != c + [r]
      {
        assert (c + [s])[|c|] == s && (c + [r])[|c|] == r;
      }
      assert Continued(c, draws) == Continued(c, rest) + {c + [r]};
    }
  }

  /** Runs that each continue in `q` ways have `q` times as many continuations. */
  lemma {:induction false} ExtendSize(runs: set<seq<nat>>, a: Allowed, q: nat)
    requires forall c :: c in runs ==> |Draws(a, c)| == q
    ensures |Extend(runs, a)| == q * |runs|
  {
    hide Draws, Extend, Continued;
    if runs == {} {
      NothingToExtend(a);
    } else {
      var c :| c in runs;
      var rest, own := runs - {c}, Continued(c, Draws(a, c));
      ExtendSize(rest, a, q);
      OneRunSize(c, Draws(a, c));
      SplitExtend(runs, a, c);
      DisjointSize(Extend(rest, a), own);
      OneMore(q, |rest|, |runs|);
    }
  }

  lemma NothingToExtend(a: Allowed)
    ensures Extend({}, a) == {}
  {
  }

  lemma DisjointSize(s: set<seq<nat>>, t: set<seq<nat>>)
    requires s !! t
    ensures |s + t| == |s| + |t|
  {
  }

  lemma OneMore(q: nat, rest: nat, all: nat)
    requires all == rest + 1
    ensures q * all == q * rest + q
  {
  }

  lemma SplitExtend(runs: set<seq<nat>>, a: Allowed, c: seq<nat>)
    requires c in runs
    ensures Extend(runs, a) == Extend(runs - {c}, a) + Continued(c, Draws(a, c))
    ensures Extend(runs - {c}, a) !! Continued(c, Draws(a, c))
  {
    hide Draws;
    forall x | x in Continued(c, Draws(a, c))
      ensures x in Extend(runs, a) && x !in Extend(runs - {c}, a)
    {
      var r :| r in Draws(a, c) && x == c + [r];
      assert x[..|x| - 1] == c;
      InExtend(runs, a, x);
      InExtend(runs - {c}, a, x);
    }
    forall x | x in Extend(runs, a)
      ensures x in Extend(runs - {c}, a) || x in Continued(c, Draws(a, c))
    {
      InExtend(runs, a, x);
      InExtend(runs - {c}, a, x);
      if x[..|x| - 1] == c {
        assert x == c + [x[|x| - 1]];
      }
    }
    forall x | x in Extend(runs - {c}, a)
      ensures x in Extend(runs, a)
    {
      InExtend(runs, a, x);
      InExtend(runs - {c}, a, x);
    }
  }

  lemma OutcomesSize(k: nat, m: nat)
    requires m > 0
    ensures |Outcomes(k, m)| == (k + m) * |Outcomes(k, m - 1)|
  {
    BelowSize(k + m);
    ExtendSize(Outcomes(k, m - 1), UpTo(k + m), k + m);
  }

  /** A run of `m` draws is a run of `m - 1` draws and one more draw, which replaces a place of the sample or not. */
  lemma LastDraw(k: nat, m: nat, c: seq<nat>)
    requires m > 0 && |c| == m
    ensures c in Outcomes(k, m) <==> c[..m - 1] in Outcomes(k, m - 1) && c[m - 1] < k + m
    ensures var s := Sample(k, c[..m - 1]);
      Sample(k, c) == if c[m - 1] < k then s[c[m - 1] := k + m - 1] else s
  {
    InExtend(Outcomes(k, m - 1), UpTo(k + m), c);
    BelowSize(k + m);
  }

  lemma OutcomeLength(k: nat, m: nat, c: seq<nat>)
    requires c in Outcomes(k, m)
    ensures |c| == m
  {
    OutcomesAreTheValidDraws(k, m, c);
  }

  // ---------- each position ----------

  /** Runs whose sample holds this position. */
  ghost function Holding(k: nat, m: nat, p: nat): set<seq<nat>> {
    set c | c in Outcomes(k, m) && p in Sample(k, c)
  }

  /** Each stream position is in the sample in exactly `k` of every `n` runs. */
  lemma {:induction false} EveryPositionIsEquallyLikely(k: nat, m: nat, p: nat)
    requires p < k + m
    ensures (k + m) * |Holding(k, m, p)| == k * |Outcomes(k, m)|
    decreases m
  {
    hide Outcomes, Holding, Sample;
    if m == 0 {
      EveryPositionIsHeldAtFirst(k, p);
    } else {
      OutcomesSize(k, m);
      if p == k + m - 1 {
        NewestIsHeld(k, m);
        assert (k + m) * (k * |Outcomes(k, m - 1)|) == k * ((k + m) * |Outcomes(k, m - 1)|);
      } else {
        EveryPositionIsEquallyLikely(k, m - 1, p);
        OlderIsHeld(k, m, p);
        Rescale(k + m, k + m - 1, |Holding(k, m - 1, p)|, k, |Outcomes(k, m - 1)|);
      }
    }
  }

  lemma Rescale(n: nat, q: nat, held: nat, k: nat, total: nat)
    requires q * held == k * total
    ensures n * (q * held) == k * (n * total)
  {
  }

  lemma EveryPositionIsHeldAtFirst(k: nat, p: nat)
    requires p < k
    ensures k * |Holding(k, 0, p)| == k * |Outcomes(k, 0)|
  {
    assert Range(k)[p] == p;
    assert Holding(k, 0, p) == {[]};
  }

  lemma NewestIsHeld(k: nat, m: nat)
    requires m > 0
    ensures |Holding(k, m, k + m - 1)| == k * |Outcomes(k, m - 1)|
  {
    hide Outcomes, Sample;
    var p, runs := k + m - 1, Outcomes(k, m - 1);
    BelowSize(k);
    forall c: seq<nat>
      ensures c in Holding(k, m, p) <==> c in Extend(runs, UpTo(k))
    {
      InExtend(runs, UpTo(k), c);
      if c in Outcomes(k, m) {
        OutcomeLength(k, m, c);
      }
      if c in Extend(runs, UpTo(k)) {
        OutcomeLength(k, m - 1, c[..|c| - 1]);
      }
      if |c| == m {
        LastDraw(k, m, c);
        LastDrawHolds(k, m, c, p);
      }
    }
    assert Holding(k, m, p) == Extend(runs, UpTo(k));
    ExtendSize(runs, UpTo(k), k);
  }

  /** After one more draw the sample holds the newest position exactly if the draw was below `k`, and an older
      position exactly if it was held and not replaced. */
  lemma LastDrawHolds(k: nat, m: nat, c: seq<nat>, p: nat)
    requires m > 0 && |c| == m && p < k + m
    ensures var s, r := Sample(k, c[..m - 1]), c[m - 1];
      p in Sample(k, c) <==>
        if p == k + m - 1 then r < k else p in s && !(r < k && s[r] == p)
  {
    var s, r, t := Sample(k, c[..m - 1]), c[m - 1], Sample(k, c);
    SampleIsDistinct(k, c[..m - 1]);
    LastDraw(k, m, c);
    if r < k {
      assert t[r] == k + m - 1;
    }
    if p != k + m - 1 {
      KeepsOlder(s, r, k + m - 1, p);
    }
  }

  lemma OlderIsHeld(k: nat, m: nat, p: nat)
    requires m > 0 && p < k + m - 1
    ensures |Holding(k, m, p)| == (k + m - 1) * |Holding(k, m - 1, p)|
  {
    hide Outcomes, Sample;
    var runs, a := Holding(k, m - 1, p), Sparing(k + m, k, p);
    BelowSize(k + m);
    forall c | c in runs
      ensures |Draws(a, c)| == k + m - 1
    {
      SparingSize(k, m, p, c);
    }
    ExtendSize(runs, a, k + m - 1);
    forall c: seq<nat>
      ensures c in Holding(k, m, p) <==> c in Extend(runs, a)
    {
      InExtend(runs, a, c);
      if c in Outcomes(k, m) {
        OutcomeLength(k, m, c);
      }
      if c in Extend(runs, a) {
        OutcomeLength(k, m - 1, c[..|c| - 1]);
      }
      if |c| == m {
        LastDraw(k, m, c);
        LastDrawHolds(k, m, c, p);
      }
    }
    assert Holding(k, m, p) == Extend(runs, a);
  }

  lemma SparingSize(k: nat, m: nat, p: nat, c: seq<nat>)
    requires m > 0 && p in Sample(k, c)
    ensures |Draws(Sparing(k + m, k, p), c)| == k + m - 1
  {
    SampleIsDistinct(k, c);
    var s := Sample(k, c);
    var i :| 0 <= i < k && s[i] == p;
    BelowSize(k + m);
    assert Draws(Sparing(k + m, k, p), c) == Below(k + m) - {i};
  }

  /** Replacing one place of a sample keeps another position exactly if that place did not hold it. */
  lemma KeepsOlder(s: seq<nat>, r: nat, newest: nat, p: nat)
    requires Distinct(s) && p != newest
    ensures var t := if r < |s| then s[r := newest] else s;
      p in t <==> p in s && !(r < |s| && s[r] == p)
  {
    var t := if r < |s| then s[r := newest] else s;
    if p in s && !(r < |s| && s[r] == p) {
      var i :| 0 <= i < |s| && s[i] == p;
      assert t[i] == p;
    }
    if p in t {
      var i :| 0 <= i < |t| && t[i] == p;
      assert s[i] == p;
    }
  }

  // ---------- each set of positions ----------

  function Factorial(n: nat): nat {
    if n == 0 then 1 else n * Factorial(n - 1)
  }

  /** Runs that end with exactly the positions of `chosen` in the sample. */
  ghost function Choosing(k: nat, m: nat, chosen: set<nat>): set<seq<nat>> {
    set c | c in Outcomes(k, m) && Elements(Sample(k, c)) == chosen
  }

  /** Sampling is uniform: every set of `k` of the `k + m` positions comes out in the same number of runs, `m!`. */
  lemma {:induction false} EverySampleIsEquallyLikely(k: nat, m: nat, chosen: set<nat>)
    requires chosen <= Below(k + m) && |chosen| == k
    ensures |Choosing(k, m, chosen)| == Factorial(m)
    decreases m
  {
    hide Choosing, Outcomes, Sample, Draws, Extend, Below, Replacing;
    if m == 0 {
      OnlyTheFirst(k, chosen);
    } else if k + m - 1 !in chosen {
      BelowSize(k + m - 1);
      BelowSize(k + m);
      EverySampleIsEquallyLikely(k, m - 1, chosen);
      NewestNotChosen(k, m, chosen);
    } else {
      var rest := Below(k + m - 1) - chosen;
      BelowSize(k + m - 1);
      BelowSize(k + m);
      forall x | x in rest
        ensures |Choosing(k, m - 1, chosen - {k + m - 1} + {x})| == Factorial(m - 1)
      {
        EverySampleIsEquallyLikely(k, m - 1, chosen - {k + m - 1} + {x});
      }
      CountReplacing(k, m, chosen, rest, Factorial(m - 1));
      NewestChosen(k, m, chosen);
      LeftOutSize(k, m, chosen);
    }
  }

  lemma OnlyTheFirst(k: nat, chosen: set<nat>)
    requires chosen <= Below(k) && |chosen| == k
    ensures |Choosing(k, 0, chosen)| == 1
  {
    BelowSize(k);
    assert Below(k) == chosen + (Below(k) - chosen);
    assert |Below(k) - chosen| == 0;
    assert Elements(Sample(k, [])) == Below(k) == chosen;
    assert Choosing(k, 0, chosen) == {[]};
  }

  lemma LeftOutSize(k: nat, m: nat, chosen: set<nat>)
    requires m > 0 && chosen <= Below(k + m) && |chosen| == k && k + m - 1 in chosen
    ensures |Below(k + m - 1) - chosen| == m
  {
    BelowSize(k + m - 1);
    BelowSize(k + m);
    var older := chosen - {k + m - 1};
    assert Below(k + m - 1) == older + (Below(k + m - 1) - chosen);
  }

  /** A replaced place takes the newest position in exchange for the one it held. */
  lemma ReplacedElements(s: seq<nat>, r: nat, n: nat)
    requires Distinct(s) && r < |s| && n !in s
    ensures Elements(s[r := n]) == Elements(s) - {s[r]} + {n}
  {
    var t := s[r := n];
    forall x
      ensures x in t <==> x == n || (x in s && x != s[r])
    {
      if x in t {
        var i :| 0 <= i < |t| && t[i] == x;
        assert i != r ==> s[i] == x;
      }
      if x in s && x != s[r] {
        var i :| 0 <= i < |s| && s[i] == x;
        assert t[i] == x;
      }
      assert t[r] == n;
    }
  }

  /** What one more draw makes of the set of held positions. */
  lemma LastDrawChooses(k: nat, m: nat, c: seq<nat>)
    requires m > 0 && |c| == m
    ensures var s, r := Sample(k, c[..m - 1]), c[m - 1];
      && k + m - 1 !in s
      && Elements(Sample(k, c)) == if r < k then Elements(s) - {s[r]} + {k + m - 1} else Elements(s)
  {
    hide Sample;
    var s, r := Sample(k, c[..m - 1]), c[m - 1];
    LastDraw(k, m, c);
    SampleIsDistinct(k, c[..m - 1]);
    if r < k {
      ReplacedElements(s, r, k + m - 1);
    }
  }

  lemma NewestNotChosen(k: nat, m: nat, chosen: set<nat>)
    requires m > 0 && k + m - 1 !in chosen
    ensures |Choosing(k, m, chosen)| == m * |Choosing(k, m - 1, chosen)|
  {
    hide Outcomes, Sample, Draws, Extend;
    var runs, a := Choosing(k, m - 1, chosen), Between(k, k + m);
    forall c: seq<nat>
      ensures c in Choosing(k, m, chosen) <==> c in Extend(runs, a)
    {
      InExtend(runs, a, c);
      if c in Outcomes(k, m) {
        OutcomeLength(k, m, c);
      }
      if c in Extend(runs, a) {
        OutcomeLength(k, m - 1, c[..|c| - 1]);
      }
      if |c| == m {
        LastDraw(k, m, c);
        LastDrawChooses(k, m, c);
        BetweenSize(k, m, c);
      }
    }
    assert Choosing(k, m, chosen) == Extend(runs, a);
    forall c | c in runs
      ensures |Draws(a, c)| == m
    {
      BetweenSize(k, m, c);
    }
    ExtendSize(runs, a, m);
  }

  lemma BetweenSize(k: nat, m: nat, c: seq<nat>)
    ensures |Draws(Between(k, k + m), c)| == m
    ensures |c| > 0 ==> (c[|c| - 1] in Draws(Between(k, k + m), c[..|c| - 1]) <==> k <= c[|c| - 1] < k + m)
  {
    BelowSize(k);
    BelowSize(k + m);
    assert Below(k + m) == Below(k) + (Below(k + m) - Below(k));
  }

  /** Runs that choose these positions and whose last draw replaced one of `gone`. */
  ghost function Replacing(k: nat, m: nat, chosen: set<nat>, gone: set<nat>): set<seq<nat>>
    requires m > 0
  {
    set c | c in Choosing(k, m, chosen) && |c| == m && c[m - 1] < k && Sample(k, c[..m - 1])[c[m - 1]] in gone
  }

  lemma NewestChosen(k: nat, m: nat, chosen: set<nat>)
    requires m > 0 && k + m - 1 in chosen
    ensures Choosing(k, m, chosen) == Replacing(k, m, chosen, Below(k + m - 1) - chosen)
  {
    hide Outcomes, Sample;
    BelowSize(k + m - 1);
    forall c | c in Choosing(k, m, chosen)
      ensures c in Replacing(k, m, chosen, Below(k + m - 1) - chosen)
    {
      OutcomeLength(k, m, c);
      LastDrawChooses(k, m, c);
      SampleIsDistinct(k, c[..m - 1]);
      assert c[m - 1] < k;
      assert Sample(k, c[..m - 1])[c[m - 1]] in Sample(k, c[..m - 1]);
    }
  }

  lemma {:induction false} CountReplacing(k: nat, m: nat, chosen: set<nat>, gone: set<nat>, each: nat)
    requires m > 0 && k + m - 1 in chosen && gone !! chosen
    requires forall x :: x in gone ==> |Choosing(k, m - 1, chosen - {k + m - 1} + {x})| == each
    ensures |Replacing(k, m, chosen, gone)| == each * |gone|
    decreases gone
  {
    hide Choosing, Sample, Replacing;
    if gone == {} {
      NothingReplaced(k, m, chosen);
    } else {
      var x :| x in gone;
      var rest := gone - {x};
      CountReplacing(k, m, chosen, rest, each);
      CountReplacingOne(k, m, chosen, x);
      SplitReplacing(k, m, chosen, rest, x);
      assert rest + {x} == gone;
      DisjointSize(Replacing(k, m, chosen, rest), Replacing(k, m, chosen, {x}));
      OneMore(each, |rest|, |gone|);
    }
  }

  lemma NothingReplaced(k: nat, m: nat, chosen: set<nat>)
    requires m > 0
    ensures Replacing(k, m, chosen, {}) == {}
  {
  }

  lemma SplitReplacing(k: nat, m: nat, chosen: set<nat>, rest: set<nat>, x: nat)
    requires m > 0 && x !in rest
    ensures Replacing(k, m, chosen, rest + {x}) == Replacing(k, m, chosen, rest) + Replacing(k, m, chosen, {x})
    ensures Replacing(k, m, chosen, rest) !! Replacing(k, m, chosen, {x})
  {
    hide Choosing, Sample;
  }

  lemma CountReplacingOne(k: nat, m: nat, chosen: set<nat>, x: nat)
    requires m > 0 && k + m - 1 in chosen && x !in chosen
    ensures |Replacing(k, m, chosen, {x})| == |Choosing(k, m - 1, chosen - {k + m - 1} + {x})|
  {
    hide Outcomes, Sample;
    var runs, a := Choosing(k, m - 1, chosen - {k + m - 1} + {x}), Hitting(k, x);
    forall c | c in runs
      ensures |Draws(a, c)| == 1
    {
      HittingSize(k, x, c);
    }
    forall c: seq<nat>
      ensures c in Replacing(k, m, chosen, {x}) <==> c in Extend(runs, a)
    {
      InExtend(runs, a, c);
      if c in Extend(runs, a) {
        OutcomeLength(k, m - 1, c[..|c| - 1]);
      }
      if |c| == m {
        BelowSize(k);
        LastDraw(k, m, c);
        LastDrawChooses(k, m, c);
        SwapBack(Elements(Sample(k, c[..m - 1])), chosen, x, k + m - 1);
      }
    }
    assert Replacing(k, m, chosen, {x}) == Extend(runs, a);
    ExtendSize(runs, a, 1);
  }

  lemma SwapBack(before: set<nat>, chosen: set<nat>, x: nat, newest: nat)
    requires newest in chosen && x !in chosen
    ensures newest !in before && x in before ==> (before - {x} + {newest} == chosen <==> before == chosen - {newest} + {x})
  {
    if newest !in before && x in before {
      if before - {x} + {newest} == chosen {
        assert before == chosen - {newest} + {x};
      }
    }
  }

  lemma HittingSize(k: nat, x: nat, c: seq<nat>)
    requires x in Elements(Sample(k, c))
    ensures |Draws(Hitting(k, x), c)| == 1
  {
    SampleIsDistinct(k, c);
    BelowSize(k);
    var i :| 0 <= i < k && Sample(k, c)[i] == x;
    assert Draws(Hitting(k, x), c) == {i};
  }
}
