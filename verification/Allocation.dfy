/** Assigning tasks one by one to the least loaded worker, and why no other assignment does better. */
module Allocation {

  /** Open tasks by worker; a worker that is not a key has none. */
  type Counts = map<nat, nat>

  function Of(counts: Counts, worker: nat): nat {
    if worker in counts then counts[worker] else 0
  }

  /** The load of a worker once these choices are made. */
  function Load(counts: Counts, choices: seq<nat>, worker: nat): nat {
    Of(counts, worker) + multiset(choices)[worker]
  }

  /** The worker with the fewest open tasks, and among those the lowest id. */
  ghost predicate Least(workers: set<nat>, counts: Counts, choices: seq<nat>, w: nat) {
    && w in workers
    && forall v :: v in workers ==>
         Load(counts, choices, w) < Load(counts, choices, v)
         || (Load(counts, choices, w) == Load(counts, choices, v) && w <= v)
  }

  /** Every choice goes to the least loaded worker of its moment. */
  ghost predicate Greedy(workers: set<nat>, counts: Counts, choices: seq<nat>) {
    forall i :: 0 <= i < |choices| ==> Least(workers, counts, choices[..i], choices[i])
  }

  lemma GreedyGrows(workers: set<nat>, counts: Counts, choices: seq<nat>, w: nat)
    requires Greedy(workers, counts, choices) && Least(workers, counts, choices, w)
    ensures Greedy(workers, counts, choices + [w])
  {
    var more := choices + [w];
    forall i | 0 <= i < |more|
      ensures Least(workers, counts, more[..i], more[i])
    {
      assert more[..i] == choices[..i];
      assert choices[..|choices|] == choices;
    }
  }

  lemma GreedyPrefix(workers: set<nat>, counts: Counts, choices: seq<nat>, n: nat)
    requires Greedy(workers, counts, choices) && n <= |choices|
    ensures Greedy(workers, counts, choices[..n])
  {
    forall i | 0 <= i < n
      ensures choices[..n][..i] == choices[..i]
    {
    }
  }

  lemma LoadOneMore(counts: Counts, choices: seq<nat>, x: nat, w: nat)
    ensures Load(counts, choices + [x], w) == Load(counts, choices, w) + if w == x then 1 else 0
  {
  }

  /** A greedy run of some length is a shorter one and one more least loaded choice. */
  lemma LastChoice(workers: set<nat>, counts: Counts, choices: seq<nat>)
    requires Greedy(workers, counts, choices) && choices != []
    ensures var n := |choices| - 1;
      && choices == choices[..n] + [choices[n]]
      && Greedy(workers, counts, choices[..n])
      && Least(workers, counts, choices[..n], choices[n])
  {
    hide Least;
    GreedyPrefix(workers, counts, choices, |choices| - 1);
  }

  lemma OneLeast(workers: set<nat>, c: Counts, d: Counts, before: seq<nat>, x: nat, y: nat)
    requires Least(workers, c, before, x) && Least(workers, d, before, y)
    requires forall w :: w in workers ==> Of(c, w) == Of(d, w)
    ensures x == y
  {
  }

  /** The outcome depends on which workers are eligible and on their loads, not on the order of the list or on anyone
      else's load. */
  lemma {:induction false} OrderDoesNotMatter(workers: set<nat>, c: Counts, d: Counts, a: seq<nat>, b: seq<nat>)
    requires Greedy(workers, c, a) && Greedy(workers, d, b) && |a| == |b|
    requires forall w :: w in workers ==> Of(c, w) == Of(d, w)
    ensures a == b
    decreases |a|
  {
    hide Greedy, Least, Of;
    if a != [] {
      var n := |a| - 1;
      LastChoice(workers, c, a);
      LastChoice(workers, d, b);
      OrderDoesNotMatter(workers, c, d, a[..n], b[..n]);
      OneLeast(workers, c, d, a[..n], a[n], b[n]);
    }
  }

  /** Every worker that got a task ends at most one above any other. */
  lemma {:induction false} ChosenStayLow(workers: set<nat>, counts: Counts, choices: seq<nat>, w: nat, v: nat)
    requires Greedy(workers, counts, choices) && w in choices && v in workers
    ensures Load(counts, choices, w) <= Load(counts, choices, v) + 1
    decreases |choices|
  {
    hide Greedy, Load;
    var n := |choices| - 1;
    var before, x := choices[..n], choices[n];
    LastChoice(workers, counts, choices);
    LoadOneMore(counts, before, x, w);
    LoadOneMore(counts, before, x, v);
    if w != x {
      assert w in before;
      ChosenStayLow(workers, counts, before, w, v);
    }
  }

  // ---------- totals ----------

  predicate Distinct(workers: seq<nat>) {
    forall i, j :: 0 <= i < j < |workers| ==> workers[i] != workers[j]
  }

  function Total(workers: seq<nat>, counts: Counts, choices: seq<nat>): nat {
    if workers == [] then 0 else Load(counts, choices, workers[0]) + Total(workers[1..], counts, choices)
  }

  lemma {:induction false} TotalOneMore(workers: seq<nat>, counts: Counts, choices: seq<nat>, x: nat)
    requires Distinct(workers)
    ensures Total(workers, counts, choices + [x]) == Total(workers, counts, choices) + if x in workers then 1 else 0
  {
    if workers != [] {
      LoadOneMore(counts, choices, x, workers[0]);
      TotalOneMore(workers[1..], counts, choices, x);
      assert workers[0] !in workers[1..];
    }
  }

  lemma {:induction false} TotalCountsTheChoices(workers: seq<nat>, counts: Counts, choices: seq<nat>)
    requires Distinct(workers) && forall x :: x in choices ==> x in workers
    ensures Total(workers, counts, choices) == Total(workers, counts, []) + |choices|
    decreases |choices|
  {
    if choices != [] {
      var n := |choices| - 1;
      TotalCountsTheChoices(workers, counts, choices[..n]);
      TotalOneMore(workers, counts, choices[..n], choices[n]);
      assert choices == choices[..n] + [choices[n]];
    }
  }

  lemma Times(n: nat, m: nat)
    requires n > 0
    ensures n * m == (n - 1) * m + m
  {
  }

  lemma {:induction false} TotalAtMost(workers: seq<nat>, counts: Counts, choices: seq<nat>, m: nat)
    requires forall v :: v in workers ==> Load(counts, choices, v) <= m
    ensures Total(workers, counts, choices) <= |workers| * m
  {
    hide Load;
    if workers != [] {
      TotalAtMost(workers[1..], counts, choices, m);
      Times(|workers|, m);
    }
  }

  lemma {:induction false} TotalAtLeast(workers: seq<nat>, counts: Counts, choices: seq<nat>, m: nat)
    requires forall v :: v in workers ==> Load(counts, choices, v) >= m
    ensures Total(workers, counts, choices) >= |workers| * m
    ensures (exists w :: w in workers && Load(counts, choices, w) > m) ==> Total(workers, counts, choices) > |workers| * m
  {
    hide Load;
    if workers != [] {
      TotalAtLeast(workers[1..], counts, choices, m);
      Times(|workers|, m);
    }
  }

  function Members(workers: seq<nat>): set<nat> {
    set w | w in workers
  }

  /** Whatever level another assignment of as many tasks stays within, the greedy one stays within it too: its highest
      final load is the lowest possible. */
  lemma GreedyIsOptimal(workers: seq<nat>, counts: Counts, choices: seq<nat>, other: seq<nat>, m: nat)
    requires Distinct(workers) && Greedy(Members(workers), counts, choices)
    requires |other| == |choices| && forall x :: x in other ==> x in workers
    requires forall v :: v in workers ==> Load(counts, other, v) <= m
    ensures forall w :: w in workers ==> Load(counts, choices, w) <= m
  {
    forall x | x in choices
      ensures x in workers
    {
      var i :| 0 <= i < |choices| && choices[i] == x;
      assert Least(Members(workers), counts, choices[..i], x);
    }
    forall w | w in workers
      ensures Load(counts, choices, w) <= m
    {
      if w in choices && Load(counts, choices, w) > m {
        forall v | v in workers
          ensures Load(counts, choices, v) >= m
        {
          ChosenStayLow(Members(workers), counts, choices, w, v);
        }
        TotalAtLeast(workers, counts, choices, m);
        TotalAtMost(workers, counts, other, m);
        TotalCountsTheChoices(workers, counts, choices);
        TotalCountsTheChoices(workers, counts, other);
        assert false;
      } else if w !in choices {
        assert Load(counts, choices, w) == Of(counts, w) <= Load(counts, other, w);
      }
    }
  }
}
