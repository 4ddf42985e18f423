/** The pool of concurrent RDAP checks: a bounded number under way, refilled until enough candidates are written. */
module RdapPool {
  import opened Filtering
  import opened Pacing
  import opened AttemptLog

  datatype Checked = Checked(domain: string, lifecycle: string, daysToPendingDelete: Option<real>)

  datatype Settings = Settings(
    concurrency: int, maxChecks: int, limitOutput: int,
    lifecycles: set<string>, minDays: Option<int>, maxDays: Option<int>,
    debug: bool, debugLimit: int)
  {
    function Target(): (t: int)
      ensures t >= 1 && t >= concurrency && (t == 1 || t == concurrency)
    {
      if concurrency < 1 then 1 else concurrency
    }

    /** `result_is_accepted`. */
    predicate Accepts(r: Checked) {
      && r.lifecycle in lifecycles
      && (r.lifecycle == "redemption" && (minDays.Some? || maxDays.Some?) ==>
            && r.daysToPendingDelete.Some?
            && (minDays.Some? ==> r.daysToPendingDelete.value >= minDays.value as real)
            && (maxDays.Some? ==> r.daysToPendingDelete.value <= maxDays.value as real))
    }
  }

  /** Another lifecycle is never accepted. One that is accepted outside redemption is not asked for its days; in redemption it
      has to meet each bound that is given, for which its days must be known. */
  lemma AcceptedExactly(s: Settings, r: Checked)
    ensures r.lifecycle !in s.lifecycles ==> !s.Accepts(r)
    ensures r.lifecycle in s.lifecycles && r.lifecycle != "redemption" ==> s.Accepts(r)
    ensures r.lifecycle in s.lifecycles && s.minDays.None? && s.maxDays.None? ==> s.Accepts(r)
    ensures var d := r.daysToPendingDelete;
      r.lifecycle in s.lifecycles && r.lifecycle == "redemption" && (s.minDays.Some? || s.maxDays.Some?) ==>
        && (d.None? ==> !s.Accepts(r))
        && (d.Some? ==> (s.Accepts(r) <==> !(s.minDays.Some? && d.value < s.minDays.value as real)
                                           && !(s.maxDays.Some? && d.value > s.maxDays.value as real)))
  {
  }

  predicate InRedemption(r: Checked) {
    r.lifecycle == "redemption"
  }

  function Results(order: seq<nat>, check: nat -> Checked): (r: seq<Checked>)
    ensures |r| == |order|
  {
    seq(|order|, i requires 0 <= i < |order| => check(order[i]))
  }

  function Lifecycles(results: seq<Checked>): (l: seq<string>)
    ensures |l| == |results|
  {
    seq(|results|, i requires 0 <= i < |results| => results[i].lifecycle)
  }

  /** The numbers below `n` are those of `order`, each there once, and those still `out`. */
  ghost predicate EachOnce(order: seq<nat>, out: set<nat>, n: nat) {
    && (forall i, j :: 0 <= i < j < |order| ==> order[i] != order[j])
    && (forall x: nat :: x in order ==> x < n && x !in out)
    && (forall x: nat :: x in out ==> x < n)
    && (forall x: nat :: x < n ==> x in order || x in out)
  }

  /** What is written when these results were looked at in this order: the first accepted ones up to the limit. */
  ghost predicate Output(
      s: Settings, results: seq<Checked>, rows: seq<Checked>, written: nat, debugRows: seq<Checked>,
      lifecycleCounts: map<string, nat>)
  {
    && rows == AtMost(Filtered(results, s.Accepts), s.limitOutput) && written == |rows|
    && debugRows == (if s.debug then AtMost(Filtered(results, InRedemption), s.debugLimit) else [])
    && Counts(lifecycleCounts, Lifecycles(results))
  }

  lemma OutputGrows(
      s: Settings, results: seq<Checked>, rows: seq<Checked>, written: nat, debugRows: seq<Checked>,
      lifecycleCounts: map<string, nat>, r: Checked)
    requires Output(s, results, rows, written, debugRows, lifecycleCounts)
    ensures var shown := s.debug && InRedemption(r) && |debugRows| < s.debugLimit;
      var wanted := written < s.limitOutput && s.Accepts(r);
      Output(s, results + [r], if wanted then rows + [r] else rows, if wanted then written + 1 else written,
        if shown then debugRows + [r] else debugRows, AddCount(lifecycleCounts, r.lifecycle))
  {
    hide Settings.Accepts, Counts, AddCount, AtMost, InRedemption, Lifecycles;
    FilteredOneMore(results, s.Accepts, r);
    FilteredOneMore(results, InRedemption, r);
    AtMostOneMore(Filtered(results, s.Accepts), s.limitOutput, r);
    AtMostOneMore(Filtered(results, InRedemption), s.debugLimit, r);
    AddCountCounts(lifecycleCounts, Lifecycles(results), r.lifecycle);
    LifecyclesGrow(results, r);
  }

  lemma LifecyclesGrow(results: seq<Checked>, r: Checked)
    ensures Lifecycles(results + [r]) == Lifecycles(results) + [r.lifecycle]
  {
  }

  function Smaller(limit: int, n: nat): nat {
    if limit < 0 then 0 else if limit < n then limit else n
  }

  /** All that completed in these waits. */
  function Total(waits: seq<nat>): nat {
    if waits == [] then 0 else Total(waits[..|waits| - 1]) + waits[|waits| - 1]
  }

  /** The waits in which nothing completed. */
  function TimedOut(waits: seq<nat>): nat {
    if waits == [] then 0
    else TimedOut(waits[..|waits| - 1]) + if waits[|waits| - 1] == 0 then 1 else 0
  }

  lemma OneMoreWait(waits: seq<nat>, n: nat)
    ensures Total(waits + [n]) == Total(waits) + n
    ensures TimedOut(waits + [n]) == TimedOut(waits) + if n == 0 then 1 else 0
  {
    assert (waits + [n])[..|waits|] == waits;
  }

  class Pool {
    const settings: Settings
    const source: seq<string>
    /** What the check of the i-th submitted domain finds. */
    const check: nat -> Checked
    var position: nat
    var exhausted: bool
    var submitted: nat
    /** The domains submitted, in order. */
    var domains: seq<string>
    var pending: set<nat>
    var completed: nat
    var written: nat
    var rows: seq<Checked>
    var debugRows: seq<Checked>
    var lifecycleCounts: map<string, nat>
    /** Submission numbers in the order their results were looked at. */
    ghost var order: seq<nat>
    /** How many completed in each wait. */
    ghost var waits: seq<nat>

    /** `waiting` have completed and still wait to be looked at. */
    ghost predicate Valid(waiting: set<nat>)
      reads this`position, this`exhausted, this`submitted, this`domains, this`pending, this`completed, this`order, this`waits
    {
      && position == submitted <= |source| && domains == source[..submitted]
      && (exhausted ==> position == |source|)
      && (submitted > 0 ==> submitted <= settings.maxChecks)
      && pending !! waiting && |pending| <= settings.Target()
      && EachOnce(order, pending + waiting, submitted)
      && completed == |order| && |order| + |pending| + |waiting| == submitted && Total(waits) == |order| + |waiting|
    }

    ghost predicate Outputs()
      reads this`order, this`rows, this`written, this`debugRows, this`lifecycleCounts
    {
      Output(settings, Results(order, check), rows, written, debugRows, lifecycleCounts)
    }

    /** No more can be submitted. */
    predicate NothingLeft()
      reads this`exhausted, this`submitted
    {
      exhausted || submitted >= settings.maxChecks
    }

    constructor (settings: Settings, source: seq<string>, check: nat -> Checked)
      ensures Valid({}) && Outputs() && submitted == 0 && waits == []
      ensures this.settings == settings && this.source == source && this.check == check
    {
      this.settings, this.source, this.check := settings, source, check;
      position, exhausted, submitted, pending, completed, written := 0, false, 0, {}, 0, 0;
      rows, debugRows, lifecycleCounts, domains, order, waits := [], [], map[], [], [], [];
    }

    /** `submit_next`: starts the check of the next domain of the source. */
    method SubmitNext() returns (started: bool)
      requires Valid({}) && |pending| < settings.Target()
      modifies this`position, this`exhausted, this`submitted, this`domains, this`pending
      ensures Valid({})
      ensures started ==> submitted == old(submitted) + 1 && pending == old(pending) + {old(submitted)}
      ensures started ==> |pending| == |old(pending)| + 1
      ensures started ==> |old(domains)| < |source| && domains == old(domains) + [source[|old(domains)|]]
      ensures !started ==> submitted == old(submitted) && domains == old(domains) && pending == old(pending) && NothingLeft()
    {
      hide Total;
      if exhausted || submitted >= settings.maxChecks {
        return false;
      }
      if position == |source| {
        exhausted := true;
        return false;
      }
      domains, position := domains + [source[position]], position + 1;
      pending := pending + {submitted};
      submitted := submitted + 1;
      started := true;
    }

    /** What is still to be done: a domain not yet submitted counts twice, one under way once. */
    function Remaining(): int
      reads this`submitted, this`pending
    {
      2 * (|source| - submitted) + |pending|
    }

    lemma RemainingIsNatural()
      requires Valid({})
      ensures Remaining() >= 0
    {
    }

    /** Submits while there is room and, unless at the start, output is still wanted. */
    method Refill(start: bool)
      requires Valid({}) && Outputs()
      modifies this`position, this`exhausted, this`submitted, this`domains, this`pending
      ensures Valid({}) && Outputs() && Remaining() <= old(Remaining())
      ensures NothingLeft() || |pending| == settings.Target() || (!start && written >= settings.limitOutput)
    {
      hide Outputs, EachOnce;
      var more := true;
      while more && (start || written < settings.limitOutput) && |pending| < settings.Target()
        invariant Valid({}) && Outputs() && Remaining() <= old(Remaining())
        invariant more || NothingLeft()
        decreases more, |source| - submitted
      {
        more := SubmitNext();
      }
    }

    /** One result: counted by lifecycle, shown for debugging if in redemption, written if wanted. */
    method ProcessOne(task: nat, waiting: set<nat>)
      requires Valid(waiting) && Outputs() && task in waiting
      modifies this`completed, this`written, this`rows, this`debugRows, this`lifecycleCounts, this`order
      ensures Valid(waiting - {task}) && Outputs() && order == old(order) + [task]
    {
      hide Output, EachOnce, Settings.Target, Results;
      completed := completed + 1;
      OneMoreResult(order, check, task);
      Emit(check(task));
      order := order + [task];
      StillValid(old(order), waiting, task);
    }

    lemma StillValid(before: seq<nat>, waiting: set<nat>, task: nat)
      requires task in waiting && order == before + [task]
      requires position == submitted <= |source| && domains == source[..submitted] && (exhausted ==> position == |source|)
      requires submitted > 0 ==> submitted <= settings.maxChecks
      requires pending !! waiting && |pending| <= settings.Target() && EachOnce(before, pending + waiting, submitted)
      requires completed == |before| + 1 && |before| + |pending| + |waiting| == submitted
      requires Total(waits) == |before| + |waiting|
      ensures Valid(waiting - {task})
    {
      hide Settings.Target, EachOnce;
      EachStillOnce(before, pending + waiting, submitted, task);
      assert pending + waiting - {task} == pending + (waiting - {task});
    }

    method Emit(result: Checked)
      requires Outputs()
      modifies this`written, this`rows, this`debugRows, this`lifecycleCounts
      ensures Output(settings, Results(order, check) + [result], rows, written, debugRows, lifecycleCounts)
    {
      hide Output, Settings.Accepts, Results, AddCount;
      OutputGrows(settings, Results(order, check), rows, written, debugRows, lifecycleCounts, result);
      lifecycleCounts := AddCount(lifecycleCounts, result.lifecycle);
      if settings.debug && InRedemption(result) && |debugRows| < settings.debugLimit {
        debugRows := debugRows + [result];
      }
      if written < settings.limitOutput && settings.Accepts(result) {
        rows := rows + [result];
        written := written + 1;
      }
    }

    /** `_process_completed_futures`, in any order of the completed. */
    method Process(done: set<nat>)
      requires Valid(done) && Outputs()
      modifies this`completed, this`written, this`rows, this`debugRows, this`lifecycleCounts, this`order
      ensures Valid({}) && Outputs() && old(order) <= order
    {
      hide Outputs, EachOnce;
      var todo := done;
      while todo != {}
        invariant Valid(todo) && Outputs() && old(order) <= order
        decreases |todo|
      {
        var task :| task in todo;
        ProcessOne(task, todo);
        todo := todo - {task};
      }
    }

    /** `_run_rdap_pool`, followed until more than `idle` waits have timed out without a completion. Every turn either
        times out or completes something, which brings the end nearer, so only such waits can keep it going. */
    method Run(idle: nat) returns (finished: bool)
      requires Valid({}) && Outputs() && submitted == 0
      modifies this
      ensures Valid({}) && Outputs() && (!finished ==> TimedOut(waits) - TimedOut(old(waits)) > idle)
      ensures finished ==> pending == {} && (NothingLeft() || written >= settings.limitOutput)
      ensures finished ==> EachOnce(order, {}, submitted) && |order| == submitted == Total(waits)
      ensures finished ==> domains == source[..submitted]
      ensures finished ==> written == Smaller(settings.limitOutput, |Filtered(Results(order, check), settings.Accepts)|)
    {
      hide Outputs, Valid, NothingLeft, Remaining, Total, TimedOut, EachOnce, Results, Settings.Accepts, Smaller;
      Refill(true);
      var patience := idle;
      finished := true;
      while pending != {}
        invariant Valid({}) && Outputs() && finished
        invariant TimedOut(waits) - TimedOut(old(waits)) + patience == idle
        invariant NothingLeft() || |pending| == settings.Target() || written >= settings.limitOutput
        decreases Remaining(), patience
      {
        RemainingIsNatural();
        var timedOut := Turn();
        if timedOut {
          if patience == 0 {
            finished := false;
            return;
          }
          patience := patience - 1;
        }
      }
      Drained();
    }

    /** One turn: what completed is processed and the pool refilled, unless the wait timed out. */
    method Turn() returns (timedOut: bool)
      requires Valid({}) && Outputs() && pending != {}
      requires NothingLeft() || |pending| == settings.Target() || written >= settings.limitOutput
      modifies this
      ensures Valid({}) && Outputs()
      ensures NothingLeft() || |pending| == settings.Target() || written >= settings.limitOutput
      ensures TimedOut(waits) == TimedOut(old(waits)) + if timedOut then 1 else 0
      ensures if timedOut then Remaining() == old(Remaining()) else Remaining() < old(Remaining())
    {
      hide Outputs, Valid, NothingLeft, Remaining, Total, TimedOut, Settings.Target, EachOnce, Output;
      var done := Wait();
      timedOut := done == {};
      if !timedOut {
        Process(done);
        Refill(false);
      }
    }

    /** With nothing pending everything submitted was looked at once, and the rows are as many as the limit and the
        accepted results allow. */
    lemma Drained()
      requires Valid({}) && Outputs() && pending == {}
      ensures EachOnce(order, {}, submitted) && |order| == submitted == Total(waits)
      ensures domains == source[..submitted]
      ensures written == Smaller(settings.limitOutput, |Filtered(Results(order, check), settings.Accepts)|)
    {
      hide EachOnce, Settings.Accepts, Results;
      assert pending + {} == {};
    }

    /** `wait`: the checks that completed; none when it timed out. */
    method Wait() returns (done: set<nat>)
      requires Valid({})
      modifies this`pending, this`waits
      ensures Valid(done) && done <= old(pending) && pending == old(pending) - done
      ensures waits == old(waits) + [|done|]
      ensures TimedOut(waits) == TimedOut(old(waits)) + if done == {} then 1 else 0
      ensures if done == {} then Remaining() == old(Remaining()) else Remaining() < old(Remaining())
    {
      hide EachOnce, Total, TimedOut, Settings.Target;
      done :| done <= pending;
      OneMoreWait(waits, |done|);
      assert pending + {} == pending - done + done;
      assert |pending| == |done| + |pending - done|;
      pending, waits := pending - done, waits + [|done|];
    }
  }

  lemma OneMoreResult(order: seq<nat>, check: nat -> Checked, task: nat)
    ensures Results(order + [task], check) == Results(order, check) + [check(task)]
  {
  }

  lemma EachStillOnce(order: seq<nat>, out: set<nat>, n: nat, task: nat)
    requires EachOnce(order, out, n) && task in out
    ensures EachOnce(order + [task], out - {task}, n)
  {
  }
}
