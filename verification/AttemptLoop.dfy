/** The loop that dispatches registration attempts at a limited rate and concurrency until one succeeds, the run is
    stopped or its window closes. Clock readings, control answers, completions and their order are arbitrary. */
module AttemptLoop {
  import opened Pacing
  import opened ResponseSamples
  import opened AttemptLog

  datatype Status = Success | Stopped | Failed

  datatype Report = Report(
    status: Status,
    totalAttempts: nat,
    successAttempts: nat,
    latency: Option<real>,
    lastError: Option<string>,
    statusCounts: map<Option<int>, nat>,
    errorCounts: map<string, nat>)

  datatype Outcome = StillRunning | Reported(report: Report)

  // ---------- what the log shows ----------

  /** What the loop's variables say of the log: when the next dispatch and the next poll are due, the rate in force, the
      stop flag, and how many attempts are under way, those that completed and still wait to be looked at included. */
  datatype Shown = Shown(due: real, pollAt: real, rate: real, stopped: bool, inFlight: int, waiting: nat)

  function ShownBy(s: State): Shown {
    Shown(s.pace.due, s.pollAt, s.pace.rate, s.stopped, InFlight(s), s.waiting)
  }

  ghost predicate InStep(limits: Limits, log: seq<Event>, clock: real, shown: Shown) {
    Proper(limits, log) && log[|log| - 1].at <= clock && ShownBy(After(log)) == shown
  }

  /** The turn has polled if it had to, saw the window open or late at its head, and by `now` tests its first dispatch. */
  ghost predicate Polled(log: seq<Event>, now: real, late: bool) {
    var s := After(log);
    s.late == late && !s.owed && (s.first ==> s.began == now)
  }

  /** How many turns could dispatch, and in how many others nothing completed. */
  ghost function Turns(log: seq<Event>): (nat, nat) {
    (After(log).openTurns, After(log).idleTurns)
  }

  lemma InStepLater(limits: Limits, log: seq<Event>, clock: real, shown: Shown, later: real)
    requires InStep(limits, log, clock, shown) && clock <= later
    ensures InStep(limits, log, later, shown)
  {
  }

  lemma BeginningIsInStep(limits: Limits, log: seq<Event>, clock: real, shown: Shown, late: bool)
    requires InStep(limits, log, clock, shown) && shown.waiting == 0
    ensures var more := log + [Began(clock, late)];
      && InStep(limits, more, clock, shown)
      && After(more).pace == After(log).pace && Turns(more) == Turns(log)
      && After(more).began == clock && After(more).owed == (clock >= shown.pollAt)
      && (clock < shown.pollAt ==> Polled(more, clock, late))
      && After(more).late == late && After(more).first
  {
    hide Proper, After;
    ProperGrows(limits, log, Began(clock, late));
  }

  lemma AdoptingIsInStep(limits: Limits, log: seq<Event>, clock: real, shown: Shown, rps: real)
    requires InStep(limits, log, clock, shown) && shown.waiting == 0
    requires After(log).owed && After(log).first
    ensures var more, s := log + [Adopted(clock, rps)], After(log);
      && InStep(limits, more, clock, shown.(
           due := if Restarts(shown.rate, rps) then clock + Interval(rps) else shown.due,
           rate := rps, pollAt := s.began + 0.5))
      && After(more).pace.sent == s.pace.sent && Turns(more) == Turns(log)
      && Polled(more, s.began, s.late)
  {
    hide Proper, After, Interval;
    ProperGrows(limits, log, Adopted(clock, rps));
  }

  lemma StoppingIsInStep(limits: Limits, log: seq<Event>, clock: real, shown: Shown)
    requires InStep(limits, log, clock, shown)
    ensures InStep(limits, log + [StopAsked(clock)], clock, shown.(stopped := true))
    ensures After(log + [StopAsked(clock)]) == After(log).(stopped := true)
  {
    hide Proper, After;
    ProperGrows(limits, log, StopAsked(clock));
  }

  lemma FinishingIsInStep(limits: Limits, log: seq<Event>, clock: real, shown: Shown, result: Result)
    requires InStep(limits, log, clock, shown) && shown.waiting > 0
    ensures var more := log + [Finished(clock, result)];
      && InStep(limits, more, clock, shown.(inFlight := shown.inFlight - 1, waiting := shown.waiting - 1))
      && After(more).pace == After(log).pace && Turns(more) == Turns(log)
  {
    hide Proper, After;
    ProperGrows(limits, log, Finished(clock, result));
  }

  lemma DispatchingIsInStep(limits: Limits, log: seq<Event>, clock: real, shown: Shown, now: real)
    requires InStep(limits, log, clock, shown) && shown.waiting == 0 && !shown.stopped
    requires Polled(log, now, false) && shown.due <= now <= clock
    requires shown.rate > 0.0 && shown.inFlight < limits.Concurrency(shown.rate)
    ensures var more := log + [Dispatched(clock)];
      && InStep(limits, more, clock, shown.(due := shown.due + Interval(shown.rate), inFlight := shown.inFlight + 1))
      && After(more).pace.sent == After(log).pace.sent + 1 && Turns(more) == Turns(log)
      && forall later: real {:trigger Polled(more, later, false)} :: Polled(more, later, false)
  {
    hide Proper, After, Interval, Limits.Concurrency;
    ProperGrows(limits, log, Dispatched(clock));
  }

  lemma WaitingIsInStep(limits: Limits, log: seq<Event>, clock: real, shown: Shown, completed: nat)
    requires InStep(limits, log, clock, shown) && shown.waiting == 0 && completed <= shown.inFlight
    ensures var more, s := log + [Waited(clock, completed)], After(log);
      && InStep(limits, more, clock, shown.(waiting := completed))
      && After(more).pace == s.pace && Turns(more) == AfterWait(Turns(log), IsOpen(s), completed)
  {
    hide Proper, After, IsOpen;
    ProperGrows(limits, log, Waited(clock, completed));
  }

  /** The counts of turns after one more. */
  function AfterWait(turns: (nat, nat), open: bool, completed: nat): (nat, nat) {
    (turns.0 + (if open then 1 else 0), turns.1 + (if !open && completed == 0 then 1 else 0))
  }

  // ---------- the window ----------

  /** `kept` is what is left of `times` after dropping entries more than one second old. */
  ghost predicate Window(kept: seq<real>, times: seq<real>, now: real) {
    && |kept| <= |times|
    && kept == times[|times| - |kept|..]
    && forall i :: 0 <= i < |times| - |kept| ==> now - times[i] > 1.0
  }

  lemma WindowDrops(kept: seq<real>, times: seq<real>, before: real, now: real)
    requires Window(kept, times, before) && before <= now && kept != [] && now - kept[0] > 1.0
    ensures Window(kept[1..], times, now)
  {
    var k := |times| - |kept|;
    assert times[k] == kept[0];
    assert kept[1..] == times[k + 1..];
  }

  lemma WindowDropsNothing(kept: seq<real>, times: seq<real>, before: real, now: real)
    requires Window(kept, times, before) && before <= now
    ensures Window(kept, times, now)
  {
  }

  lemma WindowGrows(kept: seq<real>, times: seq<real>, now: real, x: real)
    requires Window(kept, times, now)
    ensures Window(kept + [x], times + [x], now)
  {
    var k := |times| - |kept|;
    assert kept + [x] == (times + [x])[k..];
  }

  lemma PrunedWindowIsRecent(kept: seq<real>, times: seq<real>, now: real)
    requires Window(kept, times, now) && (kept == [] || now - kept[0] <= 1.0)
    requires forall i, j :: 0 <= i < j < |times| ==> times[i] <= times[j]
    ensures kept == Recent(times, now)
  {
    var k := |times| - |kept|;
    forall i | k <= i < |times|
      ensures now - times[i] <= 1.0
    {
      assert times[k] == kept[0];
    }
    RecentIsASuffix(times, now, k);
  }

  // ---------- the loop ----------

  ghost predicate Kept(
      t: Tally, samples: seq<Sample>, total: nat, statusCounts: map<Option<int>, nat>, errorCounts: map<string, nat>,
      latency: Option<real>, error: Option<string>)
  {
    && samples == t.samples
    && total == |t.codes|
    && Counts(statusCounts, t.codes)
    && Counts(errorCounts, t.kinds)
    && latency == t.lastLatency && error == t.lastError
  }

  lemma KeptWithRaised(
      t: Tally, samples: seq<Sample>, total: nat, statusCounts: map<Option<int>, nat>, errorCounts: map<string, nat>,
      latency: Option<real>, error: Option<string>, at: real, kind: string, message: string)
    requires Kept(t, samples, total, statusCounts, errorCounts, latency, error)
    ensures Kept(Added(t, at, Raised(kind, message)),
      samples + [Sample(None, None, "", Cut(message, PREVIEW_LIMIT), kind)], total, statusCounts,
      AddCount(errorCounts, kind), latency, Some(message))
    ensures Added(t, at, Raised(kind, message)).times == t.times
    ensures Added(t, at, Raised(kind, message)).codes == t.codes
  {
    hide Counts, Cut, AddCount;
    AddCountCounts(errorCounts, t.kinds, kind);
  }

  lemma KeptWithRefused(
      t: Tally, samples: seq<Sample>, total: nat, statusCounts: map<Option<int>, nat>, errorCounts: map<string, nat>,
      latency: Option<real>, error: Option<string>, at: real, reason: string)
    requires Kept(t, samples, total, statusCounts, errorCounts, latency, error)
    ensures Kept(Added(t, at, Refused(reason)),
      samples, total, statusCounts, errorCounts, latency, Some(Cut(reason, ERROR_LIMIT)))
    ensures Added(t, at, Refused(reason)).times == t.times
    ensures Added(t, at, Refused(reason)).codes == t.codes
  {
    hide Counts, Cut, AddCount;
  }

  lemma KeptWithAnswer(
      t: Tally, samples: seq<Sample>, total: nat, statusCounts: map<Option<int>, nat>, errorCounts: map<string, nat>,
      before: Option<real>, error: Option<string>, at: real, code: Option<int>, latency: real, body: string)
    requires Kept(t, samples, total, statusCounts, errorCounts, before, error)
    ensures Kept(Added(t, at, Answered(code, latency, body)),
      samples + [Sample(code, Some(latency), Cut(body, PREVIEW_LIMIT), "", "")], total + 1,
      AddCount(statusCounts, code), errorCounts, Some(latency),
      if Successful(code) then error else Some(Cut(body, ERROR_LIMIT)))
    ensures Added(t, at, Answered(code, latency, body)).times == t.times + [at]
    ensures Added(t, at, Answered(code, latency, body)).codes == t.codes + [code]
  {
    hide Counts, Cut, AddCount;
    AddCountCounts(statusCounts, t.codes, code);
  }

  predicate NoSuccess(codes: seq<Option<int>>) {
    forall i :: 0 <= i < |codes| ==> !Successful(codes[i])
  }

  lemma FreshLog(limits: Limits, start: real, planned: real)
    ensures InStep(limits, [Started(start, planned)], start, Shown(start, start, planned, false, 0, 0))
    ensures After([Started(start, planned)]).pace.sent == 0
    ensures Tallied([Started(start, planned)]) == Tally([], [], [], [], 0, None, None)
  {
    ProperStarts(limits, start, planned);
    TalliedUnchanged([], Started(start, planned));
    assert [] + [Started(start, planned)] == [Started(start, planned)];
  }

  lemma NoSuccessYet(codes: seq<Option<int>>, code: Option<int>)
    requires NoSuccess(codes) && !Successful(code)
    ensures NoSuccess(codes + [code])
  {
  }

  /** The report shows what the attempts add up to, and its status counts add up to its total. */
  ghost predicate Tells(report: Report, t: Tally) {
    && report.totalAttempts == |t.codes| == Sum(report.statusCounts)
    && Counts(report.statusCounts, t.codes)
    && Counts(report.errorCounts, t.kinds) && Sum(report.errorCounts) == |t.kinds|
    && report.latency == t.lastLatency
    && (report.status != Success ==> report.lastError.Some?)
    && (report.status != Success && t.lastError.Some? && t.lastError.value != "" ==> report.lastError == t.lastError)
  }

  /** The run ended with a first success, and the log ends with it. */
  ghost predicate Won(log: seq<Event>, before: seq<Event>) {
    && |log| == |before| + 1 && before <= log
    && NoSuccess(Tallied(before).codes)
    && log[|before|].Finished? && log[|before|].result.Answered?
    && Successful(log[|before|].result.code)
    && Tallied(log).codes == Tallied(before).codes + [log[|before|].result.code]
  }

  class Run {
    const limits: Limits
    const summary: Summary
    var clock: real
    var plannedRps: real
    var dispatchInterval: real
    var concurrencyLimit: int
    var nextDispatchAt: real
    var nextPollAt: real
    var nextProgressAt: real
    /** Attempts get numbers as handles. */
    var created: nat
    var pending: set<nat>
    var attemptTimes: seq<real>
    var currentRps: nat
    var totalAttempts: nat
    var successAttempts: nat
    var lastLatency: Option<real>
    var lastError: Option<string>
    var statusCounts: map<Option<int>, nat>
    var errorCounts: map<string, nat>
    var stopRequested: bool
    ghost var log: seq<Event>
    /** The clock reading by which the window was last pruned. */
    ghost var prunedAt: real

    /** The counters, the summary and the window hold what the log adds up to. */
    ghost predicate Books()
      reads this`log, this`clock, this`prunedAt, this`attemptTimes, this`totalAttempts, this`statusCounts,
        this`errorCounts, this`lastLatency, this`lastError, summary
    {
      && summary.Valid()
      && Kept(Tallied(log), summary.all, totalAttempts, statusCounts, errorCounts, lastLatency, lastError)
      && prunedAt <= clock && Window(attemptTimes, Tallied(log).times, prunedAt)
    }

    function Variables(waiting: nat): Shown
      reads this`nextDispatchAt, this`nextPollAt, this`plannedRps, this`stopRequested, this`pending
    {
      Shown(nextDispatchAt, nextPollAt, plannedRps, stopRequested, |pending| + waiting, waiting)
    }

    /** `waiting` attempts have completed and still wait to be looked at. */
    ghost predicate Consistent(waiting: nat)
      reads this`log, this`clock, this`nextDispatchAt, this`nextPollAt, this`plannedRps, this`dispatchInterval,
        this`concurrencyLimit, this`stopRequested, this`created, this`pending
    {
      && InStep(limits, log, clock, Variables(waiting))
      && dispatchInterval == Interval(plannedRps)
      && concurrencyLimit == limits.Concurrency(plannedRps)
      && created == After(log).pace.sent && (forall p :: p in pending ==> p < created)
    }

    ghost predicate Valid()
      reads this, summary
    {
      && Consistent(0) && Books()
      && successAttempts == 0 && NoSuccess(Tallied(log).codes)
    }

    constructor (limits: Limits, planned: real, start: real)
      ensures Valid() && fresh(summary) && this.limits == limits && log == [Started(start, planned)]
    {
      this.limits := limits;
      summary := new Summary();
      clock, plannedRps, dispatchInterval := start, planned, Interval(planned);
      concurrencyLimit := limits.Concurrency(planned);
      nextDispatchAt, nextPollAt, nextProgressAt := start, start, start + 0.5;
      created, pending, attemptTimes, currentRps, totalAttempts, successAttempts := 0, {}, [], 0, 0, 0;
      lastLatency, lastError, statusCounts, errorCounts, stopRequested := None, None, map[], map[], false;
      log, prunedAt := [Started(start, planned)], start;
      new;
      FreshLog(limits, start, planned);
    }

    /** `perf_counter`. */
    method Now(ghost waiting: nat) returns (now: real)
      requires Consistent(waiting) && Books()
      modifies this`clock
      ensures now == clock >= old(clock) && prunedAt <= now
      ensures Consistent(waiting) && Books()
    {
      hide InStep, Tallied, After, Kept, Interval, Limits.Concurrency, Window, Summary.Valid;
      var reading: real := *;
      now := Max(clock, reading);
      InStepLater(limits, log, clock, Variables(waiting), now);
      clock := now;
    }

    method DropOldest(now: real)
      requires Books() && prunedAt <= now <= clock
      requires attemptTimes != [] && now - attemptTimes[0] > 1.0
      modifies this`attemptTimes, this`prunedAt
      ensures Books() && prunedAt == now && attemptTimes == old(attemptTimes)[1..]
    {
      hide Kept, Tallied, Summary.Valid;
      WindowDrops(attemptTimes, Tallied(log).times, prunedAt, now);
      attemptTimes, prunedAt := attemptTimes[1..], now;
    }

    /** Ends a pruning: what is left counts the answers of the last second. */
    method CountRecent(now: real)
      requires Consistent(0) && Books() && prunedAt <= now <= clock
      requires attemptTimes == [] || now - attemptTimes[0] <= 1.0
      modifies this`currentRps, this`prunedAt
      ensures Books() && prunedAt == now && currentRps == |attemptTimes|
      ensures attemptTimes == Recent(Tallied(log).times, now)
    {
      hide Kept, Tallied, After, Recent, Summary.Valid;
      TimesInOrder(log);
      WindowDropsNothing(attemptTimes, Tallied(log).times, prunedAt, now);
      PrunedWindowIsRecent(attemptTimes, Tallied(log).times, now);
      currentRps, prunedAt := |attemptTimes|, now;
    }

    /** Drops the attempts that are more than a second old by this reading of the clock. */
    method Prune(now: real)
      requires Consistent(0) && Books() && prunedAt <= now <= clock
      modifies this`attemptTimes, this`currentRps, this`prunedAt
      ensures Books() && currentRps == |attemptTimes|
      ensures attemptTimes == Recent(Tallied(log).times, now)
    {
      hide Consistent, Books, Tallied, Recent;
      while attemptTimes != [] && now - attemptTimes[0] > 1.0
        invariant Consistent(0) && Books() && prunedAt <= now <= clock
        decreases |attemptTimes|
      {
        DropOldest(now);
      }
      CountRecent(now);
    }

    /** The same before a progress report, with a new clock reading for every test. */
    method PruneNow()
      requires Consistent(0) && Books()
      modifies this`attemptTimes, this`currentRps, this`prunedAt, this`clock
      ensures Consistent(0) && Books() && old(clock) <= clock && currentRps == |attemptTimes|
      ensures attemptTimes == Recent(Tallied(log).times, clock)
    {
      hide Consistent, Books, Tallied, Recent;
      var now := Now(0);
      while attemptTimes != [] && now - attemptTimes[0] > 1.0
        invariant Consistent(0) && Books() && prunedAt <= now == clock && old(clock) <= clock
        decreases |attemptTimes|
      {
        DropOldest(now);
        now := Now(0);
      }
      CountRecent(now);
    }

    /** Logs an event that ends no attempt. */
    ghost method Note(e: Event)
      requires Books() && !e.Finished?
      modifies this`log
      ensures Books() && log == old(log) + [e] && Tallied(log) == Tallied(old(log))
    {
      hide Tallied, Window, Kept, Summary.Valid;
      TalliedUnchanged(log, e);
      log := log + [e];
    }

    /** `_apply_live_task_status`, the restart of the schedule when the rate really changed, and the time of the next
        poll. */
    method Adopt(loopNow: real, answered: real)
      requires Consistent(0) && Books()
      requires After(log).owed && After(log).first && After(log).began == loopNow
      modifies this`clock, this`plannedRps, this`dispatchInterval, this`concurrencyLimit, this`nextDispatchAt,
        this`nextPollAt, this`log
      ensures Consistent(0) && Books()
      ensures old(clock) <= clock && log == old(log) + [Adopted(clock, Max(0.0, answered))]
      ensures Tallied(log) == Tallied(old(log)) && Turns(log) == Turns(old(log))
      ensures Polled(log, loopNow, After(old(log)).late)
      ensures plannedRps == Max(0.0, answered) && nextPollAt == loopNow + 0.5
      ensures nextDispatchAt
           == if Restarts(old(plannedRps), plannedRps) then clock + Interval(plannedRps) else old(nextDispatchAt)
    {
      hide InStep, Books, Tallied, After, Interval, Limits.Concurrency, Restarts, Turns, Polled;
      var previous := plannedRps;
      var now := Now(0);
      AdoptingIsInStep(limits, log, clock, Variables(0), Max(0.0, answered));
      plannedRps := Max(0.0, answered);
      dispatchInterval, concurrencyLimit := Interval(plannedRps), limits.Concurrency(plannedRps);
      Note(Adopted(clock, plannedRps));
      if Restarts(previous, plannedRps) {
        nextDispatchAt := now + dispatchInterval;
      }
      nextPollAt := loopNow + 0.5;
    }

    method Stop(ghost waiting: nat)
      requires Consistent(waiting) && Books()
      modifies this`stopRequested, this`log
      ensures Consistent(waiting) && Books() && stopRequested
      ensures log == old(log) + [StopAsked(clock)] && Tallied(log) == Tallied(old(log))
      ensures After(log) == After(old(log)).(stopped := true)
    {
      hide InStep, Books, Tallied, After, Interval, Limits.Concurrency;
      StoppingIsInStep(limits, log, clock, Variables(waiting));
      stopRequested := true;
      Note(StopAsked(clock));
    }

    /** A status poll: adopts the rate control answers with, and notes when control ended the run. */
    method Poll(loopNow: real) returns (ghost answered: real, ghost active: bool)
      requires Valid()
      requires After(log).owed && After(log).first && After(log).began == loopNow
      modifies this`clock, this`plannedRps, this`dispatchInterval, this`concurrencyLimit, this`nextDispatchAt,
        this`nextPollAt, this`stopRequested, this`log
      ensures Valid() && old(clock) <= clock && nextPollAt == loopNow + 0.5
      ensures plannedRps == Max(0.0, answered)
      ensures stopRequested == (old(stopRequested) || !active)
      ensures log == old(log) + [Adopted(clock, plannedRps)] + if active then [] else [StopAsked(clock)]
      ensures Turns(log) == Turns(old(log)) && Polled(log, loopNow, After(old(log)).late)
      ensures nextDispatchAt
           == if Restarts(old(plannedRps), plannedRps) then clock + Interval(plannedRps) else old(nextDispatchAt)
    {
      hide Consistent, Books, Tallied, NoSuccess, Restarts, Interval, After;
      var rate: real, runs: bool := *, *;
      answered, active := rate, runs;
      Adopt(loopNow, rate);
      if !runs {
        Stop(0);
      }
    }

    /** The head of a turn: the reading of the clock, and whether the window is over. */
    method Begin() returns (loopNow: real, late: bool)
      requires Valid()
      modifies this`clock, this`log
      ensures Valid() && old(clock) <= clock == loopNow && log == old(log) + [Began(loopNow, late)]
      ensures Turns(log) == Turns(old(log)) && After(log).began == loopNow && After(log).late == late && After(log).first
      ensures After(log).owed == (loopNow >= nextPollAt) && prunedAt <= loopNow
      ensures loopNow < nextPollAt ==> Polled(log, loopNow, late)
    {
      hide InStep, Books, Tallied, After, Interval, Limits.Concurrency, NoSuccess, Turns, Polled;
      loopNow := Now(0);
      late := *;
      BeginningIsInStep(limits, log, clock, Variables(0), late);
      Note(Began(loopNow, late));
    }

    /** Notes the end of an attempt in the log. */
    ghost method Finish(result: Result, waiting: nat)
      requires Consistent(waiting + 1)
      modifies this`log
      ensures Consistent(waiting) && log == old(log) + [Finished(clock, result)]
      ensures Tallied(log) == Added(Tallied(old(log)), clock, result) && Turns(log) == Turns(old(log))
    {
      hide InStep, Tallied, After, Interval, Limits.Concurrency, Added, Turns;
      FinishingIsInStep(limits, log, clock, Variables(waiting + 1), result);
      TalliedOneMore(log, Finished(clock, result));
      log := log + [Finished(clock, result)];
    }

    method HandleRaised(kind: string, message: string, ghost waiting: nat)
      requires Consistent(waiting + 1) && Books()
      modifies this`lastError, this`errorCounts, this`log, summary
      ensures Consistent(waiting) && Books() && log == old(log) + [Finished(clock, Raised(kind, message))]
      ensures Tallied(log).codes == Tallied(old(log)).codes && Turns(log) == Turns(old(log))
    {
      hide Consistent, Tallied, Window, Kept, Added, AddCount, Cut, Summary.Valid, Turns;
      KeptWithRaised(Tallied(log), summary.all, totalAttempts, statusCounts, errorCounts, lastLatency, lastError,
                     clock, kind, message);
      Finish(Raised(kind, message), waiting);
      lastError := Some(message);
      errorCounts := AddCount(errorCounts, kind);
      summary.Record(Sample(None, None, "", Cut(message, PREVIEW_LIMIT), kind));
    }

    method HandleRefused(reason: string, ghost waiting: nat)
      requires Consistent(waiting + 1) && Books()
      modifies this`lastError, this`stopRequested, this`log
      ensures Consistent(waiting) && Books()
      ensures old(log) + [Finished(clock, Refused(reason))] <= log
      ensures Tallied(log).codes == Tallied(old(log)).codes && Turns(log) == Turns(old(log))
      ensures stopRequested <==> old(stopRequested) || AsksToStop(reason)
    {
      hide Consistent, Tallied, Window, Kept, Added, AddCount, Cut, AsksToStop, Summary.Valid, After;
      KeptWithRefused(Tallied(log), summary.all, totalAttempts, statusCounts, errorCounts, lastLatency, lastError,
                      clock, reason);
      Finish(Refused(reason), waiting);
      lastError := Some(Cut(reason, ERROR_LIMIT));
      if AsksToStop(reason) {
        Stop(waiting);
      }
    }

    method HandleAnswer(code: Option<int>, latency: real, body: string, ghost waiting: nat) returns (succeeded: bool)
      requires Consistent(waiting + 1) && Books()
      modifies this`attemptTimes, this`totalAttempts, this`successAttempts, this`lastLatency, this`lastError,
        this`statusCounts, this`log, summary
      ensures Consistent(waiting) && Books() && log == old(log) + [Finished(clock, Answered(code, latency, body))]
      ensures Tallied(log).codes == Tallied(old(log)).codes + [code] && Turns(log) == Turns(old(log))
      ensures succeeded == Successful(code)
      ensures successAttempts == old(successAttempts) + if succeeded then 1 else 0
    {
      hide Consistent, Tallied, Window, Kept, Added, AddCount, Cut, Successful, Summary.Valid, Turns;
      KeptWithAnswer(Tallied(log), summary.all, totalAttempts, statusCounts, errorCounts, lastLatency, lastError,
                     clock, code, latency, body);
      WindowGrows(attemptTimes, Tallied(log).times, prunedAt, clock);
      Finish(Answered(code, latency, body), waiting);
      totalAttempts := totalAttempts + 1;
      attemptTimes := attemptTimes + [clock];
      lastLatency := Some(latency);
      statusCounts := AddCount(statusCounts, code);
      summary.Record(Sample(code, Some(latency), Cut(body, PREVIEW_LIMIT), "", ""));
      succeeded := Successful(code);
      if succeeded {
        successAttempts := successAttempts + 1;
      } else {
        lastError := Some(Cut(body, ERROR_LIMIT));
      }
    }

    /** One completed attempt. True is the success that ends the run. */
    method Handle(result: Result, ghost waiting: nat) returns (succeeded: bool)
      requires Consistent(waiting + 1) && Books() && successAttempts == 0 && NoSuccess(Tallied(log).codes)
      modifies this`clock, this`attemptTimes, this`totalAttempts, this`successAttempts, this`lastLatency, this`lastError,
        this`statusCounts, this`errorCounts, this`stopRequested, this`log, summary
      ensures Consistent(waiting) && Books() && old(log) <= log && Turns(log) == Turns(old(log))
      ensures succeeded ==> successAttempts == 1 && Won(log, old(log))
      ensures !succeeded ==> successAttempts == 0 && NoSuccess(Tallied(log).codes)
    {
      hide Consistent, Books, Tallied, NoSuccess, Successful, AsksToStop, Turns;
      var now := Now(waiting + 1);
      succeeded := false;
      if result.Raised? {
        HandleRaised(result.kind, result.message, waiting);
      } else if result.Refused? {
        HandleRefused(result.reason, waiting);
      } else {
        ghost var codes := Tallied(log).codes;
        succeeded := HandleAnswer(result.code, result.latency, result.body, waiting);
        if !succeeded {
          NoSuccessYet(codes, result.code);
        }
      }
    }

    /** Looks at the completed attempts, in any order, until one succeeded. */
    method HandleAll(done: set<nat>) returns (succeeded: bool, ghost left: nat)
      requires Consistent(|done|) && Books() && successAttempts == 0 && NoSuccess(Tallied(log).codes)
      modifies this`clock, this`attemptTimes, this`totalAttempts, this`successAttempts, this`lastLatency, this`lastError,
        this`statusCounts, this`errorCounts, this`stopRequested, this`log, summary
      ensures Books() && old(log) <= log && Turns(log) == Turns(old(log))
      ensures succeeded ==> Consistent(left) && successAttempts == 1 && exists before :: Won(log, before)
      ensures !succeeded ==> Valid()
    {
      hide Consistent, Books, Tallied, NoSuccess, Won, Turns;
      var todo := done;
      succeeded, left := false, 0;
      while todo != {}
        invariant !succeeded && Consistent(|todo|) && Books() && successAttempts == 0 && NoSuccess(Tallied(log).codes)
        invariant old(log) <= log && Turns(log) == Turns(old(log))
        decreases |todo|
      {
        var task :| task in todo;
        todo := todo - {task};
        var result: Result := *;
        succeeded := Handle(result, |todo|);
        if succeeded {
          left := |todo|;
          return;
        }
      }
    }

    /** Starts attempts while the rules allow; `late` is the last reading of the window's end, `seen` of the clock. It
        stops only when the run is stopped, late, paused or full, or the next attempt is not due yet. */
    method Dispatch(loopNow: real, wasLate: bool) returns (late: bool, ghost seen: real)
      requires Valid() && loopNow <= clock && Polled(log, loopNow, wasLate)
      modifies this`clock, this`created, this`pending, this`nextDispatchAt, this`log
      ensures Valid() && old(log) <= log && loopNow <= seen <= clock
      ensures After(log).late == wasLate && Turns(log) == Turns(old(log))
      ensures forall i :: |old(log)| <= i < |log| ==> log[i].Dispatched?
      ensures stopRequested || wasLate ==> late == wasLate && log == old(log) && pending == old(pending)
      ensures stopRequested || late || plannedRps <= 0.0 || |pending| >= concurrencyLimit || seen < nextDispatchAt
    {
      hide InStep, Books, Tallied, After, NoSuccess, Interval, Limits.Concurrency, Turns;
      var now := loopNow;
      late := wasLate;
      while !stopRequested && !late && plannedRps > 0.0 && |pending| < concurrencyLimit && now >= nextDispatchAt
        invariant Valid() && loopNow <= now <= clock && old(log) <= log
        invariant Polled(log, now, wasLate) && Turns(log) == Turns(old(log))
        invariant forall i :: |old(log)| <= i < |log| ==> log[i].Dispatched?
        invariant stopRequested || wasLate ==> late == wasLate && log == old(log) && pending == old(pending)
        decreases concurrencyLimit - |pending|
      {
        StartAttempt(now);
        now := Now(0);
        late := *;
        assert Polled(log, now, false);
      }
      seen := now;
    }

    method StartAttempt(now: real)
      requires Valid() && !stopRequested && plannedRps > 0.0 && |pending| < concurrencyLimit
      requires Polled(log, now, false) && nextDispatchAt <= now <= clock
      modifies this`created, this`pending, this`nextDispatchAt, this`log
      ensures Valid() && log == old(log) + [Dispatched(clock)] && |pending| == |old(pending)| + 1
      ensures nextDispatchAt == old(nextDispatchAt) + dispatchInterval && Turns(log) == Turns(old(log))
      ensures forall later: real {:trigger Polled(log, later, false)} :: Polled(log, later, false)
    {
      hide InStep, Books, Tallied, After, Interval, Limits.Concurrency, NoSuccess, Polled, Turns;
      DispatchingIsInStep(limits, log, clock, Variables(0), now);
      pending, created := pending + {created}, created + 1;
      nextDispatchAt := nextDispatchAt + dispatchInterval;
      Note(Dispatched(clock));
    }

    /** The attempts that `asyncio.wait` found completed; none when it timed out. */
    method Wait() returns (done: set<nat>)
      requires Valid()
      modifies this`pending, this`log
      ensures Consistent(|done|) && Books() && log == old(log) + [Waited(clock, |done|)]
      ensures Tallied(log) == Tallied(old(log))
      ensures done <= old(pending) && pending == old(pending) - done
      ensures Turns(log) == AfterWait(Turns(old(log)), IsOpen(After(old(log))), |done|)
    {
      hide InStep, Books, Tallied, After, Interval, Limits.Concurrency, NoSuccess, Turns, IsOpen;
      done :| done <= pending;
      assert |pending| == |done| + |pending - done|;
      WaitingIsInStep(limits, log, clock, Variables(0), |done|);
      Note(Waited(clock, |done|));
      pending := pending - done;
    }

    /** The counters as reported. */
    method Summarize(status: Status) returns (report: Report)
      requires Books() && Proper(limits, log)
      ensures report.status == status && report.successAttempts == successAttempts
      ensures Tells(report, Tallied(log)) && summary.Valid() && summary.all == Tallied(log).samples
    {
      hide Window, Tallied, Counts, After;
      var shown := if lastError.Some? && lastError.value != "" then lastError
                   else Some("Attack window completed without success");
      report := Report(status, totalAttempts, successAttempts, lastLatency,
                       if status == Success then None else shown, statusCounts, errorCounts);
      CountsAddUp(statusCounts, Tallied(log).codes);
      CountsAddUp(errorCounts, Tallied(log).kinds);
    }

    lemma LogIsProper(waiting: nat)
      requires Consistent(waiting)
      ensures Proper(limits, log)
    {
    }

    lemma StopIsLogged(waiting: nat)
      requires Consistent(waiting)
      ensures After(log).stopped == stopRequested
    {
    }

    /** Everything dispatched is pending, answered, raised or refused. */
    lemma EveryDispatchIsAccountedFor(waiting: nat)
      requires Consistent(waiting)
      ensures var t := Tallied(log);
        After(log).pace.sent == |t.codes| + |t.kinds| + t.refused + |pending| + waiting
    {
      EveryAttemptIsCounted(log);
    }

    /** A turn up to its wait: polls exactly if a poll is due, prunes the window, and dispatches whatever is due. `wasOpen`
        says that it could dispatch: the run was not stopped and its window was not over at the head. */
    method Schedule() returns (late: bool, ghost seen: real, wasOpen: bool)
      requires Valid()
      modifies this
      ensures Valid() && old(log) < log && Turns(log) == Turns(old(log)) && old(clock) <= seen <= clock
      ensures var e := log[|old(log)|];
        e.Began? && old(clock) <= e.at && After(log).late == e.late
        && (e.at >= old(nextPollAt) ==> |log| > |old(log)| + 1 && log[|old(log)| + 1].Adopted?)
        && (e.at < old(nextPollAt) ==> forall i :: |old(log)| < i < |log| ==> !log[i].Adopted?)
      ensures wasOpen == IsOpen(After(log))
      ensures !wasOpen ==> (stopRequested || late) && pending == old(pending)
      ensures !wasOpen ==> forall i :: |old(log)| <= i < |log| ==> !log[i].Dispatched?
      ensures stopRequested || late || plannedRps <= 0.0 || |pending| >= concurrencyLimit || seen < nextDispatchAt
    {
      hide Consistent, Books, Tallied, NoSuccess, After, Turns, Polled;
      var loopNow;
      loopNow, late := Begin();
      if loopNow >= nextPollAt {
        var answered, active := Poll(loopNow);
      }
      Prune(loopNow);
      wasOpen := !stopRequested && !late;
      late, seen := Dispatch(loopNow, late);
      StopIsLogged(0);
    }

    /** Waits for completions and looks at them; `completed` is how many there were. */
    method Collect() returns (outcome: Outcome, completed: nat)
      requires Valid()
      modifies this, summary
      ensures Ended(outcome) && old(log) <= log
      ensures |pending| == |old(pending)| - completed
      ensures Turns(log) == AfterWait(Turns(old(log)), IsOpen(After(old(log))), completed)
    {
      hide Consistent, Books, Tallied, NoSuccess, Won, Proper, After, Tells, Turns, IsOpen;
      var done := Wait();
      completed := |done|;
      var succeeded, left := HandleAll(done);
      outcome := StillRunning;
      if !succeeded {
        LogIsProper(0);
      } else {
        LogIsProper(left);
        var report := Summarize(Success);
        outcome := Reported(report);
      }
    }

    method Progress()
      requires Valid()
      modifies this`attemptTimes, this`currentRps, this`prunedAt, this`clock, this`nextProgressAt
      ensures Valid()
    {
      hide Consistent, Books, Tallied, NoSuccess;
      var now := Now(0);
      if now >= nextProgressAt {
        PruneNow();
        now := Now(0);
        nextProgressAt := now + 0.5;
      }
    }

    /** One turn of the loop. A turn that could not dispatch leaves fewer attempts pending by those it saw complete, and
        with none pending it ends the run. */
    method Turn() returns (outcome: Outcome, wasOpen: bool, completed: nat)
      requires Valid()
      modifies this, summary
      ensures Ended(outcome) && old(log) <= log
      ensures outcome.StillRunning? ==> Turns(log) == AfterWait(Turns(old(log)), wasOpen, completed)
      ensures !wasOpen && outcome.StillRunning? ==> old(pending) != {} && |pending| == |old(pending)| - completed
    {
      hide Consistent, Books, Tallied, NoSuccess, Won, Proper, After, Tells, Turns, IsOpen;
      wasOpen, completed := false, 0;
      var over: bool := *;
      if over && pending == {} {
        outcome := Conclude();
        return;
      }
      var late;
      ghost var seen;
      late, seen, wasOpen := Schedule();
      if pending == {} && (stopRequested || late) {
        outcome := Conclude();
        return;
      }
      outcome, completed := Collect();
      if outcome.StillRunning? {
        Progress();
      }
    }

    /** The end of a run without success; nothing is pending, so there is nothing left to drain. */
    method Conclude() returns (outcome: Outcome)
      requires Valid() && pending == {}
      ensures Ended(outcome) && outcome.Reported?
    {
      hide Books, Tallied, NoSuccess, After, Tells;
      EveryDispatchIsAccountedFor(0);
      LogIsProper(0);
      var report := Summarize(if stopRequested then Stopped else Failed);
      outcome := Reported(report);
    }

    /** What holds of the log and the report when a turn ends. */
    ghost predicate Ended(outcome: Outcome)
      reads this, summary
    {
      var t := Tallied(log);
      && Proper(limits, log)
      && (outcome.StillRunning? ==> Valid())
      && (outcome.Reported? ==> Tells(outcome.report, t) && summary.Valid() && summary.all == t.samples)
      && (outcome.Reported? && outcome.report.status == Success ==>
            outcome.report.successAttempts == 1 && exists before :: Won(log, before))
      && (outcome.Reported? && outcome.report.status != Success ==>
            && outcome.report.successAttempts == 0 && NoSuccess(t.codes)
            && After(log).pace.sent == |t.codes| + |t.kinds| + t.refused
            && (outcome.report.status == Stopped <==> After(log).stopped))
    }

    /** The loop. It goes on only through turns that could dispatch and turns in which nothing completed: it is followed
        for so many of each, and is still running then only if its log shows more of one kind. All other turns bring the end
        nearer. */
    method Execute(openTurns: nat, idleTurns: nat) returns (outcome: Outcome)
      requires Valid()
      modifies this, summary
      ensures Ended(outcome) && old(log) <= log
      ensures outcome.StillRunning? ==>
        || Turns(log).0 - Turns(old(log)).0 > openTurns || Turns(log).1 - Turns(old(log)).1 > idleTurns
    {
      hide Consistent, Books, Tallied, NoSuccess, Won, After, Tells, Turns;
      LogIsProper(0);
      outcome := StillRunning;
      var openLeft, idleLeft := openTurns, idleTurns;
      while outcome.StillRunning?
        invariant Ended(outcome) && old(log) <= log
        invariant outcome.StillRunning? ==> Turns(log).0 - Turns(old(log)).0 + openLeft == openTurns
        invariant outcome.StillRunning? ==> Turns(log).1 - Turns(old(log)).1 + idleLeft == idleTurns
        decreases outcome.StillRunning?, openLeft, |pending|, idleLeft
      {
        var wasOpen, completed;
        outcome, wasOpen, completed := Turn();
        if outcome.Reported? {
          break;
        }
        if wasOpen {
          if openLeft == 0 {
            return;
          }
          openLeft := openLeft - 1;
        } else if completed == 0 {
          if idleLeft == 0 {
            return;
          }
          idleLeft := idleLeft - 1;
        }
      }
    }
  }
}
