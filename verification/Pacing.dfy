/** The log of one task run by the attempt loop, and what a log that keeps the loop's dispatch rules can contain. */
module Pacing {

  datatype Option<T> = None | Some(value: T)

  /** How one attempt ended: an exception, a refused permit, or an answer from the registrar. */
  datatype Result =
    | Raised(kind: string, message: string)
    | Refused(reason: string)
    | Answered(code: Option<int>, latency: real, body: string)

  /** `Began` is the head of a turn: its clock reading, and whether the window was seen closed. `Adopted` is the answer
      to a status poll, `Waited` the end of the wait of a turn with the attempts that completed. */
  datatype Event =
    | Started(at: real, rps: real)
    | Began(at: real, late: bool)
    | Adopted(at: real, rps: real)
    | StopAsked(at: real)
    | Dispatched(at: real)
    | Waited(at: real, completed: nat)
    | Finished(at: real, result: Result)

  // ---------- limits ----------

  function Max(x: real, y: real): real {
    if x < y then y else x
  }

  /** Dispatches per second at this rate; one every ten seconds at the slowest. */
  function Speed(rps: real): (s: real)
    ensures s >= 0.1
  {
    Max(Max(0.0, rps), 0.1)
  }

  function Interval(rps: real): real {
    1.0 / Speed(rps)
  }

  /** The dispatches that this length of time pays for at this rate: its length over the interval. */
  function Paid(length: real, rps: real): real {
    length * Speed(rps)
  }

  function Ceiling(x: real): int {
    -((-x).Floor)
  }

  datatype Limits = Limits(maxConcurrency: int, multiplier: real) {
    function Concurrency(rps: real): int {
      var wanted := Ceiling(Max(Max(0.0, rps), 1.0) * multiplier);
      var capped := if maxConcurrency < wanted then maxConcurrency else wanted;
      if capped < 1 then 1 else capped
    }
  }

  /** Rates that differ by less than this do not restart the schedule. */
  const NEGLIGIBLE := 0.000000001

  predicate Restarts(before: real, after: real) {
    before - after > NEGLIGIBLE || after - before > NEGLIGIBLE
  }

  // ---------- the schedule ----------

  /** `due` is when the next dispatch is due. `since` is when the schedule was last restarted, if it was, `fastest` the
      highest rate since then, `stretch` the dispatches since then, `banked` what the earlier stretches paid for. */
  datatype Pace = Pace(
    sent: nat, stretch: nat, restarted: bool, rate: real, due: real, since: real, fastest: real, banked: real)

  function Paced(p: Pace, e: Event): Pace {
    match e
    case Started(at, rps) => Pace(0, 0, false, rps, at, at, rps, 0.0)
    case Adopted(at, rps) =>
      if Restarts(p.rate, rps)
      then Pace(p.sent, 0, true, rps, at + Interval(rps), at, rps, Allowance(p, at))
      else p.(rate := rps, fastest := Max(p.fastest, rps))
    case Dispatched(_) => p.(sent := p.sent + 1, stretch := p.stretch + 1, due := p.due + Interval(p.rate))
    case Began(_, _) => p
    case StopAsked(_) => p
    case Waited(_, _) => p
    case Finished(_, _) => p
  }

  /** The dispatches that the time up to `t` pays for: each stretch between restarts pays its length over the shortest
      interval in force in it. */
  function Allowance(p: Pace, t: real): real {
    p.banked + Paid(t - p.since, p.fastest)
  }

  // ---------- what a log amounts to ----------

  /** `waiting` attempts have completed and were not yet looked at; `first` says that this turn has not dispatched yet,
      `owed` that it still has to poll, `pollAt` when the next poll is due; `openTurns` and `idleTurns` count the turns that
      could dispatch, and of the others those in which nothing completed. */
  datatype State = State(
    pace: Pace, finished: nat, waiting: nat, stopped: bool, late: bool, owed: bool, first: bool, began: real, pollAt: real,
    openTurns: nat, idleTurns: nat)

  const UNSTARTED := State(Pace(0, 0, false, 0.0, 0.0, 0.0, 0.0, 0.0), 0, 0, false, true, true, true, 0.0, 0.0, 0, 0)

  predicate IsOpen(s: State) {
    !s.stopped && !s.late
  }

  function Step(s: State, e: Event): State {
    match e
    case Started(at, _) => s.(pace := Paced(s.pace, e), pollAt := at)
    case Began(at, late) => s.(late := late, began := at, first := true, owed := at >= s.pollAt)
    case Adopted(_, _) => s.(pace := Paced(s.pace, e), owed := false, pollAt := s.began + 0.5)
    case StopAsked(_) => s.(stopped := true)
    case Dispatched(_) => s.(pace := Paced(s.pace, e), first := false)
    case Waited(_, completed) =>
      s.(waiting := completed, late := true,
         openTurns := s.openTurns + (if IsOpen(s) then 1 else 0),
         idleTurns := s.idleTurns + (if !IsOpen(s) && completed == 0 then 1 else 0))
    case Finished(_, _) => s.(finished := s.finished + 1, waiting := if s.waiting == 0 then 0 else s.waiting - 1)
  }

  function After(log: seq<Event>): State {
    if log == [] then UNSTARTED else Step(After(log[..|log| - 1]), log[|log| - 1])
  }

  lemma AfterOneMore(log: seq<Event>, e: Event)
    ensures After(log + [e]) == Step(After(log), e)
  {
    assert (log + [e])[..|log|] == log;
  }

  function InFlight(s: State): int {
    s.pace.sent - s.finished
  }

  /** When the loop may do what the event says: it dispatches in a turn that was neither stopped nor late when it began
      and has made its poll if one was due, at a rate above zero, within the limit, and not before it is due; the first of
      a turn has to be due by the clock reading at its head. */
  predicate May(limits: Limits, s: State, e: Event) {
    match e
    case Started(_, _) => false
    case Began(_, _) => s.waiting == 0
    case Adopted(_, _) => s.owed && s.waiting == 0
    case StopAsked(_) => true
    case Dispatched(at) =>
      && IsOpen(s) && !s.owed && s.waiting == 0
      && s.pace.rate > 0.0 && InFlight(s) < limits.Concurrency(s.pace.rate)
      && s.pace.due <= at && (s.first ==> s.pace.due <= s.began)
    case Waited(_, completed) => s.waiting == 0 && completed <= InFlight(s)
    case Finished(_, _) => s.waiting > 0
  }

  predicate InOrder(log: seq<Event>) {
    forall i, j :: 0 <= i < j < |log| ==> log[i].at <= log[j].at
  }

  lemma InOrderGrows(log: seq<Event>, e: Event)
    requires InOrder(log) && log != [] && log[|log| - 1].at <= e.at
    ensures InOrder(log + [e])
  {
    var more := log + [e];
    forall i, j | 0 <= i < j < |more|
      ensures more[i].at <= more[j].at
    {
      assert log[i].at <= log[|log| - 1].at;
    }
  }

  /** A log that begins with the start of the run, has its events in time order, and in which the loop did only what it
      may. */
  ghost predicate Proper(limits: Limits, log: seq<Event>) {
    && log != [] && log[0].Started? && InOrder(log)
    && forall i :: 0 < i < |log| ==> May(limits, After(log[..i]), log[i])
  }

  lemma ProperStarts(limits: Limits, at: real, rps: real)
    ensures Proper(limits, [Started(at, rps)])
    ensures After([Started(at, rps)]) == UNSTARTED.(pace := Pace(0, 0, false, rps, at, at, rps, 0.0), pollAt := at)
  {
    assert [Started(at, rps)][..0] == [];
  }

  lemma ProperGrows(limits: Limits, log: seq<Event>, e: Event)
    requires Proper(limits, log) && log[|log| - 1].at <= e.at && May(limits, After(log), e)
    ensures Proper(limits, log + [e])
    ensures After(log + [e]) == Step(After(log), e)
  {
    hide After, Step, May, InOrder;
    var more := log + [e];
    AfterOneMore(log, e);
    InOrderGrows(log, e);
    forall i | 0 <= i <= |log|
      ensures more[..i] == log[..i]
    {
    }
    assert log[..|log|] == log;
  }

  lemma ProperShrinks(limits: Limits, log: seq<Event>, n: nat)
    requires Proper(limits, log) && 0 < n <= |log|
    ensures Proper(limits, log[..n])
  {
    forall i | 0 <= i < n
      ensures log[..n][..i] == log[..i]
    {
    }
  }

  /** A proper log is its first event, or a shorter proper log and one event that was allowed. */
  lemma LastEvent(limits: Limits, log: seq<Event>)
    requires Proper(limits, log)
    ensures log != []
    ensures var n := |log| - 1;
      && After(log) == Step(After(log[..n]), log[n])
      && (n > 0 ==> Proper(limits, log[..n]) && log[n - 1].at <= log[n].at && log[..n][n - 1] == log[n - 1])
      && (n > 0 ==> May(limits, After(log[..n]), log[n]))
  {
    hide May, Step;
    var n := |log| - 1;
    if n > 0 {
      ProperShrinks(limits, log, n);
    }
  }

  // ---------- whole runs ----------

  lemma Product(x: real, y: real, a: real, b: real)
    requires 0.0 <= x <= y && 0.0 <= a <= b
    ensures 0.0 <= x * a <= y * b
  {
    assert y * b - x * a == y * (b - a) + (y - x) * a;
  }

  /** More time, a higher rate or both pay for at least as many dispatches. */
  lemma FasterPaysMore(length: real, rate: real, longer: real, higher: real)
    requires 0.0 <= length <= longer && rate <= higher
    ensures 0.0 <= Paid(length, rate) <= Paid(longer, higher)
  {
    Product(length, longer, Speed(rate), Speed(higher));
  }

  lemma PaidAdds(length: real, more: real, rate: real)
    ensures Paid(length + more, rate) == Paid(length, rate) + Paid(more, rate)
  {
    assert (length + more) * Speed(rate) == length * Speed(rate) + more * Speed(rate);
  }

  lemma IntervalPaysForOne(rate: real)
    ensures Interval(rate) > 0.0 && Paid(Interval(rate), rate) == 1.0
  {
    assert 1.0 / Speed(rate) * Speed(rate) == 1.0;
  }

  /** How far dispatching may be ahead of what the time since the last restart pays for. */
  function Head(p: Pace): real {
    if p.restarted then 0.0 else 1.0
  }

  /** The next dispatch is due no earlier than the time that pays for those made, in this stretch and in all. */
  predicate OnSchedule(p: Pace) {
    && p.since <= p.due && p.rate <= p.fastest
    && p.stretch as real + 1.0 <= Paid(p.due - p.since, p.fastest) + Head(p)
    && p.sent as real <= Allowance(p, p.due)
  }

  /** By time `t` no more were dispatched than the time pays for, and one. */
  predicate WithinPay(p: Pace, t: real) {
    && p.stretch as real <= Paid(t - p.since, p.fastest) + Head(p)
    && p.sent as real <= 1.0 + Allowance(p, t)
  }

  lemma DispatchKeepsPace(p: Pace, at: real, t: real)
    requires OnSchedule(p) && p.due <= at <= t
    ensures OnSchedule(Paced(p, Dispatched(at))) && WithinPay(Paced(p, Dispatched(at)), t)
  {
    hide Paid, Interval;
    var length := Interval(p.rate);
    IntervalPaysForOne(p.rate);
    FasterPaysMore(length, p.rate, length, p.fastest);
    PaidAdds(p.due - p.since, length, p.fastest);
    assert p.due + length - p.since == p.due - p.since + length;
    FasterPaysMore(p.due - p.since, p.fastest, t - p.since, p.fastest);
  }

  lemma AdoptingKeepsPace(p: Pace, e: Event, t: real)
    requires e.Adopted? && OnSchedule(p) && WithinPay(p, e.at) && p.since <= e.at <= t
    ensures OnSchedule(Paced(p, e)) && WithinPay(Paced(p, e), t)
  {
    hide Paid, Interval;
    IntervalPaysForOne(e.rps);
    if Restarts(p.rate, e.rps) {
      assert e.at + Interval(e.rps) - e.at == Interval(e.rps);
      FasterPaysMore(0.0, e.rps, t - e.at, e.rps);
    } else {
      FasterPaysMore(p.due - p.since, p.fastest, p.due - p.since, Max(p.fastest, e.rps));
      FasterPaysMore(e.at - p.since, p.fastest, t - p.since, Max(p.fastest, e.rps));
    }
  }

  lemma StepKeepsPace(p: Pace, e: Event, t: real)
    requires !e.Started? && OnSchedule(p) && WithinPay(p, e.at) && p.since <= e.at <= t
    requires e.Dispatched? ==> p.due <= e.at
    ensures OnSchedule(Paced(p, e)) && WithinPay(Paced(p, e), t)
  {
    if e.Dispatched? {
      DispatchKeepsPace(p, e.at, t);
    } else if e.Adopted? {
      AdoptingKeepsPace(p, e, t);
    } else {
      FasterPaysMore(e.at - p.since, p.fastest, t - p.since, p.fastest);
    }
  }

  lemma StartIsOnPace(at: real, rps: real, t: real)
    requires at <= t
    ensures var p := Pace(0, 0, false, rps, at, at, rps, 0.0); OnSchedule(p) && WithinPay(p, t)
  {
    FasterPaysMore(0.0, rps, t - at, rps);
  }

  /** Every proper log is on schedule, and within its pay at every later time. */
  lemma {:induction false} PaceIsKept(limits: Limits, log: seq<Event>, t: real)
    requires Proper(limits, log) && log[|log| - 1].at <= t
    ensures var p := After(log).pace;
      p.since <= log[|log| - 1].at && OnSchedule(p) && WithinPay(p, t)
    decreases |log|
  {
    hide OnSchedule, WithinPay, Proper;
    LastEvent(limits, log);
    var n := |log| - 1;
    var e := log[n];
    if n == 0 {
      assert e.Started? by { StartsFirst(limits, log); }
      StartIsOnPace(e.at, e.rps, t);
    } else {
      PaceIsKept(limits, log[..n], e.at);
      StepKeepsPace(After(log[..n]).pace, e, t);
    }
  }

  lemma StartsFirst(limits: Limits, log: seq<Event>)
    requires Proper(limits, log)
    ensures log[0].Started?
  {
  }

  /** However completions, stalls and rate changes fall, the dispatches made by any time are at most one more than what
      that time pays for. */
  lemma RateBound(limits: Limits, log: seq<Event>, t: real)
    requires Proper(limits, log) && log[|log| - 1].at <= t
    ensures After(log).pace.sent as real <= 1.0 + Allowance(After(log).pace, t)
  {
    PaceIsKept(limits, log, t);
  }

  /** Between two restarts the dispatches are at most the time since the first over the shortest interval in force, and
      one more before any restart: time that was not used is not carried over a restart. */
  lemma StretchBound(limits: Limits, log: seq<Event>, t: real)
    requires Proper(limits, log) && log[|log| - 1].at <= t
    ensures var p := After(log).pace;
      p.stretch as real <= Paid(t - p.since, p.fastest) + if p.restarted then 0.0 else 1.0
  {
    PaceIsKept(limits, log, t);
  }

  /** The limit is enough for `multiplier` seconds of dispatches at the rate, counted as one a second at least, unless the
      maximum is reached; it is no more than that, and at least one. */
  lemma ConcurrencyFitsTheRate(limits: Limits, rps: real)
    ensures var c, wanted := limits.Concurrency(rps), Max(rps, 1.0) * limits.multiplier;
      && c >= 1 && (c as real >= wanted || c >= limits.maxConcurrency)
      && (c > 1 ==> (c - 1) as real < wanted && c <= limits.maxConcurrency)
  {
  }

  /** When this event was logged, `t - length` was still to come or had just come. */
  ghost predicate EndsWithin(log: seq<Event>, t: real, length: real) {
    forall i :: 0 < i <= |log| && log[i - 1].at <= t - length ==> After(log[..i]).pace.sent <= After(log).finished
  }

  /** If every attempt ends within `multiplier` seconds, the limit holds a dispatch back only when the dispatches of the last
      `multiplier` seconds are as many as the rate asks for, or the maximum is reached. */
  lemma LimitKeepsTheRate(limits: Limits, log: seq<Event>, t: real, i: nat)
    requires Proper(limits, log) && EndsWithin(log, t, limits.multiplier)
    requires 0 < i <= |log| && log[i - 1].at <= t - limits.multiplier
    requires var s := After(log);
      InFlight(s) >= limits.Concurrency(s.pace.rate) && limits.Concurrency(s.pace.rate) < limits.maxConcurrency
    ensures var p := After(log).pace;
      (p.sent - After(log[..i]).pace.sent) as real >= Max(p.rate, 1.0) * limits.multiplier
  {
    hide Proper, After;
    ConcurrencyFitsTheRate(limits, After(log).pace.rate);
    hide Limits.Concurrency;
  }

  /** The attempts in flight never exceed the configured maximum, and every dispatch keeps the limit of its rate. */
  lemma {:induction false} ConcurrencyBound(limits: Limits, log: seq<Event>)
    requires limits.maxConcurrency >= 1 && Proper(limits, log)
    ensures var s := After(log); s.waiting <= InFlight(s) <= limits.maxConcurrency
    decreases |log|
  {
    LastEvent(limits, log);
    var n := |log| - 1;
    if n > 0 {
      ConcurrencyBound(limits, log[..n]);
    }
  }

  /** Nothing is dispatched once stopping was asked for. */
  lemma NoDispatchAfterStop(limits: Limits, log: seq<Event>, i: nat, j: nat)
    requires Proper(limits, log) && i < j < |log| && log[i].StopAsked?
    ensures !log[j].Dispatched?
  {
    StopLasts(log, i, j);
  }

  lemma {:induction false} StopLasts(log: seq<Event>, i: nat, j: nat)
    requires i < j <= |log| && log[i].StopAsked?
    ensures After(log[..j]).stopped
  {
    hide After, Paced;
    AfterOneMore(log[..j - 1], log[j - 1]);
    assert log[..j - 1] + [log[j - 1]] == log[..j];
    if i < j - 1 {
      StopLasts(log, i, j - 1);
    }
  }
}
