/** When the sum over the constant stretches of length over interval bounds the dispatches of the attempt loop. */
module SumBound {
  import opened Pacing

  /** What a meter that follows every rate change shows: `total` up to `since`, then one dispatch per interval. */
  datatype Meter = Meter(total: real, since: real, rate: real)

  function MeterStep(m: Meter, e: Event): Meter {
    match e
    case Started(at, rps) => Meter(0.0, at, rps)
    case Adopted(at, rps) => Meter(Reading(m, at), at, rps)
    case Began(_, _) => m
    case StopAsked(_) => m
    case Dispatched(_) => m
    case Waited(_, _) => m
    case Finished(_, _) => m
  }

  function Metered(log: seq<Event>): Meter {
    if log == [] then Meter(0.0, 0.0, 0.0) else MeterStep(Metered(log[..|log| - 1]), log[|log| - 1])
  }

  function Reading(m: Meter, t: real): real {
    m.total + (t - m.since) / Interval(m.rate)
  }

  lemma MeteredOneMore(log: seq<Event>, e: Event)
    ensures Metered(log + [e]) == MeterStep(Metered(log), e)
  {
    assert (log + [e])[..|log|] == log;
  }

  lemma DividingByInterval(x: real, rate: real)
    ensures x / Interval(rate) == Paid(x, rate)
  {
    var s := Speed(rate);
    assert 1.0 / s * s == 1.0;
    assert x / (1.0 / s) * (1.0 / s) == x;
    assert x * s * (1.0 / s) == x * (1.0 / s * s) == x;
  }

  // ---------- clear changes ----------

  /** The two rates have the same interval, or the schedule restarts between them. */
  predicate Clear(before: real, after: real) {
    Speed(before) == Speed(after) || Restarts(before, after)
  }

  ghost predicate ClearChanges(log: seq<Event>) {
    forall i :: 0 <= i < |log| && log[i].Adopted? ==> Clear(After(log[..i]).pace.rate, log[i].rps)
  }

  ghost predicate Agree(p: Pace, m: Meter) {
    && p.rate == m.rate && Speed(p.fastest) == Speed(p.rate)
    && forall t: real {:trigger Reading(m, t)} :: Allowance(p, t) == Reading(m, t)
  }

  lemma StartsAgree(p: Pace, m: Meter, e: Event)
    requires e.Started?
    ensures Agree(Paced(p, e), MeterStep(m, e))
  {
    hide Paid, Interval;
    forall t: real
      ensures Allowance(Paced(p, e), t) == Reading(MeterStep(m, e), t)
    {
      DividingByInterval(t - e.at, e.rps);
    }
  }

  lemma SameSpeedSamePay(length: real, a: real, b: real)
    requires Speed(a) == Speed(b)
    ensures Paid(length, a) == Paid(length, b)
  {
  }

  lemma AdoptingAgrees(p: Pace, m: Meter, e: Event)
    requires Agree(p, m) && e.Adopted? && Clear(p.rate, e.rps)
    ensures Agree(Paced(p, e), MeterStep(m, e))
  {
    var q := Paced(p, e);
    assert Speed(q.fastest) == Speed(q.rate);
    hide Paid, Interval, Speed, Restarts;
    forall t: real
      ensures Allowance(q, t) == Reading(MeterStep(m, e), t)
    {
      assert Allowance(p, t) == Reading(m, t) && Allowance(p, e.at) == Reading(m, e.at);
      DividingByInterval(t - e.at, e.rps);
      if !Restarts(p.rate, e.rps) {
        SameSpeedSamePay(t - p.since, q.fastest, p.fastest);
        SameSpeedSamePay(t - e.at, e.rps, p.fastest);
        PaidAdds(t - e.at, e.at - p.since, p.fastest);
      }
    }
  }

  /** With clear changes, what the time pays for is the sum over the constant stretches of length over interval. */
  lemma {:induction false} AllowanceIsTheSum(limits: Limits, log: seq<Event>)
    requires Proper(limits, log) && ClearChanges(log)
    ensures Agree(After(log).pace, Metered(log))
    decreases |log|
  {
    hide Agree, Clear, Paced, MeterStep;
    LastEvent(limits, log);
    var n := |log| - 1;
    assert log[..n] + [log[n]] == log;
    MeteredOneMore(log[..n], log[n]);
    if n == 0 {
      StartsFirst(limits, log);
      StartsAgree(After(log[..n]).pace, Metered(log[..n]), log[n]);
    } else {
      forall i | 0 <= i < n
        ensures log[..n][..i] == log[..i]
      {
      }
      AllowanceIsTheSum(limits, log[..n]);
      AnyStepAgrees(After(log[..n]), Metered(log[..n]), log[n]);
    }
  }

  lemma AnyStepAgrees(s: State, m: Meter, e: Event)
    requires Agree(s.pace, m) && !e.Started? && (e.Adopted? ==> Clear(s.pace.rate, e.rps))
    ensures Agree(Step(s, e).pace, MeterStep(m, e))
  {
    if e.Adopted? {
      AdoptingAgrees(s.pace, m, e);
    }
  }

  /** The bound by constant stretches. */
  lemma DispatchesAreCovered(limits: Limits, log: seq<Event>, t: real)
    requires Proper(limits, log) && ClearChanges(log) && log[|log| - 1].at <= t
    ensures After(log).pace.sent as real <= 1.0 + Reading(Metered(log), t)
  {
    RateBound(limits, log, t);
    AllowanceIsTheSum(limits, log);
  }

  // ---------- exactly when ----------

  /** The run starts at the first rate and adopts only the two. */
  ghost predicate TwoRates(log: seq<Event>, before: real, after: real) {
    && log != [] && log[0].Started? && log[0].rps == before
    && forall i :: 0 <= i < |log| && log[i].Adopted? ==> log[i].rps == before || log[i].rps == after
  }

  /** The sum bounds the dispatches of every run with these rates. */
  ghost predicate SumBounds(limits: Limits, before: real, after: real) {
    forall log: seq<Event>, t: real ::
      Proper(limits, log) && TwoRates(log, before, after) && log[|log| - 1].at <= t ==>
        After(log).pace.sent as real <= 1.0 + Reading(Metered(log), t)
  }

  /** The sum over the constant stretches bounds the dispatches of every run between two rates if and only if the rates
      have the same interval or changing between them restarts the schedule. */
  lemma SumBoundsExactly(limits: Limits, before: real, after: real)
    ensures SumBounds(limits, before, after) <==> Clear(before, after)
  {
    hide Clear, Metered, After, May, Reading;
    if Clear(before, after) {
      forall log: seq<Event>, t: real | Proper(limits, log) && TwoRates(log, before, after) && log[|log| - 1].at <= t
        ensures After(log).pace.sent as real <= 1.0 + Reading(Metered(log), t)
      {
        ChangesAreClear(limits, log, before, after);
        DispatchesAreCovered(limits, log, t);
      }
    } else {
      var log, t := SmallChangeBeatsTheSum(limits, before, after);
    }
  }

  lemma {:induction false} RateIsOneOfTwo(limits: Limits, log: seq<Event>, before: real, after: real)
    requires Proper(limits, log) && TwoRates(log, before, after)
    ensures After(log).pace.rate == before || After(log).pace.rate == after
    decreases |log|
  {
    LastEvent(limits, log);
    if |log| > 1 {
      RateIsOneOfTwo(limits, log[..|log| - 1], before, after);
    }
  }

  lemma ChangesAreClear(limits: Limits, log: seq<Event>, before: real, after: real)
    requires Proper(limits, log) && TwoRates(log, before, after) && Clear(before, after)
    ensures ClearChanges(log)
  {
    forall i | 0 <= i < |log| && log[i].Adopted?
      ensures Clear(After(log[..i]).pace.rate, log[i].rps)
    {
      ProperShrinks(limits, log, i);
      RateIsOneOfTwo(limits, log[..i], before, after);
    }
  }

  // ---------- writing logs ----------

  /** One more event that is allowed and adopts no third rate. */
  lemma Grow(limits: Limits, log: seq<Event>, e: Event, before: real, after: real) returns (more: seq<Event>)
    requires Proper(limits, log) && TwoRates(log, before, after)
    requires log[|log| - 1].at <= e.at && May(limits, After(log), e)
    requires e.Adopted? ==> e.rps == before || e.rps == after
    ensures more == log + [e] && Proper(limits, more) && TwoRates(more, before, after)
    ensures After(more) == Step(After(log), e) && Metered(more) == MeterStep(Metered(log), e)
  {
    hide May, Step, MeterStep;
    more := log + [e];
    ProperGrows(limits, log, e);
    MeteredOneMore(log, e);
  }

  /** At most one attempt is out, and no turn is under way. */
  predicate Between(s: State) {
    0 <= InFlight(s) <= 1 && s.waiting == 0 && !s.stopped && s.pace.rate <= s.pace.fastest
  }

  /** A turn with nothing out that may dispatch. */
  predicate Ready(s: State) {
    InFlight(s) == 0 && s.waiting == 0 && IsOpen(s) && !s.owed && s.pace.rate <= s.pace.fastest
  }

  /** What is out completes, and a turn begins. */
  lemma NextTurn(limits: Limits, log: seq<Event>, t: real, before: real, after: real) returns (more: seq<Event>)
    requires Proper(limits, log) && TwoRates(log, before, after)
    requires log[|log| - 1].at <= t && Between(After(log))
    ensures Proper(limits, more) && TwoRates(more, before, after) && more[|more| - 1].at == t
    ensures Metered(more) == Metered(log)
    ensures var s, r := After(log), After(more);
      && r.pace == s.pace && InFlight(r) == 0 && r.waiting == 0 && IsOpen(r) && r.began == t && r.pollAt == s.pollAt
      && r.owed == (t >= s.pollAt)
  {
    hide TwoRates, Proper, Metered, After;
    var out := InFlight(After(log));
    more := Grow(limits, log, Waited(t, out), before, after);
    if out == 1 {
      more := Grow(limits, more, Finished(t, Raised("", "")), before, after);
    }
    more := Grow(limits, more, Began(t, false), before, after);
  }

  /** The same, with the poll if it is due answering with the rate in force. */
  lemma NextTurnPolled(limits: Limits, log: seq<Event>, t: real, before: real, after: real) returns (more: seq<Event>)
    requires Proper(limits, log) && TwoRates(log, before, after)
    requires log[|log| - 1].at <= t && Between(After(log))
    requires After(log).pace.rate == before || After(log).pace.rate == after
    ensures Proper(limits, more) && TwoRates(more, before, after) && more[|more| - 1].at == t
    ensures Reading(Metered(more), t) == Reading(Metered(log), t)
    ensures var s, r := After(log), After(more);
      r.pace == s.pace && Ready(r) && r.began == t
  {
    hide TwoRates, Proper, Metered, After, Interval;
    more := NextTurn(limits, log, t, before, after);
    if After(more).owed {
      var rate := After(more).pace.rate;
      var turn := more;
      more := Grow(limits, turn, Adopted(t, rate), before, after);
      NoTimeNoReading(Metered(turn), t, rate);
    }
  }

  lemma NoTimeNoReading(m: Meter, t: real, rate: real)
    ensures Reading(MeterStep(m, Adopted(t, rate)), t) == Reading(m, t)
  {
    assert (t - t) / Interval(rate) == 0.0;
  }

  /** A turn in which nothing is out dispatches what is due. */
  lemma DispatchDue(limits: Limits, log: seq<Event>, t: real, before: real, after: real) returns (more: seq<Event>)
    requires Proper(limits, log) && TwoRates(log, before, after) && log[|log| - 1].at <= t
    requires var s := After(log); Ready(s) && s.pace.rate > 0.0 && s.pace.due <= t && s.pace.due <= s.began
    ensures Proper(limits, more) && TwoRates(more, before, after) && more[|more| - 1].at == t
    ensures Metered(more) == Metered(log) && Between(After(more))
    ensures After(more).pace == Paced(After(log).pace, Dispatched(t)) && After(more).pollAt == After(log).pollAt
  {
    hide TwoRates, Proper, Metered, After;
    more := Grow(limits, log, Dispatched(t), before, after);
  }

  /** The first turn of a run that started at time zero, and its poll, answered with this rate at this time. */
  lemma FirstPoll(limits: Limits, begins: real, t: real, rate: real, before: real, after: real) returns (log: seq<Event>)
    requires 0.0 <= begins <= t && (rate == before || rate == after)
    ensures Proper(limits, log) && TwoRates(log, before, after) && log[|log| - 1].at == t
    ensures Metered(log) == MeterStep(Meter(0.0, 0.0, before), Adopted(t, rate))
    ensures var s := After(log);
      && s.pace == Paced(Pace(0, 0, false, before, 0.0, 0.0, before, 0.0), Adopted(t, rate)) && Ready(s)
      && s.began == begins && s.pollAt == begins + 0.5
  {
    ProperStarts(limits, 0.0, before);
    log := [Started(0.0, before)];
    assert Metered(log[..0]) == Meter(0.0, 0.0, 0.0);
    assert Metered(log) == Meter(0.0, 0.0, before);
    hide Metered, After, Proper;
    log := Grow(limits, log, Began(begins, false), before, after);
    log := Grow(limits, log, Adopted(t, rate), before, after);
  }

  // ---------- changes that are not clear ----------

  /** A negligible change between rates of different speed beats the sum. */
  lemma SmallChangeBeatsTheSum(limits: Limits, before: real, after: real) returns (log: seq<Event>, t: real)
    requires !Clear(before, after)
    ensures Proper(limits, log) && TwoRates(log, before, after) && log[|log| - 1].at <= t
    ensures After(log).pace.sent as real > 1.0 + Reading(Metered(log), t)
  {
    hide TwoRates, Proper, Metered, After, Reading;
    if before < after {
      log, t := SmallRiseBeatsTheSum(limits, before, after);
    } else {
      log, t := SmallDropBeatsTheSum(limits, before, after);
    }
  }

  lemma LessPaid(length: real, slower: real, faster: real)
    requires length > 0.0 && Speed(slower) < Speed(faster)
    ensures Paid(length, slower) < Paid(length, faster)
  {
    assert length * Speed(faster) - length * Speed(slower) == length * (Speed(faster) - Speed(slower)) > 0.0;
  }

  /** The answer to the first poll raises the rate a little when one interval of the new rate has passed, and two
      dispatches are due. */
  lemma SmallRiseBeatsTheSum(limits: Limits, before: real, after: real) returns (log: seq<Event>, t: real)
    requires !Clear(before, after) && before < after
    ensures Proper(limits, log) && TwoRates(log, before, after) && log[|log| - 1].at <= t
    ensures After(log).pace.sent as real > 1.0 + Reading(Metered(log), t)
  {
    t := Interval(after);
    IntervalPaysForOne(after);
    assert Speed(before) < Speed(after);
    hide TwoRates, Proper, Metered, After, Interval, Speed, Paid;
    log := FirstPoll(limits, 0.0, t, after, before, after);
    assert After(log).pace == Pace(0, 0, false, after, 0.0, 0.0, after, 0.0);
    log := DispatchDue(limits, log, t, before, after);
    log := NextTurnPolled(limits, log, t, before, after);
    log := DispatchDue(limits, log, t, before, after);
    NoTimeNoReading(Meter(0.0, 0.0, before), t, after);
    DividingByInterval(t - 0.0, before);
    LessPaid(t, before, after);
  }

  /** When dispatch `n` is due at a constant rate, the first being dispatch 0. */
  function DueAt(n: nat, rate: real): real {
    n as real * Interval(rate)
  }

  lemma DueLater(n: nat, rate: real)
    ensures DueAt(0, rate) == 0.0 && 0.0 <= DueAt(n, rate) <= DueAt(n + 1, rate) == DueAt(n, rate) + Interval(rate)
  {
    IntervalPaysForOne(rate);
    assert (n as real + 1.0) * Interval(rate) == n as real * Interval(rate) + Interval(rate);
    Product(0.0, n as real, Interval(rate), Interval(rate));
  }

  /** Rounds on schedule after a first poll at `first`, the last being number `n`: one dispatch in each, when it is due or
      as soon as the poll is made, and no other poll. */
  lemma {:induction false} Rounds(limits: Limits, n: nat, first: real, before: real, after: real) returns (log: seq<Event>)
    requires before > 0.0 && first >= 0.0 && DueAt(n, before) < first + 0.5
    ensures Proper(limits, log) && TwoRates(log, before, after)
    ensures log[|log| - 1].at == Max(first, DueAt(n, before))
    ensures Metered(log) == MeterStep(Meter(0.0, 0.0, before), Adopted(first, before))
    ensures Between(After(log)) && After(log).pollAt == first + 0.5
    ensures After(log).pace == Pace(n + 1, n + 1, false, before, DueAt(n + 1, before), 0.0, before, 0.0)
  {
    DueLater(n, before);
    hide TwoRates, Proper, Metered, After, Interval, DueAt;
    if n == 0 {
      log := FirstPoll(limits, first, first, before, before, after);
    } else {
      DueLater(n - 1, before);
      log := Rounds(limits, n - 1, first, before, after);
      log := NextTurn(limits, log, Max(first, DueAt(n, before)), before, after);
    }
    log := DispatchDue(limits, log, Max(first, DueAt(n, before)), before, after);
  }

  /** Dispatches on schedule until a poll falls between two of them; its answer lowers the rate a little, and the next
      dispatch is made when the old interval is over. */
  lemma SmallDropBeatsTheSum(limits: Limits, before: real, after: real) returns (log: seq<Event>, t: real)
    requires !Clear(before, after) && after < before
    ensures Proper(limits, log) && TwoRates(log, before, after) && log[|log| - 1].at <= t
    ensures After(log).pace.sent as real > 1.0 + Reading(Metered(log), t)
  {
    var n := Speed(before).Floor;
    var poll := DueAt(n, before) + 0.5 * Interval(before);
    PollFits(n, before);
    DueLater(n, before);
    t := DueAt(n + 1, before);
    assert Speed(after) < Speed(before) && after > 0.0;
    hide TwoRates, Proper, Metered, After, Interval, Speed, Clear, Paid, DueAt, Reading;
    log := DropBetween(limits, n, poll, before, after);
    log := NextTurnPolled(limits, log, t, before, after);
    log := DispatchDue(limits, log, t, before, after);
    DropReadsLess(poll - 0.5, poll, n + 1, before, after);
  }

  /** Rounds on schedule, then a poll before the next dispatch is due; its answer lowers the rate a little. */
  lemma DropBetween(limits: Limits, n: nat, poll: real, before: real, after: real) returns (log: seq<Event>)
    requires !Restarts(before, after) && 0.0 < after < before
    requires DueAt(n, before) < poll && poll >= 0.5
    ensures Proper(limits, log) && TwoRates(log, before, after) && log[|log| - 1].at == poll
    ensures Metered(log)
         == MeterStep(MeterStep(Meter(0.0, 0.0, before), Adopted(poll - 0.5, before)), Adopted(poll, after))
    ensures Between(After(log))
    ensures After(log).pace == Pace(n + 1, n + 1, false, after, DueAt(n + 1, before), 0.0, before, 0.0)
  {
    hide TwoRates, Proper, Metered, After, Interval, MeterStep, DueAt;
    log := Rounds(limits, n, poll - 0.5, before, after);
    log := NextTurn(limits, log, poll, before, after);
    log := AdoptSmallDrop(limits, log, poll, before, after);
  }

  lemma AdoptSmallDrop(limits: Limits, log: seq<Event>, t: real, before: real, after: real) returns (more: seq<Event>)
    requires Proper(limits, log) && TwoRates(log, before, after) && log[|log| - 1].at == t
    requires var s := After(log);
      s.owed && s.waiting == 0 && InFlight(s) == 0 && !s.stopped && s.pace.rate == s.pace.fastest == before
    requires !Restarts(before, after) && after < before
    ensures Proper(limits, more) && TwoRates(more, before, after) && more[|more| - 1].at == t
    ensures Metered(more) == MeterStep(Metered(log), Adopted(t, after)) && Between(After(more))
    ensures After(more).pace == After(log).pace.(rate := after)
  {
    hide TwoRates, Proper, Metered, After;
    more := Grow(limits, log, Adopted(t, after), before, after);
  }

  /** Half an interval after dispatch `n` is half a second after some time since the start. */
  lemma PollFits(n: nat, rate: real)
    requires n == Speed(rate).Floor
    ensures Interval(rate) > 0.0 && DueAt(n, rate) + 0.5 * Interval(rate) >= 0.5
  {
    var length := Interval(rate);
    IntervalPaysForOne(rate);
    Product(0.5 * Speed(rate), n as real + 0.5, length, length);
    assert 0.5 * Speed(rate) * length == 0.5 * (length * Speed(rate));
    assert (n as real + 0.5) * length == n as real * length + 0.5 * length;
  }

  lemma DropReadsLess(first: real, poll: real, n: nat, before: real, after: real)
    requires Speed(after) < Speed(before) && poll < DueAt(n, before)
    ensures var m := MeterStep(MeterStep(Meter(0.0, 0.0, before), Adopted(first, before)), Adopted(poll, after));
      Reading(m, DueAt(n, before)) < n as real
  {
    var t := DueAt(n, before);
    DividingByInterval(first - 0.0, before);
    DividingByInterval(poll - first, before);
    DividingByInterval(t - poll, after);
    LessPaid(t - poll, after, before);
    PaidAdds(first, poll - first, before);
    PaidAdds(poll, t - poll, before);
    assert Paid(t, before) == n as real by {
      IntervalPaysForOne(before);
      assert n as real * Interval(before) * Speed(before) == n as real * (Interval(before) * Speed(before));
    }
  }

  // ---------- a constant rate ----------

  /** What the time since the start of the run amounts to at this rate. */
  function AtRate(log: seq<Event>, t: real, rps: real): real
    requires log != []
  {
    (t - log[0].at) * rps
  }

  /** Time at the rate itself bounds the dispatches of every run that stays at it. */
  ghost predicate RateItselfBounds(limits: Limits, rps: real) {
    forall log: seq<Event>, t: real ::
      Proper(limits, log) && TwoRates(log, rps, rps) && log[|log| - 1].at <= t ==>
        After(log).pace.sent as real <= 1.0 + AtRate(log, t, rps)
  }

  /** Time at the planned rate bounds the dispatches if and only if the rate is zero or at least one every ten seconds: a
      slower worker still dispatches one every ten seconds. */
  lemma RateItselfBoundsExactly(limits: Limits, rps: real)
    ensures RateItselfBounds(limits, rps) <==> rps == 0.0 || rps >= 0.1
  {
    hide After, May, Paced;
    if rps == 0.0 || rps >= 0.1 {
      forall log: seq<Event>, t: real | Proper(limits, log) && TwoRates(log, rps, rps) && log[|log| - 1].at <= t
        ensures After(log).pace.sent as real <= 1.0 + AtRate(log, t, rps)
      {
        ConstantPace(limits, log, rps);
        RateBound(limits, log, t);
      }
    } else {
      var log, t := SlowRateIsExceeded(limits, rps);
      assert After(log).pace.sent as real > 1.0 + AtRate(log, t, rps);
    }
  }

  /** At a constant rate nothing is banked, and at rate zero nothing is dispatched. */
  lemma {:induction false} ConstantPace(limits: Limits, log: seq<Event>, rps: real)
    requires Proper(limits, log) && TwoRates(log, rps, rps)
    ensures var p := After(log).pace;
      && p.rate == rps && p.fastest == rps && p.since == log[0].at && p.banked == 0.0 && (rps <= 0.0 ==> p.sent == 0)
    decreases |log|
  {
    LastEvent(limits, log);
    if |log| > 1 {
      ConstantPace(limits, log[..|log| - 1], rps);
    }
  }

  /** When the next dispatch is due at a constant rate. */
  lemma {:induction false} DueAtConstantRate(limits: Limits, log: seq<Event>, rps: real)
    requires Proper(limits, log) && TwoRates(log, rps, rps)
    ensures var p := After(log).pace; p.due == log[0].at + DueAt(p.sent, rps)
    decreases |log|
  {
    LastEvent(limits, log);
    var n := |log| - 1;
    if n > 0 {
      DueAtConstantRate(limits, log[..n], rps);
      ConstantPace(limits, log[..n], rps);
      hide DueAt, After, May, Paced;
      DueStep(After(log[..n]).pace, log[n], log[0].at, rps);
      StepPaces(After(log[..n]), log[n]);
    } else {
      DueLater(0, rps);
    }
  }

  lemma DueStep(p: Pace, e: Event, start: real, rps: real)
    requires p.rate == rps && p.due == start + DueAt(p.sent, rps)
    requires !e.Started? && (e.Adopted? ==> e.rps == rps)
    ensures Paced(p, e).due == start + DueAt(Paced(p, e).sent, rps)
  {
    DueLater(p.sent, rps);
    hide DueAt, Interval;
  }

  lemma StepPaces(s: State, e: Event)
    ensures Step(s, e).pace == Paced(s.pace, e)
  {
  }

  /** A run at a constant rate that has made every dispatch that was due by `t` has made one at its start and one for every
      interval since: exactly as many as the rate asks for, or one every ten seconds if that is more. */
  lemma KeepsUpExactly(limits: Limits, log: seq<Event>, t: real, rps: real)
    requires rps > 0.0 && Proper(limits, log) && TwoRates(log, rps, rps)
    requires log[|log| - 1].at <= t < After(log).pace.due
    ensures After(log).pace.sent == AtRate(log, t, Max(rps, 0.1)).Floor + 1
  {
    hide After, May, TwoRates;
    var p := After(log).pace;
    DueAtConstantRate(limits, log, rps);
    ConstantPace(limits, log, rps);
    RateBound(limits, log, t);
    hide Proper, Interval, Paid, AtRate, DueAt;
    PaidAtRate(log, p, t, rps);
    LessTime(log, t, p.sent, rps);
    FloorBelow(AtRate(log, t, Max(rps, 0.1)), p.sent);
  }

  lemma PaidAtRate(log: seq<Event>, p: Pace, t: real, rps: real)
    requires rps > 0.0 && log != [] && p.since == log[0].at && p.banked == 0.0 && p.fastest == rps
    ensures Allowance(p, t) == AtRate(log, t, Max(rps, 0.1))
  {
  }

  lemma FloorBelow(x: real, n: nat)
    requires x < n as real <= 1.0 + x
    ensures x.Floor + 1 == n
  {
  }

  lemma LessTime(log: seq<Event>, t: real, n: nat, rps: real)
    requires rps > 0.0 && log != [] && t < log[0].at + DueAt(n, rps)
    ensures AtRate(log, t, Max(rps, 0.1)) < n as real
  {
    var speed, length := Max(rps, 0.1), t - log[0].at;
    assert Interval(rps) * speed == 1.0;
    assert n as real * Interval(rps) * speed == n as real * (Interval(rps) * speed);
    assert (DueAt(n, rps) - length) * speed > 0.0;
    assert DueAt(n, rps) * speed - length * speed == (DueAt(n, rps) - length) * speed;
  }

  /** Dispatches at the start and ten seconds later; below zero, none at all. */
  lemma SlowRateIsExceeded(limits: Limits, rps: real) returns (log: seq<Event>, t: real)
    requires rps < 0.1 && rps != 0.0
    ensures Proper(limits, log) && TwoRates(log, rps, rps) && log[|log| - 1].at <= t
    ensures After(log).pace.sent as real > 1.0 + AtRate(log, t, rps)
  {
    if rps < 0.0 {
      ProperStarts(limits, 0.0, rps);
      log, t := [Started(0.0, rps)], -2.0 / rps;
    } else {
      t := 10.0;
      assert Interval(rps) == 10.0;
      hide TwoRates, Proper, Metered, After, Interval;
      log := FirstPoll(limits, 0.0, 0.0, rps, rps, rps);
      log := DispatchDue(limits, log, 0.0, rps, rps);
      log := NextTurnPolled(limits, log, t, rps, rps);
      log := DispatchDue(limits, log, t, rps, rps);
      ConstantPace(limits, log, rps);
    }
  }
}
