/** What the attempt loop reports, as functions of the log of the run. */
module AttemptLog {
  import opened Pacing
  import opened ResponseSamples

  const ERROR_LIMIT := 500

  /** Everything the finished attempts of a log add up to. `times` and `codes` are those of the answered attempts. */
  datatype Tally = Tally(
    samples: seq<Sample>,
    times: seq<real>,
    codes: seq<Option<int>>,
    kinds: seq<string>,
    refused: nat,
    lastError: Option<string>,
    lastLatency: Option<real>)

  predicate Successful(code: Option<int>) {
    code.Some? && (code.value == 200 || code.value == 202)
  }

  /** `str.lower`, as far as the letters of English go. */
  function Lowered(s: string): (r: string)
    ensures |r| == |s|
  {
    seq(|s|, i requires 0 <= i < |s| => if 'A' <= s[i] <= 'Z' then s[i] - 'A' + 'a' else s[i])
  }

  /** A refusal that ends the run: its text begins with `stop:`, written in any case. */
  predicate AsksToStop(reason: string) {
    "stop:" <= Lowered(reason)
  }

  /** Which texts those are, letter by letter; and an attempt succeeded exactly with one of two codes. */
  lemma EndsOfARun(reason: string, code: Option<int>)
    ensures AsksToStop(reason) <==>
      && |reason| >= 5 && reason[0] in "sS" && reason[1] in "tT" && reason[2] in "oO" && reason[3] in "pP"
      && reason[4] == ':'
    ensures Successful(code) <==> code in {Some(200), Some(202)}
  {
    if |reason| >= 5 {
      var r := Lowered(reason);
      assert r[..5] == [r[0], r[1], r[2], r[3], r[4]];
      assert "stop:" == ['s', 't', 'o', 'p', ':'];
      assert "stop:" <= r <==> r[..5] == "stop:";
    }
  }

  function Added(t: Tally, at: real, result: Result): Tally {
    match result
    case Raised(kind, message) =>
      t.(kinds := t.kinds + [kind],
         lastError := Some(message),
         samples := t.samples + [Sample(None, None, "", Cut(message, PREVIEW_LIMIT), kind)])
    case Refused(reason) =>
      t.(refused := t.refused + 1, lastError := Some(Cut(reason, ERROR_LIMIT)))
    case Answered(code, latency, body) =>
      t.(codes := t.codes + [code],
         times := t.times + [at],
         lastLatency := Some(latency),
         lastError := if Successful(code) then t.lastError else Some(Cut(body, ERROR_LIMIT)),
         samples := t.samples + [Sample(code, Some(latency), Cut(body, PREVIEW_LIMIT), "", "")])
  }

  function Tallied(log: seq<Event>): Tally {
    if log == [] then Tally([], [], [], [], 0, None, None)
    else
      var t, e := Tallied(log[..|log| - 1]), log[|log| - 1];
      if e.Finished? then Added(t, e.at, e.result) else t
  }

  lemma TalliedOneMore(log: seq<Event>, e: Event)
    ensures Tallied(log + [e]) == if e.Finished? then Added(Tallied(log), e.at, e.result) else Tallied(log)
  {
    assert (log + [e])[..|log|] == log;
  }

  lemma TalliedUnchanged(log: seq<Event>, e: Event)
    requires !e.Finished?
    ensures Tallied(log + [e]) == Tallied(log)
  {
    hide Added, Tallied;
    TalliedOneMore(log, e);
  }

  /** Every finished attempt was answered, raised or refused. */
  lemma {:induction false} EveryAttemptIsCounted(log: seq<Event>)
    requires forall i :: 0 < i < |log| ==> !log[i].Started?
    ensures var t := Tallied(log);
      && After(log).finished == |t.codes| + |t.kinds| + t.refused
      && |t.times| == |t.codes|
      && |t.samples| == |t.codes| + |t.kinds|
    decreases |log|
  {
    if log != [] {
      EveryAttemptIsCounted(log[..|log| - 1]);
    }
  }

  /** Answer times never decrease and none is later than the end of the log. */
  lemma {:induction false} TimesInOrder(log: seq<Event>)
    requires InOrder(log)
    ensures forall i, j :: 0 <= i < j < |Tallied(log).times| ==> Tallied(log).times[i] <= Tallied(log).times[j]
    ensures forall i :: 0 <= i < |Tallied(log).times| ==> Tallied(log).times[i] <= log[|log| - 1].at
    decreases |log|
  {
    if log != [] {
      var n := |log| - 1;
      TimesInOrder(log[..n]);
      assert n > 0 ==> log[n - 1].at <= log[n].at;
    }
  }

  // ---------- the one-second window ----------

  /** The times at most one second before `now`. */
  function Recent(times: seq<real>, now: real): seq<real> {
    if times == [] then []
    else Recent(times[..|times| - 1], now)
         + (if now - times[|times| - 1] <= 1.0 then [times[|times| - 1]] else [])
  }

  lemma {:induction false} RecentIsASuffix(times: seq<real>, now: real, k: nat)
    requires k <= |times|
    requires forall i :: 0 <= i < k ==> now - times[i] > 1.0
    requires forall i :: k <= i < |times| ==> now - times[i] <= 1.0
    ensures Recent(times, now) == times[k..]
    decreases |times|
  {
    if k < |times| {
      RecentIsASuffix(times[..|times| - 1], now, k);
      assert times[k..] == times[..|times| - 1][k..] + [times[|times| - 1]];
    } else if times != [] {
      RecentIsASuffix(times[..k - 1], now, k - 1);
    }
  }

  // ---------- counters ----------

  /** The dictionary counts exactly the occurrences in the sequence. */
  ghost predicate Counts<K(!new)>(counts: map<K, nat>, keys: seq<K>) {
    forall k :: (k in counts <==> k in keys) && (k in counts ==> counts[k] == multiset(keys)[k])
  }

  ghost function Sum<K(!new)>(counts: map<K, nat>): nat {
    if counts == map[] then 0
    else
      var k :| k in counts;
      counts[k] + Sum(counts - {k})
  }

  lemma {:induction false} SumIsSize<K(!new)>(counts: map<K, nat>, keys: multiset<K>)
    requires forall k :: (k in counts <==> k in keys) && (k in counts ==> counts[k] == keys[k])
    ensures Sum(counts) == |keys|
  {
    if counts == map[] {
      assert keys == multiset{};
    } else {
      var k :| k in counts && Sum(counts) == counts[k] + Sum(counts - {k});
      SumIsSize(counts - {k}, keys[k := 0]);
    }
  }

  /** `_add_count`. */
  function AddCount<K>(counts: map<K, nat>, key: K): map<K, nat> {
    counts[key := (if key in counts then counts[key] else 0) + 1]
  }

  lemma AddCountCounts<K(!new)>(counts: map<K, nat>, keys: seq<K>, key: K)
    requires Counts(counts, keys)
    ensures Counts(AddCount(counts, key), keys + [key])
  {
  }

  /** The counts of a dictionary add up to the number of things counted. */
  lemma CountsAddUp<K(!new)>(counts: map<K, nat>, keys: seq<K>)
    requires Counts(counts, keys)
    ensures Sum(counts) == |keys|
  {
    SumIsSize(counts, multiset(keys));
  }
}
