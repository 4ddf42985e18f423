/** Whole runs of the alert cycle, with sends that are not acknowledged, saves that fail and files that get damaged. */
module AlertRuns {
  import opened Watchdog

  /** A save may fail before the file is replaced or after. */
  datatype Fate = Done | LostBefore | FailedAfter

  datatype Text = FailureText(codes: seq<string>) | RecoveryText

  /** One cycle and what happened to its saves and its message. */
  datatype Cycle = Cycle(codes: seq<string>, first: Fate, acked: bool, second: Fate)

  /** Damage leaves a file that does not read as a state. */
  datatype Event = Ran(cycle: Cycle) | Damaged(file: File)

  datatype Decision = Refuse | Keep | Record(state: AlertState) | Notify(pending: AlertState, text: Text, told: AlertState)

  /** What the cycle sets out to do, given the file and the failing codes. */
  function Decide(file: File, codes: seq<string>): Decision {
    var (previous, valid) := Read(file);
    if Build(codes, false).None? then Refuse
    else
      var current := Build(codes, false).value;
      if current.codes != [] then
        if valid && previous.digest == current.digest then
          if previous.notified then Keep
          else Notify(current, FailureText(current.codes), current.(notified := true))
        else if valid && previous.notified && previous.codes != [] then Record(current.(notified := true))
        else Record(current)
      else if previous.codes != [] then
        if previous.notified then Notify(HEALTHY.(notified := false), RecoveryText, HEALTHY) else Record(HEALTHY)
      else if !previous.notified then Notify(previous, RecoveryText, HEALTHY)
      else if valid then Keep
      else Record(HEALTHY)
  }

  /** The file after a cycle, the text it tried to send, whether that was acknowledged, and the last state it got into
      the file. */
  datatype Effect = Effect(file: File, attempted: Option<Text>, acked: bool, recorded: Option<AlertState>)

  function AfterSave(e: Effect, state: AlertState, fate: Fate): Effect {
    if fate == LostBefore then e else e.(file := Written(state), recorded := Some(state))
  }

  function Apply(file: File, c: Cycle): Effect {
    var start := Effect(file, None, false, None);
    match Decide(file, c.codes)
    case Refuse => start
    case Keep => start
    case Record(state) => AfterSave(start, state, c.first)
    case Notify(pending, text, told) =>
      var e := AfterSave(start, pending, c.first);
      if c.first != Done then e
      else if !c.acked then e.(attempted := Some(text))
      else AfterSave(e.(attempted := Some(text), acked := true), told, c.second)
  }

  function FileAfter(h: seq<Event>): File {
    if h == [] then Missing
    else
      var e := h[|h| - 1];
      if e.Damaged? then e.file else Apply(FileAfter(h[..|h| - 1]), e.cycle).file
  }

  /** What event `i` of the run did. */
  function At(h: seq<Event>, i: nat): Effect
    requires i < |h|
  {
    if h[i].Damaged? then Effect(h[i].file, None, false, None) else Apply(FileAfter(h[..i]), h[i].cycle)
  }

  ghost predicate Run(h: seq<Event>) {
    forall i :: 0 <= i < |h| && h[i].Damaged? ==> !Read(h[i].file).1
  }

  // ---------- what is in the file ----------

  /** A state that `Build` makes. */
  predicate Built(s: AlertState) {
    Build(s.codes, s.notified) == Some(s)
  }

  lemma BuiltIsReadBack(s: AlertState)
    requires Built(s)
    ensures Read(Written(s)) == (s, true)
  {
    SavedStateIsReadBack(s.codes, s.notified);
  }

  lemma BuildIsBuilt(codes: seq<string>, notified: bool)
    requires Build(codes, notified).Some?
    ensures Built(Build(codes, notified).value)
    ensures Build(codes, notified).value.codes == SortedSet(codes)
  {
    SortedSetAscends(codes);
    SortedSetIsCanonical(SortedSet(codes), codes);
  }

  lemma HealthyIsBuilt()
    ensures Built(HEALTHY) && Built(HEALTHY.(notified := false))
  {
  }

  /** Whatever a cycle decides to save is a proper state for that cycle's codes. */
  lemma DecidedStatesAreBuilt(file: File, codes: seq<string>)
    ensures var d := Decide(file, codes);
      && (d.Record? ==> Built(d.state) && d.state.codes == SortedSet(codes))
      && (d.Notify? ==> Built(d.pending) && d.pending.codes == SortedSet(codes) && !d.pending.notified)
      && (d.Notify? ==> d.told == d.pending.(notified := true) && Built(d.told))
  {
    hide SortedSet, Insert, Read;
    ReadIsBuilt(file);
    HealthyIsBuilt();
    if Build(codes, false).Some? {
      BuildIsBuilt(codes, false);
      BuildIsBuilt(codes, true);
    }
  }

  lemma ReadIsBuilt(file: File)
    ensures Built(Read(file).0)
  {
    HealthyIsBuilt();
    if file.Payload? && Build(file.codes, file.notified).Some? {
      BuildIsBuilt(file.codes, file.notified);
    }
  }

  /** The state a cycle last got into the file is what the file then reads as, for the codes of that cycle. */
  lemma RecordedIsRead(file: File, c: Cycle)
    ensures var e := Apply(file, c);
      && (e.recorded.None? ==> e.file == file)
      && (e.recorded.Some? ==> e.file == Written(e.recorded.value) && Read(e.file) == (e.recorded.value, true))
      && (e.recorded.Some? ==> e.recorded.value.codes == SortedSet(c.codes))
  {
    hide Decide, Read, SortedSet;
    DecidedStatesAreBuilt(file, c.codes);
    var e := Apply(file, c);
    if e.recorded.Some? {
      BuiltIsReadBack(e.recorded.value);
    }
  }

  // ---------- debouncing ----------

  /** The last event that recorded something that is still there. */
  function LastRecorded(h: seq<Event>): Option<nat> {
    if h == [] then None
    else if h[|h| - 1].Damaged? then None
    else if At(h, |h| - 1).recorded.Some? then Some(|h| - 1)
    else LastRecorded(h[..|h| - 1])
  }

  lemma {:induction false} FileIsLastRecorded(h: seq<Event>)
    requires Run(h)
    ensures LastRecorded(h).None? ==> !Read(FileAfter(h)).1
    ensures LastRecorded(h).Some? ==>
      var i := LastRecorded(h).value;
      && i < |h| && h[i].Ran? && At(h, i).recorded.Some?
      && FileAfter(h) == Written(At(h, i).recorded.value)
      && Read(FileAfter(h)) == (At(h, i).recorded.value, true)
      && At(h, i).recorded.value.codes == SortedSet(h[i].cycle.codes)
      && (forall k :: i < k < |h| ==> h[k].Ran? && At(h, k).recorded.None?)
  {
    hide Apply, Read, SortedSet;
    if h != [] {
      var n := |h| - 1;
      FileIsLastRecorded(h[..n]);
      forall i | 0 <= i < n
        ensures h[..n][i] == h[i] && h[..n][..i] == h[..i]
      {
      }
      if h[n].Ran? {
        RecordedIsRead(FileAfter(h[..n]), h[n].cycle);
      }
    } else {
      assert !Read(Missing).1 by { MissingIsNoState(); }
    }
  }

  lemma MissingIsNoState()
    ensures Read(Missing) == (HEALTHY, false)
  {
  }

  /** A failure is reported only when the last cycle that is on record saw the same set of codes and has not been
      reported. */
  lemma FailureNeedsTwoCycles(h: seq<Event>, n: nat)
    requires Run(h) && n < |h| && At(h, n).attempted.Some? && At(h, n).attempted.value.FailureText?
    ensures At(h, n).attempted == Some(FailureText(SortedSet(h[n].cycle.codes)))
    ensures LastRecorded(h[..n]).Some?
    ensures var i := LastRecorded(h[..n]).value;
      && i < n && h[i].Ran? && SortedSet(h[i].cycle.codes) == SortedSet(h[n].cycle.codes)
      && At(h, i).recorded.Some? && !At(h, i).recorded.value.notified
  {
    hide SortedSet, Read;
    assert Run(h[..n]);
    FileIsLastRecorded(h[..n]);
    FailureDecision(FileAfter(h[..n]), h[n].cycle.codes);
    if LastRecorded(h[..n]).Some? {
      var i := LastRecorded(h[..n]).value;
      assert h[..n][i] == h[i] && h[..n][..i] == h[..i];
    }
  }

  lemma FailureDecision(file: File, codes: seq<string>)
    requires Decide(file, codes).Notify? && Decide(file, codes).text.FailureText?
    ensures Decide(file, codes).text.codes == SortedSet(codes)
    ensures Read(file).1 && Read(file).0.codes == SortedSet(codes) && !Read(file).0.notified
  {
    hide SortedSet;
    ReadIsBuilt(file);
  }

  // ---------- recoveries ----------

  /** The file says that a failure was reported whose recovery was not. */
  predicate Owing(file: File) {
    var (s, valid) := Read(file);
    valid && s.notified == (s.codes != [])
  }

  predicate ToldFailure(e: Effect) {
    e.acked && e.attempted.Some? && e.attempted.value.FailureText?
  }

  predicate ToldRecovery(e: Effect) {
    e.acked && e.attempted.Some? && e.attempted.value.RecoveryText?
  }

  /** What one cycle does to what is owed. */
  lemma CycleOwes(file: File, c: Cycle)
    ensures var e := Apply(file, c);
      && (e.attempted == Some(RecoveryText) ==> Owing(file))
      && (Owing(e.file) ==> Owing(file) || ToldFailure(e))
      && (e.recorded == Some(HEALTHY) ==> !Owing(e.file))
      && (ToldRecovery(e) && c.second != LostBefore ==> !Owing(e.file))
  {
    hide SortedSet, Read;
    ReadIsBuilt(file);
    RecordedIsRead(file, c);
    UnreadIsHealthy(file);
    if Build(c.codes, false).Some? {
      BuildIsBuilt(c.codes, false);
    }
  }

  lemma UnreadIsHealthy(file: File)
    ensures !Read(file).1 ==> Read(file).0 == HEALTHY
  {
  }

  /** A failure was acknowledged, and no healthy state has been recorded since. */
  predicate Owed(h: seq<Event>) {
    if h == [] then false
    else
      var before, e := Owed(h[..|h| - 1]), At(h, |h| - 1);
      (before || ToldFailure(e)) && e.recorded != Some(HEALTHY)
  }

  lemma {:induction false} OwingMeansOwed(h: seq<Event>)
    requires Run(h) && Owing(FileAfter(h))
    ensures Owed(h)
  {
    hide Apply, Read;
    if h == [] {
      MissingIsNoState();
      assert false;
    } else {
      var n := |h| - 1;
      if h[n].Ran? {
        CycleOwes(FileAfter(h[..n]), h[n].cycle);
        if Owing(FileAfter(h[..n])) {
          OwingMeansOwed(h[..n]);
        }
      }
    }
  }

  /** A recovery is attempted only after an acknowledged failure that no recorded healthy state has followed. */
  lemma RecoveryNeedsAFailure(h: seq<Event>, n: nat)
    requires Run(h) && n < |h| && At(h, n).attempted == Some(RecoveryText)
    ensures Owed(h[..n])
  {
    hide Apply, Read;
    CycleOwes(FileAfter(h[..n]), h[n].cycle);
    OwingMeansOwed(h[..n]);
  }

  datatype Told = Told(failures: nat, recoveries: nat, unrecorded: nat)

  /** Acknowledged failures, acknowledged recoveries, and those recoveries whose recording was lost. */
  function Count(h: seq<Event>): Told {
    if h == [] then Told(0, 0, 0)
    else
      var t, e := Count(h[..|h| - 1]), At(h, |h| - 1);
      if ToldFailure(e) then t.(failures := t.failures + 1)
      else if ToldRecovery(e) then
        t.(recoveries := t.recoveries + 1,
           unrecorded := t.unrecorded + if h[|h| - 1].cycle.second == LostBefore then 1 else 0)
      else t
  }

  lemma {:induction false} RecoveriesNeedFailures(h: seq<Event>)
    requires Run(h)
    ensures var t := Count(h);
      t.recoveries + (if Owing(FileAfter(h)) then 1 else 0) <= t.failures + t.unrecorded
  {
    hide Apply, Read, Owing;
    if h == [] {
      assert !Owing(Missing) by { MissingOwesNothing(); }
    } else {
      var n := |h| - 1;
      RecoveriesNeedFailures(h[..n]);
      if h[n].Ran? {
        CycleOwes(FileAfter(h[..n]), h[n].cycle);
      } else {
        UnreadOwesNothing(h[n].file);
      }
    }
  }

  lemma MissingOwesNothing()
    ensures !Owing(Missing)
  {
  }

  lemma UnreadOwesNothing(file: File)
    requires !Read(file).1
    ensures !Owing(file)
  {
  }

  /** If no save loses its state, acknowledged recoveries never outnumber acknowledged failures, in any prefix. */
  lemma RecoveriesNeverOutnumberFailures(h: seq<Event>, n: nat)
    requires Run(h) && n <= |h|
    requires forall i :: 0 <= i < |h| && h[i].Ran? ==> h[i].cycle.second != LostBefore
    ensures Count(h[..n]).recoveries <= Count(h[..n]).failures
  {
    RecoveriesNeedFailures(h[..n]);
    NothingUnrecorded(h[..n]);
  }

  lemma {:induction false} NothingUnrecorded(h: seq<Event>)
    requires forall i :: 0 <= i < |h| && h[i].Ran? ==> h[i].cycle.second != LostBefore
    ensures Count(h).unrecorded == 0
  {
    hide Apply;
    if h != [] {
      NothingUnrecorded(h[..|h| - 1]);
    }
  }

  // ---------- retrying ----------

  /** Cycles with this set of codes whose first save works and whose message is not acknowledged. */
  ghost predicate Unheard(cycles: seq<Cycle>, codes: seq<string>) {
    forall i :: 0 <= i < |cycles| ==> SortedSet(cycles[i].codes) == SortedSet(codes) && cycles[i].first == Done && !cycles[i].acked
  }

  function RunFrom(file: File, cycles: seq<Cycle>): File {
    if cycles == [] then file else Apply(RunFrom(file, cycles[..|cycles| - 1]), cycles[|cycles| - 1]).file
  }

  lemma SameSetSameDecision(file: File, a: seq<string>, b: seq<string>)
    requires SortedSet(a) == SortedSet(b)
    ensures Decide(file, a) == Decide(file, b)
  {
    hide Read;
    assert forall c :: c in a <==> c in SortedSet(a);
    assert forall c :: c in b <==> c in SortedSet(b);
  }

  /** Once the pending state is in the file, the same codes lead to the same message; once the told state is, to none. */
  lemma DecisionAfterSaving(file: File, codes: seq<string>)
    requires Decide(file, codes).Notify?
    ensures Decide(Written(Decide(file, codes).pending), codes) == Decide(file, codes)
    ensures Decide(Written(Decide(file, codes).told), codes) == Keep
  {
    hide Read, SortedSet;
    ReadIsBuilt(file);
    HealthyIsBuilt();
    BuildIsBuilt(codes, false);
    DecidedStatesAreBuilt(file, codes);
    BuiltIsReadBack(Decide(file, codes).pending);
    BuiltIsReadBack(Decide(file, codes).told);
  }

  /** A message that is not acknowledged is tried again on every further cycle with the same codes. */
  lemma {:induction false} UnheardIsRetried(file: File, cycles: seq<Cycle>, codes: seq<string>, next: Cycle)
    requires Decide(file, codes).Notify?
    requires Unheard(cycles, codes) && SortedSet(next.codes) == SortedSet(codes)
    ensures Decide(RunFrom(file, cycles), codes) == Decide(file, codes)
    ensures Apply(RunFrom(file, cycles), next).attempted
         == if next.first == Done then Some(Decide(file, codes).text) else None
    decreases |cycles|
  {
    hide Decide, SortedSet;
    if cycles != [] {
      var n := |cycles| - 1;
      UnheardIsRetried(file, cycles[..n], codes, cycles[n]);
      SameSetSameDecision(RunFrom(file, cycles[..n]), cycles[n].codes, codes);
      DecisionAfterSaving(RunFrom(file, cycles[..n]), codes);
    }
    SameSetSameDecision(RunFrom(file, cycles), next.codes, codes);
  }

  /** Once a message is acknowledged and that is recorded, further cycles with the same codes send nothing and leave
      the file alone. */
  lemma {:induction false} HeardIsNotRepeated(file: File, c: Cycle, cycles: seq<Cycle>)
    requires Apply(file, c).acked && c.second != LostBefore
    requires forall i :: 0 <= i < |cycles| ==> SortedSet(cycles[i].codes) == SortedSet(c.codes)
    ensures RunFrom(Apply(file, c).file, cycles) == Apply(file, c).file
    ensures cycles != [] ==>
      Apply(RunFrom(Apply(file, c).file, cycles[..|cycles| - 1]), cycles[|cycles| - 1]).attempted == None
    decreases |cycles|
  {
    hide Decide, SortedSet;
    DecisionAfterSaving(file, c.codes);
    var told := Apply(file, c).file;
    if cycles != [] {
      var n := |cycles| - 1;
      HeardIsNotRepeated(file, c, cycles[..n]);
      SameSetSameDecision(told, cycles[n].codes, c.codes);
    }
  }

  /** Two cycles in a row with the same problems and working saves attempt to report them, exactly unless the file
      already held the report of some failure. */
  lemma SecondCycleReports(file: File, a: Cycle, b: Cycle)
    requires Build(a.codes, false).Some? && a.codes != [] && SortedSet(a.codes) == SortedSet(b.codes)
    requires a.first == Done && a.second == Done && b.first == Done
    ensures var text := Some(FailureText(SortedSet(a.codes)));
      var reported := Read(file).1 && Read(file).0.notified && Read(file).0.codes != [];
      !reported <==> Apply(file, a).attempted == text || Apply(Apply(file, a).file, b).attempted == text
  {
    hide SortedSet, Read;
    ReadIsBuilt(file);
    UnreadIsHealthy(file);
    BuildIsBuilt(a.codes, false);
    BuildIsBuilt(a.codes, true);
    RecordedIsRead(file, a);
    SameSetSameDecision(Apply(file, a).file, a.codes, b.codes);
    assert a.codes[0] in SortedSet(a.codes);
  }

  lemma NothingSorts()
    ensures SortedSet([]) == []
  {
  }

  // ---------- what is announced ----------

  /** A healthy cycle announces a recovery if and only if the file owes one and the pending state was saved; an unhealthy
      one never does. */
  lemma RecoveryIsAnnouncedExactly(file: File, c: Cycle)
    ensures Apply(file, c).attempted == Some(RecoveryText) <==> Owing(file) && c.codes == [] && c.first == Done
  {
    hide SortedSet, Read;
    ReadIsBuilt(file);
    UnreadIsHealthy(file);
    NothingSorts();
    if c.codes != [] {
      assert c.codes[0] in SortedSet(c.codes);
    }
  }

  /** A cycle reports a failure if and only if the file holds the same problems, not yet reported, and the pending state was
      saved. */
  lemma FailureIsReportedExactly(file: File, c: Cycle)
    requires Build(c.codes, false).Some?
    ensures var (s, valid) := Read(file);
      Apply(file, c).attempted == Some(FailureText(SortedSet(c.codes)))
      <==> c.codes != [] && valid && s.codes == SortedSet(c.codes) && !s.notified && c.first == Done
  {
    hide SortedSet, Read;
    ReadIsBuilt(file);
    NothingSorts();
    if c.codes != [] {
      assert c.codes[0] in SortedSet(c.codes);
    }
  }

  /** A failure was reported and its recovery is not under way. */
  predicate Reported(file: File) {
    var (s, valid) := Read(file);
    valid && s.notified && s.codes != []
  }

  /** A reported failure stays reported through every unhealthy cycle, whatever its codes and its saves, and through healthy
      ones whose pending state did not get into the file. */
  lemma ReportedStays(file: File, c: Cycle)
    requires Reported(file) && (c.codes != [] || c.first == LostBefore)
    ensures Reported(Apply(file, c).file) && Apply(file, c).attempted == None
  {
    hide SortedSet, Read;
    ReadIsBuilt(file);
    RecordedIsRead(file, c);
    NothingSorts();
    if c.codes != [] {
      assert c.codes[0] in SortedSet(c.codes);
    }
  }

  lemma ReportIsRecorded(file: File, c: Cycle)
    requires ToldFailure(Apply(file, c)) && c.second != LostBefore
    ensures Reported(Apply(file, c).file)
  {
    hide SortedSet, Read;
    DecidedStatesAreBuilt(file, c.codes);
    RecordedIsRead(file, c);
    NothingSorts();
    if c.codes != [] {
      assert c.codes[0] in SortedSet(c.codes);
    }
  }

  /** The events from `i` on are cycles that see problems, or whose first save is lost. */
  ghost predicate NoHealthySave(h: seq<Event>, i: nat) {
    forall k :: i <= k < |h| ==> h[k].Ran? && (h[k].cycle.codes != [] || h[k].cycle.first == LostBefore)
  }

  lemma {:induction false} ReportedLasts(h: seq<Event>, i: nat)
    requires i < |h| && h[i].Ran? && ToldFailure(At(h, i)) && h[i].cycle.second != LostBefore
    requires NoHealthySave(h, i + 1)
    ensures Reported(FileAfter(h))
    decreases |h|
  {
    hide Apply, Read, Reported;
    var n := |h| - 1;
    if i == n {
      ReportIsRecorded(FileAfter(h[..n]), h[n].cycle);
    } else {
      assert h[..n][..i] == h[..i];
      ReportedLasts(h[..n], i);
      ReportedStays(FileAfter(h[..n]), h[n].cycle);
    }
  }

  /** Once a failure was acknowledged and that was recorded, the first healthy cycle whose save gets into the file announces
      the recovery, exactly if that save did not raise; however many problems come and go in between. */
  lemma ReportedFailureIsFollowedUp(h: seq<Event>, i: nat, n: nat)
    requires i < n < |h| && h[i].Ran? && ToldFailure(At(h, i)) && h[i].cycle.second != LostBefore
    requires NoHealthySave(h[..n], i + 1)
    requires h[n].Ran? && h[n].cycle.codes == []
    ensures At(h, n).attempted == Some(RecoveryText) <==> h[n].cycle.first == Done
  {
    hide Apply, Read;
    assert h[..n][..i] == h[..i];
    ReportedLasts(h[..n], i);
    RecoveryIsAnnouncedExactly(FileAfter(h[..n]), h[n].cycle);
  }

  /** A healthy cycle whose calls all work leaves the healthy state on file, with nothing owed. */
  lemma HealthyCycleSettles(file: File, c: Cycle)
    requires c.codes == [] && c.first == Done && c.acked && c.second == Done
    ensures Read(Apply(file, c).file) == (HEALTHY, true)
  {
    hide SortedSet, Read;
    ReadIsBuilt(file);
    UnreadIsHealthy(file);
    NothingSorts();
    RecordedIsRead(file, c);
  }

  /** A recovery that is not yet acknowledged stays owed through a cycle if and only if the cycle records nothing, or it
      is healthy and its message is not both acknowledged and recorded as such. */
  lemma PendingRecoverySurvivesExactly(file: File, a: Cycle)
    requires Read(file) == (HEALTHY.(notified := false), true)
    requires Build(a.codes, false).Some?
    ensures Owing(Apply(file, a).file)
       <==> a.first == LostBefore || (a.codes == [] && !(Apply(file, a).acked && a.second != LostBefore))
  {
    hide SortedSet, Read;
    HealthyIsBuilt();
    RecordedIsRead(file, a);
    if a.codes == [] {
      NothingSorts();
    } else {
      assert a.codes[0] in SortedSet(a.codes);
    }
  }

  /** So a new problem takes the place of a recovery that was not acknowledged: if it clears before it is reported, the
      earlier recovery is never announced. */
  lemma NewProblemDropsTheRecovery(file: File, a: Cycle, b: Cycle)
    requires Read(file) == (HEALTHY.(notified := false), true)
    requires Build(a.codes, false).Some? && a.codes != [] && a.first != LostBefore
    requires b.codes == [] && b.first != LostBefore
    ensures Owing(file) && !Owing(Apply(file, a).file)
    ensures Apply(file, a).attempted == None
    ensures Apply(Apply(file, a).file, b) == Effect(Written(HEALTHY), None, false, Some(HEALTHY))
  {
    hide SortedSet, Read;
    PendingRecoverySurvivesExactly(file, a);
    assert a.codes[0] in SortedSet(a.codes);
    RecordedIsRead(file, a);
    NothingSorts();
  }

  /** A recovery that was acknowledged but could not be recorded is announced again. */
  lemma UnrecordedRecoveryRepeats(file: File, a: Cycle, b: Cycle)
    requires ToldRecovery(Apply(file, a)) && a.second == LostBefore
    requires SortedSet(b.codes) == SortedSet(a.codes) && b.first == Done
    ensures Apply(Apply(file, a).file, b).attempted == Some(RecoveryText)
  {
    hide Decide, SortedSet;
    DecisionAfterSaving(file, a.codes);
    SameSetSameDecision(Apply(file, a).file, b.codes, a.codes);
  }

  /** A cycle raises for a code that is not allowed, and when a save it makes does. */
  predicate Raises(file: File, c: Cycle) {
    match Decide(file, c.codes)
    case Refuse => true
    case Keep => false
    case Record(_) => c.first != Done
    case Notify(_, _, _) => c.first != Done || (c.acked && c.second != Done)
  }

  // ---------- the cycle ----------

  class Monitor {
    var file: File
    ghost var history: seq<Event>

    ghost predicate Valid()
      reads this
    {
      Run(history) && file == FileAfter(history)
    }

    constructor ()
      ensures Valid() && history == []
    {
      file, history := Missing, [];
    }

    /** The file is lost or spoilt between two cycles. */
    method Damage(left: File)
      requires Valid() && !Read(left).1
      modifies this
      ensures Valid() && history == old(history) + [Damaged(left)]
    {
      hide Apply, Read;
      Appended(file, Damaged(left));
      file, history := left, history + [Damaged(left)];
    }

    lemma Appended(before: File, e: Event)
      requires Run(history) && before == FileAfter(history) && (e.Damaged? ==> !Read(e.file).1)
      ensures Run(history + [e])
      ensures FileAfter(history + [e]) == if e.Damaged? then e.file else Apply(before, e.cycle).file
    {
      hide Apply, Read;
      assert (history + [e])[..|history|] == history;
    }

    /** `save_alert_state`. */
    method Save(state: AlertState) returns (ok: bool, ghost fate: Fate)
      modifies this`file
      ensures file == if fate == LostBefore then old(file) else Written(state)
      ensures ok <==> fate == Done
    {
      var early: bool, late: bool := *, *;
      if early {
        return false, LostBefore;
      }
      file := Payload(state.digest, state.codes, state.notified);
      ok, fate := !late, if late then FailedAfter else Done;
    }

    /** A single save ends the cycle. */
    method SaveAndReturn(state: AlertState) returns (r: Option<AlertState>, ghost fate: Fate)
      requires Built(state)
      modifies this`file
      ensures file == if fate == LostBefore then old(file) else Written(state)
      ensures r == if fate == Done then Some(state) else None
      ensures r.Some? ==> Read(file).0 == r.value
    {
      hide Read;
      BuiltIsReadBack(state);
      var ok;
      ok, fate := Save(state);
      r := if ok then Some(state) else None;
    }

    /** Saves the pending state, tries to send, and saves that the message was acknowledged. */
    method Deliver(pending: AlertState, text: Text, told: AlertState)
      returns (r: Option<AlertState>, attempted: Option<Text>, ghost first: Fate, ghost acked: bool, ghost second: Fate)
      requires Built(pending) && Built(told)
      modifies this`file
      ensures var start := Effect(old(file), None, false, None);
        var e := AfterSave(start, pending, first);
        var f := e.(attempted := Some(text), acked := true);
        && file == (if first == Done && acked then AfterSave(f, told, second).file else e.file)
        && attempted == (if first == Done then Some(text) else None)
      ensures r.None? <==> first != Done || (acked && second != Done)
      ensures r.Some? ==> Read(file).0 == r.value
    {
      hide Read, Written;
      BuiltIsReadBack(pending);
      var ok, delivered: bool := true, *;
      attempted, acked, second := None, delivered, Done;
      ok, first := Save(pending);
      if !ok {
        return None, attempted, first, acked, second;
      }
      attempted := Some(text);
      if !delivered {
        return Some(pending), attempted, first, acked, second;
      }
      r, second := SaveAndReturn(told);
    }

    /** `run_alert_cycle`: the state it returns, or nothing when it raises. */
    method RunAlertCycle(codes: seq<string>) returns (r: Option<AlertState>, attempted: Option<Text>, ghost c: Cycle)
      requires Valid()
      modifies this
      ensures Valid() && c.codes == codes && history == old(history) + [Ran(c)]
      ensures attempted == Apply(old(file), c).attempted
      ensures r.None? <==> Raises(old(file), c)
      ensures r.Some? ==> Read(file).0 == r.value
    {
      hide Run, FileAfter, Read, Apply, SortedSet, Raises;
      ghost var before := file;
      r, attempted, c := Turn(codes);
      Appended(before, Ran(c));
      history := history + [Ran(c)];
    }

    method Turn(codes: seq<string>) returns (r: Option<AlertState>, attempted: Option<Text>, ghost c: Cycle)
      modifies this`file
      ensures c.codes == codes && file == Apply(old(file), c).file && attempted == Apply(old(file), c).attempted
      ensures r.None? <==> Raises(old(file), c)
      ensures r.Some? ==> Read(file).0 == r.value
    {
      hide Read, SortedSet, Written;
      ReadIsBuilt(file);
      UnreadIsHealthy(file);
      HealthyIsBuilt();
      DecidedStatesAreBuilt(file, codes);
      r, attempted, c := None, None, Cycle(codes, Done, false, Done);
      var (previous, valid) := Read(file);
      var built := Build(codes, false);
      if built.None? {
        return;
      }
      BuildIsBuilt(codes, true);
      var current := built.value;
      var pending, text;
      ghost var first, acked, second;
      if current.codes != [] {
        if valid && previous.digest == current.digest {
          if previous.notified {
            return Some(previous), None, c;
          }
          pending, text := current, FailureText(current.codes);
        } else if valid && previous.notified && previous.codes != [] {
          var reported := Build(current.codes, true).value;
          r, first := SaveAndReturn(reported);
          return r, None, c.(first := first);
        } else {
          r, first := SaveAndReturn(current);
          return r, None, c.(first := first);
        }
      } else if previous.codes != [] {
        if !previous.notified {
          r, first := SaveAndReturn(HEALTHY);
          return r, None, c.(first := first);
        }
        pending, text := HEALTHY.(notified := false), RecoveryText;
      } else if !previous.notified {
        pending, text := previous, RecoveryText;
      } else {
        if !valid {
          r, first := SaveAndReturn(HEALTHY);
          return r, None, c.(first := first);
        }
        return Some(HEALTHY), None, c;
      }
      r, attempted, first, acked, second := Deliver(pending, text, Build(current.codes, true).value);
      c := Cycle(codes, first, acked, second);
    }
  }
}
