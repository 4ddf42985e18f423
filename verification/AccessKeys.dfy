/** Names and links of access keys shown in the workspace: the server's, or a local change the server has not sent yet. */
module AccessKeys {
  import opened Lexicographic
  import opened Timestamps

  // ---------- versions ----------

  /** What differs between implementations of `Date.parse`: whether a day past the end of its month runs on into the
      next month or makes the text no date, and what texts of other forms mean. */
  datatype Engine = Engine(rollsOver: bool, parse: string -> Option<int>)

  /** The stamp is a date to this engine. */
  predicate Accepts(engine: Engine, s: Stamp) {
    s.Known() && (engine.rollsOver || s.date.Valid())
  }

  datatype Parts = Parts(epochMillis: int, fraction: string)

  /** `backendTimestampParts`. */
  function TimestampParts(text: string, engine: Engine): Option<Parts> {
    var stamp := Read(text);
    if stamp.None? || !Accepts(engine, stamp.value) then None
    else Some(Parts(EpochSeconds(stamp.value) * 1000, Padded(stamp.value.fraction)))
  }

  predicate LaterParts(a: Parts, b: Parts) {
    if a.epochMillis != b.epochMillis then a.epochMillis > b.epochMillis else Less(b.fraction, a.fraction)
  }

  /** `isNewerAccessKeyVersion`. */
  predicate IsNewer(incoming: string, current: string, engine: Engine) {
    var a, b := TimestampParts(incoming, engine), TimestampParts(current, engine);
    if a.Some? && b.Some? then LaterParts(a.value, b.value)
    else
      var x, y := engine.parse(incoming), engine.parse(current);
      if x.Some? && y.Some? && x.value != y.value then x.value > y.value else Less(current, incoming)
  }

  /** On timestamps of the backend's form, newer means later, to the nanosecond and across time zones. */
  lemma NewerMeansLater(a: Stamp, b: Stamp, engine: Engine)
    requires Accepts(engine, a) && Accepts(engine, b)
    ensures IsNewer(Text(a), Text(b), engine) <==> Instant(a) > Instant(b)
  {
    PartsOfText(a, engine);
    PartsOfText(b, engine);
    LaterPartsAreLater(a, b);
    hide Text, TimestampParts, LaterParts, Instant, EpochSeconds, Padded;
  }

  lemma PartsOfText(s: Stamp, engine: Engine)
    requires Accepts(engine, s)
    ensures TimestampParts(Text(s), engine) == Some(Parts(EpochSeconds(s) * 1000, Padded(s.fraction)))
  {
    hide Text, Read, EpochSeconds, Padded, Stamp.Known;
    TextIsRead(s);
  }

  lemma LaterPartsAreLater(a: Stamp, b: Stamp)
    requires a.Known() && b.Known()
    ensures Instant(a) > Instant(b) <==>
      LaterParts(Parts(EpochSeconds(a) * 1000, Padded(a.fraction)), Parts(EpochSeconds(b) * 1000, Padded(b.fraction)))
  {
    BelowOneSecond(a.fraction);
    BelowOneSecond(b.fraction);
    DigitOrderIsValueOrder(Padded(b.fraction), Padded(a.fraction));
    hide EpochSeconds, Padded, Value, Less, AllDigits;
    LaterInstant(EpochSeconds(a), Value(Padded(a.fraction)), EpochSeconds(b), Value(Padded(b.fraction)));
  }

  lemma LaterInstant(s: int, x: nat, t: int, y: nat)
    requires x < 1000000000 && y < 1000000000
    ensures s * 1000000000 + x > t * 1000000000 + y <==> s > t || (s == t && x > y)
  {
  }

  lemma BelowOneSecond(fraction: string)
    requires AllDigits(fraction) && |fraction| <= 9
    ensures Value(Padded(fraction)) < 1000000000
  {
    ReadDigitsPrint(Padded(fraction));
    NineDigits();
  }

  lemma NineDigits()
    ensures Power10(9) == 1000000000
  {
    assert Power10(3) == 1000;
    assert Power10(6) == 1000 * Power10(3);
    assert Power10(9) == 1000 * Power10(6);
  }

  lemma {:induction false} NeverNewerThanItself(text: string, engine: Engine)
    ensures !IsNewer(text, text, engine)
  {
    hide TimestampParts;
    LessIsIrreflexive(text);
    if TimestampParts(text, engine).Some? {
      LessIsIrreflexive(TimestampParts(text, engine).value.fraction);
    }
  }

  // ---------- what is shown ----------

  datatype Display = Display(name: string, uri: Option<string>, updatedAt: string)

  datatype Key = Key(id: int, display: Display)

  /** `applyAccessKeyDisplay`. */
  function Apply(key: Display, override: Display, engine: Engine): Display {
    if IsNewer(key.updatedAt, override.updatedAt, engine) then key else override
  }

  function Shown(key: Key, overrides: map<int, Display>, engine: Engine): Display {
    if key.id in overrides then Apply(key.display, overrides[key.id], engine) else key.display
  }

  /** Of two versions with backend timestamps the later one is shown, the local change if they are of one instant. */
  lemma ShownIsLatest(key: Key, current: map<int, Display>, a: Stamp, b: Stamp, engine: Engine)
    requires key.id in current && Accepts(engine, a) && Accepts(engine, b)
    requires key.display.updatedAt == Text(a) && current[key.id].updatedAt == Text(b)
    ensures Shown(key, current, engine) == if Instant(a) > Instant(b) then key.display else current[key.id]
  {
    hide IsNewer, Text, Instant;
    NewerMeansLater(a, b, engine);
  }

  predicate SameText(a: Display, b: Display) {
    a.name == b.name && a.uri == b.uri
  }

  /** The snapshot has caught up with the override. */
  predicate Settles(key: Display, override: Display, engine: Engine) {
    SameText(override, key) || IsNewer(key.updatedAt, override.updatedAt, engine)
  }

  ghost predicate Settled(id: int, override: Display, keys: seq<Key>, engine: Engine) {
    exists i :: 0 <= i < |keys| && keys[i].id == id && Settles(keys[i].display, override, engine)
  }

  /** The overrides no key of the snapshot settles. */
  ghost function Reconciled(current: map<int, Display>, keys: seq<Key>, engine: Engine): map<int, Display> {
    map id | id in current && !Settled(id, current[id], keys, engine) :: current[id]
  }

  /** `reconcileAccessKeyDisplayOverrides`. */
  method Reconcile(current: map<int, Display>, keys: seq<Key>, engine: Engine)
    returns (next: map<int, Display>)
    ensures next == Reconciled(current, keys, engine)
  {
    next := current;
    var i := 0;
    while i < |keys|
      invariant 0 <= i <= |keys|
      invariant next == Reconciled(current, keys[..i], engine)
    {
      var key := keys[i];
      OneMoreKey(current, keys[..i], key, engine);
      assert keys[..i] + [key] == keys[..i + 1];
      if key.id in next && Settles(key.display, next[key.id], engine) {
        next := next - {key.id};
      }
      i := i + 1;
    }
    assert keys[..i] == keys;
  }

  lemma OneMoreKey(current: map<int, Display>, keys: seq<Key>, key: Key, engine: Engine)
    ensures var before, after := Reconciled(current, keys, engine), Reconciled(current, keys + [key], engine);
      after == if key.id in before && Settles(key.display, before[key.id], engine) then before - {key.id} else before
  {
    hide Settles;
    var more := keys + [key];
    forall id | id in current
      ensures Settled(id, current[id], more, engine)
         <==> Settled(id, current[id], keys, engine) || (id == key.id && Settles(key.display, current[id], engine))
    {
      if Settled(id, current[id], keys, engine) {
        var i :| 0 <= i < |keys| && keys[i].id == id && Settles(keys[i].display, current[id], engine);
        assert more[i] == keys[i];
      }
      assert more[|keys|] == key;
    }
  }

  predicate UniqueIds(keys: seq<Key>) {
    forall i, j :: 0 <= i < j < |keys| ==> keys[i].id != keys[j].id
  }

  /** Entries of the snapshot with the same id all settle the override of that id, or none of them does. */
  predicate EntriesAgree(current: map<int, Display>, keys: seq<Key>, engine: Engine) {
    forall i, j :: 0 <= i < |keys| && 0 <= j < |keys| && keys[i].id == keys[j].id && keys[i].id in current ==>
      (Settles(keys[i].display, current[keys[i].id], engine) ==> Settles(keys[j].display, current[keys[i].id], engine))
  }

  predicate ShowsTheSame(before: map<int, Display>, after: map<int, Display>, keys: seq<Key>, engine: Engine) {
    forall i :: 0 <= i < |keys| ==> SameText(Shown(keys[i], after, engine), Shown(keys[i], before, engine))
  }

  /** An override that a key does not settle changes what is shown of it; one that it settles does not. */
  lemma SettledMakesNoDifference(key: Key, current: map<int, Display>, engine: Engine)
    requires key.id in current
    ensures Settles(key.display, current[key.id], engine) <==> SameText(Shown(key, current, engine), key.display)
  {
  }

  /** Reconciling changes no shown name or link if and only if entries with the same id agree on its override. */
  lemma ReconcilingShowsTheSameExactly(current: map<int, Display>, keys: seq<Key>, engine: Engine)
    ensures ShowsTheSame(current, Reconciled(current, keys, engine), keys, engine) <==> EntriesAgree(current, keys, engine)
  {
    hide IsNewer, Settles, Apply;
    var next := Reconciled(current, keys, engine);
    if EntriesAgree(current, keys, engine) {
      forall i | 0 <= i < |keys|
        ensures SameText(Shown(keys[i], next, engine), Shown(keys[i], current, engine))
      {
        if keys[i].id in current {
          SettledMakesNoDifference(keys[i], current, engine);
        }
      }
    }
    if ShowsTheSame(current, next, keys, engine) {
      forall i, j | 0 <= i < |keys| && 0 <= j < |keys| && keys[i].id == keys[j].id && keys[i].id in current
                    && Settles(keys[i].display, current[keys[i].id], engine)
        ensures Settles(keys[j].display, current[keys[i].id], engine)
      {
        assert Settled(keys[i].id, current[keys[i].id], keys, engine);
        SettledMakesNoDifference(keys[j], current, engine);
        assert SameText(Shown(keys[j], next, engine), Shown(keys[j], current, engine));
      }
    }
  }

  /** So in a snapshot without repeated ids it changes none, and it drops the override of a listed key exactly when
      that override makes no difference to them. */
  lemma ReconcilingShowsTheSame(current: map<int, Display>, keys: seq<Key>, i: nat, engine: Engine)
    requires UniqueIds(keys) && i < |keys|
    ensures SameText(Shown(keys[i], Reconciled(current, keys, engine), engine), Shown(keys[i], current, engine))
    ensures keys[i].id in current ==>
      (keys[i].id in Reconciled(current, keys, engine) <==> !SameText(Shown(keys[i], current, engine), keys[i].display))
  {
    hide IsNewer, Settles, Apply;
    assert EntriesAgree(current, keys, engine);
    ReconcilingShowsTheSameExactly(current, keys, engine);
    if keys[i].id in current {
      SettledMakesNoDifference(keys[i], current, engine);
      assert Settled(keys[i].id, current[keys[i].id], keys, engine)
         <==> Settles(keys[i].display, current[keys[i].id], engine);
    }
  }

  /** Overrides of keys the snapshot does not list are kept. */
  lemma UnlistedAreKept(current: map<int, Display>, keys: seq<Key>, id: int, engine: Engine)
    requires id in current && forall i :: 0 <= i < |keys| ==> keys[i].id != id
    ensures id in Reconciled(current, keys, engine) && Reconciled(current, keys, engine)[id] == current[id]
  {
  }

  lemma ReconcilingIsIdempotent(current: map<int, Display>, keys: seq<Key>, engine: Engine)
    ensures var next := Reconciled(current, keys, engine);
      Reconciled(next, keys, engine) == next
  {
    hide Settled;
  }

  /** With a repeated id it may change what is shown: the first of two entries settles the override of the second. */
  lemma RepeatedIdsMayShowOther(engine: Engine) returns (current: map<int, Display>, keys: seq<Key>)
    ensures |keys| == 2
    ensures !SameText(Shown(keys[1], Reconciled(current, keys, engine), engine), Shown(keys[1], current, engine))
  {
    var mine, theirs := Display("a", None, ""), Display("b", None, "");
    current, keys := map[1 := mine], [Key(1, mine), Key(1, theirs)];
    NeverNewerThanItself("", engine);
    assert Settles(keys[0].display, mine, engine);
  }
}
