/** Names of backup sets: a UTC instant in fixed-width decimal, then a nonce. */
module SetNames {
  import opened Lexicographic
  import opened Retention

  /** What `created_at` keeps of an instant: whole seconds. */
  datatype Stamp = Stamp(year: nat, month: nat, day: nat, hour: nat, minute: nat, second: nat)

  datatype RawName = RawName(stamp: Stamp, micros: nat, nonce: string)

  /** The fields fit the widths of the set-name pattern. */
  predicate Fits(n: RawName) {
    && n.stamp.year < 10000 && n.stamp.month < 100 && n.stamp.day < 100
    && n.stamp.hour < 100 && n.stamp.minute < 100 && n.stamp.second < 100
    && n.micros < 1000000
  }

  type SetName = n: RawName | Fits(n) witness RawName(Stamp(2000, 1, 1, 0, 0, 0), 0, "")

  function Text(n: SetName): string {
    Digits(4, n.stamp.year) + (Digits(2, n.stamp.month) + (Digits(2, n.stamp.day) + ("T" +
    (Digits(2, n.stamp.hour) + (Digits(2, n.stamp.minute) + (Digits(2, n.stamp.second) + ("." +
    (Digits(6, n.micros) + ("Z-" + n.nonce)))))))))
  }

  /** Sets are listed by the order of their names as text. */
  predicate Older(a: SetName, b: SetName) {
    Less(Text(a), Text(b))
  }

  function Fields(n: SetName): seq<nat> {
    [n.stamp.year, n.stamp.month, n.stamp.day, n.stamp.hour, n.stamp.minute, n.stamp.second, n.micros]
  }

  /** Calendar fields compared from the year down: the order of the instants. */
  predicate Earlier(x: seq<nat>, y: seq<nat>)
    requires |x| == |y|
  {
    |x| > 0 && (x[0] < y[0] || (x[0] == y[0] && Earlier(x[1..], y[1..])))
  }

  lemma Widths()
    ensures Power10(2) == 100 && Power10(4) == 10000 && Power10(6) == 1000000
  {
    assert Power10(1) == 10 && Power10(3) == 1000 && Power10(5) == 100000;
  }

  /** One fixed-width field in front decides first. */
  lemma FieldFirst(width: nat, m: nat, n: nat, x: string, y: string)
    requires m < Power10(width) && n < Power10(width)
    ensures Less(Digits(width, m) + x, Digits(width, n) + y) <==> m < n || (m == n && Less(x, y))
  {
    DigitsKeepOrder(width, m, n);
    LessByFields(Digits(width, m), x, Digits(width, n), y);
  }

  /** Name order is time order; only names of one instant are ordered by their nonces. */
  lemma NameOrderIsTimeOrder(a: SetName, b: SetName)
    ensures Older(a, b) <==> Earlier(Fields(a), Fields(b)) || (Fields(a) == Fields(b) && Less(a.nonce, b.nonce))
  {
    hide Less, Digits, Earlier;
    Widths();
    var tail := (n: SetName) => "Z-" + n.nonce;
    var micros := (n: SetName) => Digits(6, n.micros) + tail(n);
    var second := (n: SetName) => Digits(2, n.stamp.second) + ("." + micros(n));
    var minute := (n: SetName) => Digits(2, n.stamp.minute) + second(n);
    var hour := (n: SetName) => Digits(2, n.stamp.hour) + minute(n);
    var day := (n: SetName) => Digits(2, n.stamp.day) + ("T" + hour(n));
    var month := (n: SetName) => Digits(2, n.stamp.month) + day(n);
    LessByFields("Z-", a.nonce, "Z-", b.nonce);
    FieldFirst(6, a.micros, b.micros, tail(a), tail(b));
    LessByFields(".", micros(a), ".", micros(b));
    FieldFirst(2, a.stamp.second, b.stamp.second, "." + micros(a), "." + micros(b));
    FieldFirst(2, a.stamp.minute, b.stamp.minute, second(a), second(b));
    FieldFirst(2, a.stamp.hour, b.stamp.hour, minute(a), minute(b));
    LessByFields("T", hour(a), "T", hour(b));
    FieldFirst(2, a.stamp.day, b.stamp.day, "T" + hour(a), "T" + hour(b));
    FieldFirst(2, a.stamp.month, b.stamp.month, day(a), day(b));
    FieldFirst(4, a.stamp.year, b.stamp.year, month(a), month(b));
    LessIsIrreflexive("Z-");
    LessIsIrreflexive(".");
    LessIsIrreflexive("T");
    EarlierBySuffix(Fields(a), Fields(b));
  }

  /** Unfolds `Earlier` over the seven calendar fields. */
  lemma EarlierBySuffix(x: seq<nat>, y: seq<nat>)
    requires |x| == |y| == 7
    ensures Earlier(x, y) <==>
      || x[0] < y[0]
      || (x[0] == y[0] && (|| x[1] < y[1]
      || (x[1] == y[1] && (|| x[2] < y[2]
      || (x[2] == y[2] && (|| x[3] < y[3]
      || (x[3] == y[3] && (|| x[4] < y[4]
      || (x[4] == y[4] && (|| x[5] < y[5]
      || (x[5] == y[5] && x[6] < y[6])))))))))))
  {
    forall i | 0 <= i < 7
      ensures Earlier(x[i..], y[i..]) <==> x[i] < y[i] || (x[i] == y[i] && Earlier(x[i + 1..], y[i + 1..]))
    {
      assert x[i..][1..] == x[i + 1..] && y[i..][1..] == y[i + 1..];
    }
    assert x[0..] == x && y[0..] == y;
    assert !Earlier(x[7..], y[7..]);
  }

  /** The names of these sets as text. */
  function Texts(sets: set<SetName>): set<string> {
    set n | n in sets :: Text(n)
  }

  /** Retention by name is retention by time: no kept set but the current one is from an earlier instant than a deleted
      one. */
  lemma KeptAreNewer(sets: set<SetName>, retention: nat, current: SetName, kept: SetName, doomed: SetName)
    requires retention > 0 && current in sets && kept in sets && kept != current && doomed in sets
    requires Text(kept) in Kept(Texts(sets), retention, Text(current))
    requires Text(doomed) in Doomed(Texts(sets), retention, Text(current))
    ensures Earlier(Fields(doomed), Fields(kept)) || (Fields(doomed) == Fields(kept) && Less(doomed.nonce, kept.nonce))
  {
    hide Text, Earlier, Kept, Doomed;
    if Text(kept) == Text(current) {
      TextIsInjective(kept, current);
    }
    KeepsCurrentAndNewest(Texts(sets), retention, Text(current));
    NameOrderIsTimeOrder(doomed, kept);
  }

  /** Two sets with one name are one set. */
  lemma TextIsInjective(a: SetName, b: SetName)
    requires Text(a) == Text(b)
    ensures a == b
  {
    Widths();
    var ta, tb := Text(a), Text(b);
    LessIsIrreflexive(ta);
    NameOrderIsTimeOrder(a, b);
    NameOrderIsTimeOrder(b, a);
    EarlierBySuffix(Fields(a), Fields(b));
    EarlierBySuffix(Fields(b), Fields(a));
    assert a.nonce == ta[24..] && b.nonce == tb[24..];
    var fa, fb := Fields(a), Fields(b);
    assert forall i :: 0 <= i < 7 ==> fa[i] == fb[i];
    assert a.stamp.year == fa[0] && a.stamp.month == fa[1] && a.stamp.day == fa[2] && a.stamp.hour == fa[3];
    assert b.stamp.year == fb[0] && b.stamp.month == fb[1] && b.stamp.day == fb[2] && b.stamp.hour == fb[3];
  }
}
