/** Backend timestamps as text, their parsing, and the instants they mean. */
module Timestamps {
  import opened Lexicographic

  datatype Option<+T> = None | Some(value: T)

  // ---------- the calendar ----------

  predicate Leap(year: nat) {
    year % 4 == 0 && (year % 100 != 0 || year % 400 == 0)
  }

  function DaysIn(year: nat, month: nat): nat
    requires 1 <= month <= 12
  {
    if month == 2 then (if Leap(year) then 29 else 28)
    else if month == 4 || month == 6 || month == 9 || month == 11 then 30
    else 31
  }

  datatype Date = Date(year: nat, month: nat, day: nat) {
    /** Every field is in the range of the notation, though the month may be shorter. */
    predicate Known() {
      1 <= month <= 12 && 1 <= day <= 31
    }

    predicate Valid() {
      Known() && day <= DaysIn(year, month)
    }

    function Next(): Date
      requires Valid()
    {
      if day < DaysIn(year, month) then Date(year, month, day + 1)
      else if month < 12 then Date(year, month + 1, 1)
      else Date(year + 1, 1, 1)
    }
  }

  /** Days of this year before this month. */
  function Elapsed(year: nat, month: nat): nat
    requires 1 <= month <= 12
    decreases month
  {
    if month == 1 then 0 else Elapsed(year, month - 1) + DaysIn(year, month - 1)
  }

  /** Days before this year, counted from year 0. */
  function DaysBefore(year: nat): int {
    if year == 0 then 0 else 365 * year + LeapYears(year - 1) + 1
  }

  /** Leap years from year 1 up to this one. */
  function LeapYears(year: nat): int {
    year / 4 - year / 100 + year / 400
  }

  /** Days since 1970-01-01; days past the end of a month run on into the next. */
  function EpochDay(d: Date): int
    requires d.Known()
  {
    DaysBefore(d.year) - DaysBefore(1970) + Elapsed(d.year, d.month) + d.day - 1
  }

  lemma FourthYears(y: nat)
    ensures (y + 1) / 4 - y / 4 == if (y + 1) % 4 == 0 then 1 else 0
  {
  }

  lemma Centuries(y: nat)
    ensures (y + 1) / 100 - y / 100 == if (y + 1) % 100 == 0 then 1 else 0
    ensures (y + 1) % 100 == 0 ==> (y + 1) % 4 == 0
  {
  }

  lemma FourthCenturies(y: nat)
    ensures (y + 1) / 400 - y / 400 == if (y + 1) % 400 == 0 then 1 else 0
    ensures (y + 1) % 400 == 0 ==> (y + 1) % 100 == 0
  {
  }

  lemma LeapYearsAreCounted(y: nat)
    ensures LeapYears(y + 1) - LeapYears(y) == if Leap(y + 1) then 1 else 0
  {
    FourthYears(y);
    Centuries(y);
    FourthCenturies(y);
  }

  lemma YearLength(year: nat)
    ensures DaysBefore(year + 1) - DaysBefore(year) == if Leap(year) then 366 else 365
  {
    if year > 0 {
      LeapYearsAreCounted(year - 1);
      hide LeapYears, Leap;
    } else {
      assert LeapYears(0) == 0;
    }
  }

  /** Every day is one more than the day before, and the first day of 1970 is day 0. */
  lemma DaysAreCounted(d: Date)
    requires d.Valid()
    ensures d.Next().Valid() && EpochDay(d.Next()) == EpochDay(d) + 1
    ensures EpochDay(Date(1970, 1, 1)) == 0
  {
    YearLength(d.year);
    MonthsFillTheYear(d.year);
    hide DaysBefore, Leap;
  }

  /** A day past the end of its month is as many days into the next one. */
  lemma DaysRunOn(d: Date)
    requires d.Known() && !d.Valid()
    ensures d.month < 12 && EpochDay(d) == EpochDay(Date(d.year, d.month + 1, d.day - DaysIn(d.year, d.month)))
  {
    hide DaysBefore, Leap;
  }

  lemma MonthsFillTheYear(year: nat)
    ensures Elapsed(year, 12) + 31 == if Leap(year) then 366 else 365
  {
    assert Elapsed(year, 2) == 31;
    assert Elapsed(year, 3) == 59 + if Leap(year) then 1 else 0;
    assert Elapsed(year, 5) == Elapsed(year, 3) + 61;
    assert Elapsed(year, 7) == Elapsed(year, 5) + 61;
    assert Elapsed(year, 9) == Elapsed(year, 7) + 62;
    assert Elapsed(year, 11) == Elapsed(year, 9) + 61;
  }

  // ---------- digits ----------

  predicate IsDigit(c: char) {
    '0' <= c <= '9'
  }

  predicate AllDigits(s: string) {
    forall i :: 0 <= i < |s| ==> IsDigit(s[i])
  }

  function Value(s: string): (v: nat)
    requires AllDigits(s)
  {
    if s == "" then 0 else Value(s[..|s| - 1]) * 10 + (s[|s| - 1] as int - '0' as int)
  }

  lemma {:induction false} DigitsAreRead(width: nat, n: nat)
    requires n < Power10(width)
    ensures AllDigits(Digits(width, n)) && Value(Digits(width, n)) == n
  {
    if width > 0 {
      DigitsAreRead(width - 1, n / 10);
      var s := Digits(width, n);
      assert s[..width - 1] == Digits(width - 1, n / 10);
      assert s[width - 1] == ('0' as int + n % 10) as char;
    }
  }

  lemma {:induction false} ReadDigitsPrint(s: string)
    requires AllDigits(s)
    ensures Value(s) < Power10(|s|) && Digits(|s|, Value(s)) == s
  {
    if s != "" {
      var n := |s| - 1;
      ReadDigitsPrint(s[..n]);
      assert Value(s) / 10 == Value(s[..n]);
      assert s == s[..n] + [s[n]];
    }
  }

  /** Digit strings of one length compare like their values. */
  lemma DigitOrderIsValueOrder(a: string, b: string)
    requires AllDigits(a) && AllDigits(b) && |a| == |b|
    ensures Less(a, b) <==> Value(a) < Value(b)
    ensures a == b <==> Value(a) == Value(b)
  {
    ReadDigitsPrint(a);
    ReadDigitsPrint(b);
    DigitsKeepOrder(|a|, Value(a), Value(b));
  }

  // ---------- timestamps ----------

  datatype Zone = Unmarked | Zulu | Offset(ahead: bool, hours: nat, minutes: nat)

  /** `fraction` holds the digits after the point, none if there is no point. */
  datatype Stamp = Stamp(date: Date, hour: nat, minute: nat, second: nat, fraction: string, zone: Zone) {
    /** Every field is in range; hour 24 is the end of a day. */
    predicate Known() {
      && date.Known() && date.year < 10000
      && hour <= 24 && minute < 60 && second < 60 && (hour == 24 ==> minute == second == 0)
      && AllDigits(fraction) && |fraction| <= 9
      && (zone.Offset? ==> zone.hours < 24 && zone.minutes < 60)
    }
  }

  function ZoneText(z: Zone): string
    requires z.Offset? ==> z.hours < 24 && z.minutes < 60
  {
    match z
    case Unmarked => ""
    case Zulu => "Z"
    case Offset(ahead, hours, minutes) =>
      [if ahead then '+' else '-'] + Digits(2, hours) + ":" + Digits(2, minutes)
  }

  function DateText(d: Date): string {
    Digits(4, d.year) + "-" + Digits(2, d.month) + "-" + Digits(2, d.day) + "T"
  }

  function ClockText(hour: nat, minute: nat, second: nat): string {
    Digits(2, hour) + ":" + Digits(2, minute) + ":" + Digits(2, second)
  }

  function Head(d: Date, hour: nat, minute: nat, second: nat): string {
    DateText(d) + ClockText(hour, minute, second)
  }

  function Tail(fraction: string, zone: Zone): string
    requires zone.Offset? ==> zone.hours < 24 && zone.minutes < 60
  {
    if fraction == "" then ZoneText(zone) else "." + (fraction + ZoneText(zone))
  }

  /** The text the backend sends. */
  function Text(s: Stamp): string
    requires s.Known()
  {
    Head(s.date, s.hour, s.minute, s.second) + Tail(s.fraction, s.zone)
  }

  function OffsetSeconds(z: Zone): int {
    match z
    case Unmarked => 0
    case Zulu => 0
    case Offset(ahead, hours, minutes) => (if ahead then 1 else -1) * (hours * 3600 + minutes * 60)
  }

  /** Seconds since 1970-01-01T00:00:00Z, without the fraction. */
  function EpochSeconds(s: Stamp): int
    requires s.Known()
  {
    EpochDay(s.date) * 86400 + s.hour * 3600 + s.minute * 60 + s.second - OffsetSeconds(s.zone)
  }

  /** The fraction filled up with zeros to nine digits. */
  function Padded(fraction: string): (p: string)
    requires AllDigits(fraction) && |fraction| <= 9
    ensures |p| == 9 && AllDigits(p)
  {
    fraction + seq(9 - |fraction|, _ => '0')
  }

  /** The instant, in nanoseconds since 1970-01-01T00:00:00Z. */
  function Instant(s: Stamp): int
    requires s.Known()
  {
    EpochSeconds(s) * 1000000000 + Value(Padded(s.fraction))
  }

  // ---------- the clock ----------

  /** A time of the day other than hour 24, on a day that its month has. */
  predicate Proper(s: Stamp) {
    s.Known() && s.date.Valid() && s.hour < 24
  }

  /** The same time a second later, as a clock shows it. */
  function Tick(s: Stamp): Stamp
    requires Proper(s)
  {
    if s.second < 59 then s.(second := s.second + 1)
    else if s.minute < 59 then s.(minute := s.minute + 1, second := 0)
    else if s.hour < 23 then s.(hour := s.hour + 1, minute := 0, second := 0)
    else s.(date := s.date.Next(), hour := 0, minute := 0, second := 0)
  }

  /** Every tick of the clock is one second, over the ends of minutes, hours, days, months and years, and the count starts
      with 1970. */
  lemma SecondsAreCounted(s: Stamp)
    requires Proper(s) && Tick(s).Known()
    ensures EpochSeconds(Tick(s)) == EpochSeconds(s) + 1
    ensures EpochSeconds(Stamp(Date(1970, 1, 1), 0, 0, 0, "", Zulu)) == 0
  {
    DaysAreCounted(s.date);
    hide EpochDay;
  }

  /** Hour 24 is the first second of the next day. */
  lemma MidnightIsNextDay(s: Stamp)
    requires s.Known() && s.date.Valid() && s.hour == 24 && s.date.Next().year < 10000
    ensures EpochSeconds(s) == EpochSeconds(s.(date := s.date.Next(), hour := 0))
  {
    DaysAreCounted(s.date);
    hide EpochDay;
  }

  /** Clocks ahead of UTC show a time earlier, clocks behind it later; no zone means UTC. */
  lemma ZonesShift(s: Stamp, hours: nat, minutes: nat)
    requires s.Known() && hours < 24 && minutes < 60
    ensures var zulu := EpochSeconds(s.(zone := Zulu));
      && EpochSeconds(s.(zone := Offset(true, hours, minutes))) == zulu - (hours * 3600 + minutes * 60)
      && EpochSeconds(s.(zone := Offset(false, hours, minutes))) == zulu + (hours * 3600 + minutes * 60)
      && EpochSeconds(s.(zone := Unmarked)) == zulu
  {
    hide EpochDay;
  }

  /** A fraction of `n` digits counts units of ten to the minus `n`, and an instant its nanoseconds. */
  lemma FractionsCount(s: Stamp)
    requires s.Known()
    ensures Instant(s) == EpochSeconds(s) * 1000000000 + Value(s.fraction) * Power10(9 - |s.fraction|)
  {
    hide EpochSeconds;
    ZerosMultiply(s.fraction, 9 - |s.fraction|);
  }

  lemma {:induction false} ZerosMultiply(digits: string, n: nat)
    requires AllDigits(digits)
    ensures AllDigits(digits + seq(n, _ => '0')) && Value(digits + seq(n, _ => '0')) == Value(digits) * Power10(n)
  {
    if n == 0 {
      assert digits + seq(n, _ => '0') == digits;
    } else {
      ZerosMultiply(digits, n - 1);
      var s := digits + seq(n, _ => '0');
      assert s[..|s| - 1] == digits + seq(n - 1, _ => '0');
    }
  }

  /** Where the fields stand in the text: year, month, day, hour, minute, second, from the left. */
  lemma FieldsAreInPlace(s: Stamp)
    requires s.Known()
    ensures var t := Text(s);
      && |t| >= 19
      && t[0..4] == Digits(4, s.date.year) && t[5..7] == Digits(2, s.date.month) && t[8..10] == Digits(2, s.date.day)
      && t[11..13] == Digits(2, s.hour) && t[14..16] == Digits(2, s.minute) && t[17..19] == Digits(2, s.second)
      && t[4] == t[7] == '-' && t[10] == 'T' && t[13] == t[16] == ':'
  {
    hide Digits, Tail, Date.Known;
    var date, clock := DateText(s.date), ClockText(s.hour, s.minute, s.second);
    var t := Text(s);
    assert t == date + (clock + Tail(s.fraction, s.zone));
    assert date == t[..11] && clock == t[11..19];
    assert date[0..4] == Digits(4, s.date.year) && date[5..7] == Digits(2, s.date.month);
    assert date[8..10] == Digits(2, s.date.day);
    assert clock[0..2] == Digits(2, s.hour) && clock[3..5] == Digits(2, s.minute) && clock[6..8] == Digits(2, s.second);
  }

  // ---------- parsing ----------

  function ReadDate(t: string): Option<Date>
    requires |t| == 11
  {
    if AllDigits(t[0..4]) && t[4] == '-' && AllDigits(t[5..7]) && t[7] == '-' && AllDigits(t[8..10]) && t[10] == 'T'
    then Some(Date(Value(t[0..4]), Value(t[5..7]), Value(t[8..10])))
    else None
  }

  function ReadClock(t: string): Option<(nat, nat, nat)>
    requires |t| == 8
  {
    if AllDigits(t[0..2]) && t[2] == ':' && AllDigits(t[3..5]) && t[5] == ':' && AllDigits(t[6..8])
    then Some((Value(t[0..2]), Value(t[3..5]), Value(t[6..8])))
    else None
  }

  function ReadHead(h: string): Option<(Date, nat, nat, nat)>
    requires |h| == 19
  {
    if ReadDate(h[..11]).None? || ReadClock(h[11..]).None? then None
    else
      var (hour, minute, second) := ReadClock(h[11..]).value;
      Some((ReadDate(h[..11]).value, hour, minute, second))
  }

  function ReadZone(z: string): Option<Zone> {
    if z == "" then Some(Unmarked)
    else if z == "Z" then Some(Zulu)
    else if |z| == 6 && (z[0] == '+' || z[0] == '-') && AllDigits(z[1..3]) && z[3] == ':' && AllDigits(z[4..6])
    then Some(Offset(z[0] == '+', Value(z[1..3]), Value(z[4..6])))
    else None
  }

  /** How many digits the text begins with. */
  function Span(s: string): (n: nat)
    ensures n <= |s| && AllDigits(s[..n]) && (n < |s| ==> !IsDigit(s[n]))
  {
    if s == "" || !IsDigit(s[0]) then 0
    else
      var n := Span(s[1..]);
      assert s[..n + 1] == [s[0]] + s[1..][..n];
      n + 1
  }

  /** The optional fraction, then the optional zone. */
  function ReadTail(tail: string): Option<(string, Zone)> {
    if tail == "" || tail[0] != '.' then
      if ReadZone(tail).None? then None else Some(("", ReadZone(tail).value))
    else
      var n := Span(tail[1..]);
      if n == 0 || n > 9 || ReadZone(tail[1..][n..]).None? then None
      else Some((tail[1..][..n], ReadZone(tail[1..][n..]).value))
  }

  /** The groups of the pattern for backend timestamps. */
  function Read(text: string): Option<Stamp> {
    if |text| < 19 || ReadHead(text[..19]).None? || ReadTail(text[19..]).None? then None
    else
      var (date, hour, minute, second) := ReadHead(text[..19]).value;
      var (fraction, zone) := ReadTail(text[19..]).value;
      Some(Stamp(date, hour, minute, second, fraction, zone))
  }

  lemma DateIsRead(d: Date)
    requires d.Known() && d.year < 10000
    ensures |DateText(d)| == 11 && ReadDate(DateText(d)) == Some(d)
  {
    var t := DateText(d);
    DigitsAreRead(4, d.year);
    DigitsAreRead(2, d.month);
    DigitsAreRead(2, d.day);
    hide Digits, Value, AllDigits;
    assert t[0..4] == Digits(4, d.year);
    assert t[5..7] == Digits(2, d.month);
    assert t[8..10] == Digits(2, d.day);
  }

  lemma ClockIsRead(hour: nat, minute: nat, second: nat)
    requires hour <= 24 && minute < 60 && second < 60
    ensures |ClockText(hour, minute, second)| == 8
    ensures ReadClock(ClockText(hour, minute, second)) == Some((hour, minute, second))
  {
    var t := ClockText(hour, minute, second);
    DigitsAreRead(2, hour);
    DigitsAreRead(2, minute);
    DigitsAreRead(2, second);
    hide Digits, Value, AllDigits;
    assert t[0..2] == Digits(2, hour);
    assert t[3..5] == Digits(2, minute);
    assert t[6..8] == Digits(2, second);
  }

  lemma HeadIsRead(d: Date, hour: nat, minute: nat, second: nat)
    requires d.Known() && d.year < 10000 && hour <= 24 && minute < 60 && second < 60
    ensures |Head(d, hour, minute, second)| == 19
    ensures ReadHead(Head(d, hour, minute, second)) == Some((d, hour, minute, second))
  {
    DateIsRead(d);
    ClockIsRead(hour, minute, second);
    hide DateText, ClockText, ReadDate, ReadClock;
    var h := Head(d, hour, minute, second);
    assert h[..11] == DateText(d) && h[11..] == ClockText(hour, minute, second);
  }

  lemma ZoneIsRead(z: Zone)
    requires z.Offset? ==> z.hours < 24 && z.minutes < 60
    ensures ReadZone(ZoneText(z)) == Some(z)
    ensures ZoneText(z) != "" ==> ZoneText(z)[0] != '.' && !IsDigit(ZoneText(z)[0])
  {
    if z.Offset? {
      var t := ZoneText(z);
      DigitsAreRead(2, z.hours);
      DigitsAreRead(2, z.minutes);
      assert t[1..3] == Digits(2, z.hours);
      assert t[4..6] == Digits(2, z.minutes);
    }
  }

  lemma {:induction false} SpanOfDigits(digits: string, rest: string)
    requires AllDigits(digits) && (rest != "" ==> !IsDigit(rest[0]))
    ensures Span(digits + rest) == |digits|
  {
    if digits == "" {
      assert digits + rest == rest;
    } else {
      assert (digits + rest)[1..] == digits[1..] + rest;
      SpanOfDigits(digits[1..], rest);
    }
  }

  lemma TailIsRead(fraction: string, zone: Zone)
    requires zone.Offset? ==> zone.hours < 24 && zone.minutes < 60
    requires AllDigits(fraction) && |fraction| <= 9
    ensures ReadTail(Tail(fraction, zone)) == Some((fraction, zone))
  {
    ZoneIsRead(zone);
    hide ZoneText, ReadZone, Span;
    if fraction != "" {
      SpanOfDigits(fraction, ZoneText(zone));
      assert Tail(fraction, zone)[1..] == fraction + ZoneText(zone);
    }
  }

  /** Reading a timestamp gives back what was written. */
  lemma TextIsRead(s: Stamp)
    requires s.Known()
    ensures Read(Text(s)) == Some(s)
  {
    HeadIsRead(s.date, s.hour, s.minute, s.second);
    TailIsRead(s.fraction, s.zone);
    var head, tail := Head(s.date, s.hour, s.minute, s.second), Tail(s.fraction, s.zone);
    hide Head, Tail, ReadHead, ReadTail, Date.Known;
    assert (head + tail)[..19] == head && (head + tail)[19..] == tail;
  }
}
