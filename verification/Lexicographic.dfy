/** Code-point order on strings, the order Python's `sorted` uses for names. */
module Lexicographic {

  predicate Less(a: string, b: string) {
    if b == [] then false
    else if a == [] then true
    else a[0] < b[0] || (a[0] == b[0] && Less(a[1..], b[1..]))
  }

  lemma {:induction false} LessIsIrreflexive(a: string)
    ensures !Less(a, a)
  {
    if a != [] {
      LessIsIrreflexive(a[1..]);
    }
  }

  lemma {:induction false} LessIsTransitive(a: string, b: string, c: string)
    requires Less(a, b) && Less(b, c)
    ensures Less(a, c)
  {
    if a != [] && a[0] == b[0] && b[0] == c[0] {
      LessIsTransitive(a[1..], b[1..], c[1..]);
    }
  }

  lemma {:induction false} LessIsTotal(a: string, b: string)
    ensures Less(a, b) || a == b || Less(b, a)
  {
    if a != [] && b != [] && a[0] == b[0] {
      LessIsTotal(a[1..], b[1..]);
      assert a == [a[0]] + a[1..] && b == [b[0]] + b[1..];
    }
  }

  ghost predicate Ascending(names: seq<string>) {
    forall i, j :: 0 <= i < j < |names| ==> Less(names[i], names[j])
  }

  /** A list in strict name order is determined by its members. */
  lemma {:induction false} AscendingIsUnique(a: seq<string>, b: seq<string>)
    requires Ascending(a) && Ascending(b)
    requires forall s :: s in a <==> s in b
    ensures a == b
  {
    assert b != [] ==> b[0] in a;
    if a != [] {
      assert a[0] in b && b[0] in a;
      var i :| 0 <= i < |b| && b[i] == a[0];
      var j :| 0 <= j < |a| && a[j] == b[0];
      if a[0] != b[0] {
        assert Less(b[0], b[i]) && Less(a[0], a[j]);
        LessIsTransitive(a[0], b[0], a[0]);
        LessIsIrreflexive(a[0]);
      }
      LessIsIrreflexive(a[0]);
      assert a[0] !in a[1..] && b[0] !in b[1..];
      forall s
        ensures s in a[1..] <==> s in b[1..]
      {
        assert s in a <==> s == a[0] || s in a[1..];
        assert s in b <==> s == b[0] || s in b[1..];
      }
      AscendingIsUnique(a[1..], b[1..]);
      assert a == [a[0]] + a[1..] && b == [b[0]] + b[1..];
    }
  }

  /** Strings that begin with fields of one width compare field by field. */
  lemma {:induction false} LessByFields(a: string, x: string, b: string, y: string)
    requires |a| == |b|
    ensures Less(a + x, b + y) <==> Less(a, b) || (a == b && Less(x, y))
  {
    if a == [] {
      assert a + x == x && b + y == y;
    } else {
      assert (a + x)[1..] == a[1..] + x && (b + y)[1..] == b[1..] + y;
      assert a == [a[0]] + a[1..] && b == [b[0]] + b[1..];
      LessByFields(a[1..], x, b[1..], y);
    }
  }

  function Power10(width: nat): (p: nat)
    ensures p > 0
  {
    if width == 0 then 1 else 10 * Power10(width - 1)
  }

  /** `n` in decimal, zero-padded to `width` digits. */
  function Digits(width: nat, n: nat): (s: string)
    ensures |s| == width
  {
    if width == 0 then "" else Digits(width - 1, n / 10) + [('0' as int + n % 10) as char]
  }

  lemma {:induction false} DigitsKeepOrder(width: nat, m: nat, n: nat)
    requires m < Power10(width) && n < Power10(width)
    ensures Less(Digits(width, m), Digits(width, n)) <==> m < n
    ensures Digits(width, m) == Digits(width, n) <==> m == n
  {
    if width > 0 {
      var last := (k: nat) => [('0' as int + k % 10) as char];
      DigitsKeepOrder(width - 1, m / 10, n / 10);
      LessByFields(Digits(width - 1, m / 10), last(m), Digits(width - 1, n / 10), last(n));
      assert Digits(width, m)[..width - 1] == Digits(width - 1, m / 10);
      assert Digits(width, n)[..width - 1] == Digits(width - 1, n / 10);
      assert Digits(width, m)[width - 1] == last(m)[0] && Digits(width, n)[width - 1] == last(n)[0];
    }
  }
}
