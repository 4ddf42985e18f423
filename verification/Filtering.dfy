/** Keeping the wanted entries of a stream, in order. */
module Filtering {

  function Filtered<T>(stream: seq<T>, wanted: T -> bool): seq<T> {
    if stream == [] then []
    else Filtered(stream[..|stream| - 1], wanted)
         + (if wanted(stream[|stream| - 1]) then [stream[|stream| - 1]] else [])
  }

  lemma FilteredOneMore<T>(stream: seq<T>, wanted: T -> bool, x: T)
    ensures Filtered(stream + [x], wanted)
         == if wanted(x) then Filtered(stream, wanted) + [x] else Filtered(stream, wanted)
  {
    assert (stream + [x])[..|stream|] == stream;
  }

  lemma {:induction false} FilteredGrows<T>(stream: seq<T>, wanted: T -> bool, i: nat)
    requires i <= |stream|
    ensures |Filtered(stream[..i], wanted)| <= |Filtered(stream, wanted)|
    decreases |stream| - i
  {
    if i < |stream| {
      assert stream[..i + 1][..i] == stream[..i];
      FilteredGrows(stream, wanted, i + 1);
    } else {
      assert stream[..i] == stream;
    }
  }

  /** At most the first `n` entries; none for a negative `n`. */
  function AtMost<T>(s: seq<T>, n: int): seq<T> {
    if n <= 0 then [] else if |s| <= n then s else s[..n]
  }

  lemma AtMostOneMore<T>(s: seq<T>, n: int, x: T)
    ensures AtMost(s + [x], n) == if |AtMost(s, n)| < n then AtMost(s, n) + [x] else AtMost(s, n)
  {
  }
}
