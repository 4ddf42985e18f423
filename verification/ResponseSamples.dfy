/** The bounded summary of an attempt log: its first and last three samples, and the first three of each status. */
module ResponseSamples {
  import opened Pacing

  /** Bodies and errors are cut at this length. */
  const PREVIEW_LIMIT := 2000

  datatype Sample = Sample(code: Option<int>, latency: Option<real>, body: string, error: string, kind: string)

  function Cut(text: string, limit: nat): (s: string)
    ensures s <= text && |s| <= limit
    ensures s == text || |s| == limit
  {
    if |text| <= limit then text else text[..limit]
  }

  function FirstThree<T>(s: seq<T>): seq<T> {
    if |s| < 3 then s else s[..3]
  }

  function LastThree<T>(s: seq<T>): seq<T> {
    if |s| < 3 then s else s[|s| - 3..]
  }

  /** The samples with this status, in order. */
  function WithStatus(all: seq<Sample>, code: int): seq<Sample> {
    if all == [] then []
    else WithStatus(all[..|all| - 1], code)
         + (if all[|all| - 1].code == Some(code) then [all[|all| - 1]] else [])
  }

  lemma WithStatusGrows(all: seq<Sample>, sample: Sample, code: int)
    ensures WithStatus(all + [sample], code)
         == WithStatus(all, code) + (if sample.code == Some(code) then [sample] else [])
  {
    assert (all + [sample])[..|all|] == all;
  }

  lemma FirstThreeGrows<T>(s: seq<T>, x: T)
    ensures FirstThree(s + [x]) == if |FirstThree(s)| < 3 then FirstThree(s) + [x] else FirstThree(s)
  {
  }

  lemma LastThreeGrows<T>(s: seq<T>, x: T)
    ensures var longer := LastThree(s) + [x];
      LastThree(s + [x]) == if |longer| > 3 then longer[|longer| - 3..] else longer
  {
  }

  /** `byStatus` holds the first three samples of each status that occurs in `all`. */
  ghost predicate Groups(byStatus: map<int, seq<Sample>>, all: seq<Sample>) {
    && (forall code :: code in byStatus <==> WithStatus(all, code) != [])
    && (forall code :: code in byStatus ==> byStatus[code] == FirstThree(WithStatus(all, code)))
  }

  lemma GroupsGrow(byStatus: map<int, seq<Sample>>, all: seq<Sample>, sample: Sample)
    requires Groups(byStatus, all)
    ensures sample.code.None? ==> Groups(byStatus, all + [sample])
    ensures sample.code.Some? ==>
      var had := if sample.code.value in byStatus then byStatus[sample.code.value] else [];
      var grown := if |had| < 3 then had + [sample] else had;
      Groups(byStatus[sample.code.value := grown], all + [sample])
  {
    hide WithStatus, FirstThree;
    forall code
      ensures WithStatus(all + [sample], code)
           == WithStatus(all, code) + (if sample.code == Some(code) then [sample] else [])
      ensures sample.code != Some(code) ==> WithStatus(all + [sample], code) == WithStatus(all, code)
    {
      WithStatusGrows(all, sample, code);
    }
    if sample.code.Some? {
      FirstThreeGrows(WithStatus(all, sample.code.value), sample);
      if sample.code.value !in byStatus {
        assert FirstThree<Sample>([]) == [] by { EmptyHasNoFirst(); }
      }
    }
  }

  lemma EmptyHasNoFirst()
    ensures FirstThree<Sample>([]) == []
  {
  }

  class Summary {
    var first: seq<Sample>
    var last: seq<Sample>
    var byStatus: map<int, seq<Sample>>
    /** Everything recorded so far. */
    ghost var all: seq<Sample>

    ghost predicate Valid()
      reads this
    {
      && first == FirstThree(all)
      && last == LastThree(all)
      && Groups(byStatus, all)
    }

    constructor ()
      ensures Valid() && all == []
    {
      first, last, byStatus, all := [], [], map[], [];
    }

    /** `_record_response_sample`. */
    method Record(sample: Sample)
      requires Valid()
      modifies this
      ensures Valid() && all == old(all) + [sample]
    {
      hide FirstThree, LastThree, Groups;
      FirstThreeGrows(all, sample);
      LastThreeGrows(all, sample);
      GroupsGrow(byStatus, all, sample);
      if |first| < 3 {
        first := first + [sample];
      }
      last := last + [sample];
      if |last| > 3 {
        last := last[|last| - 3..];
      }
      if sample.code.Some? {
        var samples := if sample.code.value in byStatus then byStatus[sample.code.value] else [];
        if |samples| < 3 {
          samples := samples + [sample];
        }
        byStatus := byStatus[sample.code.value := samples];
      }
      all := all + [sample];
    }
  }
}
