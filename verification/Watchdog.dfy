/** The alert cycle: which problems were reported, remembered in a file that may be lost, and which messages go out. */
module Watchdog {
  import opened Lexicographic

  datatype Option<+T> = None | Some(value: T)

  const SAFE_CHECK_CODES: set<string> := {
    "aggregate_capacity", "backup_health", "cabinet_health", "control_database_unavailable", "control_health",
    "control_operations", "disk_health", "dispatch", "endpoint_capacity", "endpoint_configuration",
    "endpoint_external_proof", "endpoint_health", "endpoint_redundancy", "known_hosts", "local_health", "maintenance",
    "payment_disabled", "portal_public_access", "public_health", "public_trial_disabled", "public_trial_plan",
    "release_id", "system_health", "worker_active", "worker_health"
  }

  // ---------- states ----------

  /** Stands for the hash of the joined codes: different code lists have different digests. */
  datatype Digest = Digest(of: seq<string>)

  datatype AlertState = AlertState(digest: Digest, codes: seq<string>, notified: bool)

  function Insert(code: string, codes: seq<string>): (r: seq<string>)
    ensures forall c :: c in r <==> c == code || c in codes
  {
    if codes == [] then [code]
    else if code == codes[0] then codes
    else if Less(code, codes[0]) then [code] + codes
    else
      var rest := Insert(code, codes[1..]);
      assert forall c :: c in codes <==> c == codes[0] || c in codes[1..];
      [codes[0]] + rest
  }

  /** `sorted(set(codes))`. */
  function SortedSet(codes: seq<string>): (r: seq<string>)
    ensures forall c :: c in r <==> c in codes
  {
    if codes == [] then [] else Insert(codes[0], SortedSet(codes[1..]))
  }

  lemma {:induction false} InsertKeepsOrder(code: string, codes: seq<string>)
    requires Ascending(codes)
    ensures Ascending(Insert(code, codes))
  {
    if codes != [] && code != codes[0] {
      var r := Insert(code, codes);
      if Less(code, codes[0]) {
        forall j | 0 <= j < |codes|
          ensures Less(code, codes[j])
        {
          if j > 0 {
            LessIsTransitive(code, codes[0], codes[j]);
          }
        }
      } else {
        LessIsTotal(code, codes[0]);
        InsertKeepsOrder(code, codes[1..]);
        forall c | c in r[1..]
          ensures Less(codes[0], c)
        {
          assert c == code || c in codes[1..];
        }
      }
    }
  }

  lemma {:induction false} SortedSetAscends(codes: seq<string>)
    ensures Ascending(SortedSet(codes))
  {
    if codes != [] {
      SortedSetAscends(codes[1..]);
      InsertKeepsOrder(codes[0], SortedSet(codes[1..]));
    }
  }

  /** Code lists with the same members become the same sorted list, and a sorted list becomes itself. */
  lemma SortedSetIsCanonical(a: seq<string>, b: seq<string>)
    requires forall c :: c in a <==> c in b
    ensures SortedSet(a) == SortedSet(b)
    ensures Ascending(a) ==> SortedSet(b) == a
  {
    SortedSetAscends(a);
    SortedSetAscends(b);
    AscendingIsUnique(SortedSet(a), SortedSet(b));
    if Ascending(a) {
      AscendingIsUnique(a, SortedSet(b));
    }
  }

  /** `build_alert_state`; nothing for a code that is not allowed. */
  function Build(codes: seq<string>, notified: bool): Option<AlertState> {
    if forall c :: c in codes ==> c in SAFE_CHECK_CODES
    then Some(AlertState(Digest(SortedSet(codes)), SortedSet(codes), notified))
    else None
  }

  const HEALTHY := AlertState(Digest([]), [], true)

  // ---------- the file ----------

  /** What the state file holds; a payload may have been written by anyone. */
  datatype File = Missing | Garbled | Payload(digest: Digest, codes: seq<string>, notified: bool)

  function Written(s: AlertState): File {
    Payload(s.digest, s.codes, s.notified)
  }

  /** `_read_alert_state`: the state, and whether the file gave it. */
  function Read(file: File): (AlertState, bool) {
    if !file.Payload? then (HEALTHY, false)
    else
      match Build(file.codes, file.notified)
      case None => (HEALTHY, false)
      case Some(s) => if file.digest == s.digest then (s, true) else (HEALTHY, false)
  }

  /** A state read back is the state saved. */
  lemma SavedStateIsReadBack(codes: seq<string>, notified: bool)
    requires Build(codes, notified).Some?
    ensures Read(Written(Build(codes, notified).value)) == (Build(codes, notified).value, true)
  {
    SortedSetAscends(codes);
    SortedSetIsCanonical(SortedSet(codes), codes);
  }

  /** Only the set of codes matters. */
  lemma StateDependsOnTheSet(a: seq<string>, b: seq<string>, notified: bool)
    requires forall c :: c in a <==> c in b
    ensures Build(a, notified) == Build(b, notified)
  {
    SortedSetIsCanonical(a, b);
  }
}
