/** Which symbolic links a tree copy follows. */
module Links {
  import opened FileWorld

  predicate IsDots(component: string) {
    component == "." || component == ".."
  }

  predicate IsName(component: string) {
    component != "" && !IsDots(component)
  }

  /** A text with a leading slash splits into an empty first component. */
  predicate Absolute(text: seq<string>) {
    |text| > 1 && text[0] == ""
  }

  predicate Plain(path: Path) {
    forall c :: c in path ==> IsName(c)
  }

  function Names(text: seq<string>): (names: Path)
    ensures Plain(names)
  {
    if text == [] then []
    else (if IsName(text[0]) then [text[0]] else []) + Names(text[1..])
  }

  function Ups(text: seq<string>): nat {
    if text == [] then 0 else (if text[0] == ".." then 1 else 0) + Ups(text[1..])
  }

  /** No `.` or `..` after a name, so normalising the text cannot cancel a name that the kernel would follow. */
  predicate DotsFirst(text: seq<string>) {
    forall i, j :: 0 <= i < j < |text| && IsName(text[i]) ==> !IsDots(text[j])
  }

  /** POSIX keeps a path that starts with exactly two slashes apart from every other path. */
  predicate DoubleSlash(text: seq<string>) {
    |text| > 2 && text[0] == "" && text[1] == "" && text[2] != ""
  }

  predicate Allowed(text: seq<string>) {
    && (|text| > 1 ==> IsName(text[|text| - 1]))
    && DotsFirst(text)
    && (Absolute(text) ==> ".." !in text)
    && !DoubleSlash(text)
  }

  function Above(parent: Path, ups: nat): Path {
    if ups >= |parent| then [] else parent[..|parent| - ups]
  }

  /** Where an allowed text leads: up from the link's directory first, then down by its names. */
  function TargetOf(parent: Path, text: seq<string>): Path {
    (if Absolute(text) then [] else Above(parent, Ups(text))) + Names(text)
  }

  /** `os.path.normpath` of an absolute path, one component at a time. */
  function Normalize(done: Path, rest: seq<string>): Path
    decreases |rest|
  {
    if rest == [] then done
    else if rest[0] == "" || rest[0] == "." then Normalize(done, rest[1..])
    else if rest[0] == ".." then Normalize(Up(done), rest[1..])
    else Normalize(done + [rest[0]], rest[1..])
  }

  lemma {:induction false} NormalizePlain(done: Path, rest: seq<string>)
    requires Plain(rest)
    ensures Normalize(done, rest) == done + rest
    decreases |rest|
  {
    if rest != [] {
      assert rest[0] in rest;
      NormalizePlain(done + [rest[0]], rest[1..]);
      assert done + [rest[0]] + rest[1..] == done + rest;
    }
  }

  lemma {:induction false} NormalizeAppend(done: Path, a: seq<string>, b: seq<string>)
    ensures Normalize(done, a + b) == Normalize(Normalize(done, a), b)
    decreases |a|
  {
    if a == [] {
      assert a + b == b;
    } else {
      assert (a + b)[1..] == a[1..] + b && (a + b)[0] == a[0];
      var next := if a[0] == "" || a[0] == "." then done
                  else if a[0] == ".." then Up(done) else done + [a[0]];
      NormalizeAppend(next, a[1..], b);
    }
  }

  /** With the dots first, normalising climbs and then descends. */
  lemma {:induction false} NormalizeDotsFirst(done: Path, text: seq<string>)
    requires DotsFirst(text)
    ensures Normalize(done, text) == Above(done, Ups(text)) + Names(text)
    decreases |text|
  {
    if text == [] {
      assert Above(done, 0) == done;
    } else if IsName(text[0]) {
      NoDotsAfterName(text);
      NoDotsLeft(text);
      NormalizeNames(done, text);
      assert Above(done, 0) == done;
    } else {
      NormalizeOneDots(done, text);
      AboveOneMore(done, Ups(text[1..]));
      hide Above, DotsFirst, Normalize, Names, Ups, IsDots;
      NormalizeDotsFirst(if text[0] == ".." then Up(done) else done, text[1..]);
    }
  }

  lemma NoDotsAfterName(text: seq<string>)
    requires DotsFirst(text) && text != [] && IsName(text[0])
    ensures forall j :: 0 <= j < |text| ==> !IsDots(text[j])
  {
  }

  lemma NormalizeOneDots(done: Path, text: seq<string>)
    requires DotsFirst(text) && text != [] && !IsName(text[0])
    ensures DotsFirst(text[1..]) && Names(text) == Names(text[1..])
    ensures Ups(text) == Ups(text[1..]) + if text[0] == ".." then 1 else 0
    ensures Normalize(done, text) == Normalize(if text[0] == ".." then Up(done) else done, text[1..])
  {
    hide Plain;
    DotsFirstTail(text);
  }

  function Up(path: Path): Path {
    if path == [] then [] else path[..|path| - 1]
  }

  lemma AboveOneMore(done: Path, ups: nat)
    ensures Above(Up(done), ups) == Above(done, ups + 1)
  {
  }

  lemma DotsFirstTail(text: seq<string>)
    requires DotsFirst(text) && text != []
    ensures DotsFirst(text[1..])
  {
  }

  lemma {:induction false} NoDotsLeft(text: seq<string>)
    requires forall j :: 0 <= j < |text| ==> !IsDots(text[j])
    ensures Ups(text) == 0
  {
    if text != [] {
      NoDotsLeft(text[1..]);
    }
  }

  lemma {:induction false} NormalizeNames(done: Path, text: seq<string>)
    requires forall j :: 0 <= j < |text| ==> !IsDots(text[j])
    ensures Normalize(done, text) == done + Names(text)
    decreases |text|
  {
    if text != [] {
      var next := if text[0] == "" then done else done + [text[0]];
      NormalizeOneName(done, text, next);
      hide Normalize, Names, IsDots, Plain;
      NormalizeNames(next, text[1..]);
    }
  }

  lemma NormalizeOneName(done: Path, text: seq<string>, next: Path)
    requires text != [] && !IsDots(text[0]) && next == if text[0] == "" then done else done + [text[0]]
    ensures Normalize(done, text) == Normalize(next, text[1..])
    ensures done + Names(text) == next + Names(text[1..])
  {
    hide Plain;
    if text[0] != "" {
      assert done + ([text[0]] + Names(text[1..])) == next + Names(text[1..]);
    }
  }

  /** `os.path.normpath(os.path.join(parent, text))`. */
  function Joined(parent: Path, text: seq<string>): Path {
    Normalize([], if Absolute(text) then text else parent + text)
  }

  /** A link of this directory with this text was followed to `target` in the directory `parent`, as its path leads. */
  ghost predicate Follows(
      world: World, resolve: Resolver, dir: Path, text: seq<string>, parent: Inode, target: string, from: nat, to: nat)
  {
    var p := Joined(dir, text);
    p != [] && target == p[|p| - 1] && exists at: nat :: from <= at <= to && resolve(world(at), p[..|p| - 1]) == Some(parent)
  }

  /** An allowed text leads where the kernel would go from a directory path without dots. */
  lemma JoinedIsTarget(parent: Path, text: seq<string>)
    requires Allowed(text) && Plain(parent)
    ensures Joined(parent, text) == TargetOf(parent, text)
  {
    NormalizeDotsFirst(if Absolute(text) then [] else parent, text);
    NormalizePlain([], parent);
    NormalizeAppend([], parent, text);
    assert [] + parent == parent;
  }

  /** Climbing first and then descending by names is allowed, and leads there; so is an absolute path of names. */
  lemma PlainTextsAreAllowed(parent: Path, ups: nat, names: Path)
    requires Plain(parent) && Plain(names) && names != []
    ensures var text := seq(ups, _ => "..") + names;
      Allowed(text) && Joined(parent, text) == Above(parent, ups) + names
    ensures Allowed([""] + names) && Joined(parent, [""] + names) == names
  {
    var text := seq(ups, _ => "..") + names;
    assert forall i :: 0 <= i < |names| ==> names[i] in names;
    assert IsName(names[|names| - 1]);
    JoinedIsTarget(parent, text);
    ClimbThenNames(ups, names);
    JoinedIsTarget(parent, [""] + names);
    assert ([""] + names)[1..] == names;
    NamesOfPlain(names);
  }

  lemma {:induction false} NamesOfPlain(names: Path)
    requires Plain(names)
    ensures Names(names) == names && Ups(names) == 0
  {
    if names != [] {
      assert names[0] in names;
      NamesOfPlain(names[1..]);
    }
  }

  lemma {:induction false} ClimbThenNames(ups: nat, names: Path)
    requires Plain(names)
    ensures var text := seq(ups, _ => "..") + names; Ups(text) == ups && Names(text) == names
  {
    var text := seq(ups, _ => "..") + names;
    if ups == 0 {
      assert text == names;
      NamesOfPlain(names);
    } else {
      assert text[1..] == seq(ups - 1, _ => "..") + names;
      ClimbThenNames(ups - 1, names);
    }
  }

  /** The text is allowed and leads from this directory to a path in one of the roots. */
  predicate Approved(roots: seq<Path>, dir: Path, text: seq<string>) {
    Allowed(text) && exists root :: root in roots && root <= Joined(dir, text)
  }

  /** `_approved_symlink_target`. */
  method ApprovedTarget(parent: Path, text: seq<string>, roots: seq<Path>) returns (target: Option<Path>)
    requires text != []
    ensures target.Some? <==> Approved(roots, parent, text)
    ensures target.Some? ==> target.value == Joined(parent, text)
  {
    if |text| > 1 && (text[|text| - 1] == "" || IsDots(text[|text| - 1])) {
      return None;
    }
    var seen, i := false, 0;
    while i < |text|
      invariant 0 <= i <= |text|
      invariant seen <==> exists k :: 0 <= k < i && IsName(text[k])
      invariant DotsFirst(text[..i])
      invariant Absolute(text) ==> ".." !in text[..i]
    {
      assert text[..i + 1] == text[..i] + [text[i]];
      if IsDots(text[i]) {
        if seen {
          ghost var k :| 0 <= k < i && IsName(text[k]);
          assert !DotsFirst(text);
          return None;
        }
        if text[i] == ".." && Absolute(text) {
          assert ".." in text;
          return None;
        }
      } else if text[i] != "" {
        seen := true;
      }
      i := i + 1;
    }
    assert text[..i] == text;
    if DoubleSlash(text) {
      return None;
    }
    var normal := Joined(parent, text);
    assert Allowed(text);
    var r := 0;
    while r < |roots|
      invariant 0 <= r <= |roots|
      invariant forall k :: 0 <= k < r ==> !(roots[k] <= normal)
    {
      if roots[r] <= normal {
        assert roots[r] in roots;
        return Some(normal);
      }
      r := r + 1;
    }
    return None;
  }
}
