/**
 Release tags: how they are read, which is newer, and why a machine that only ever
 installs a newer one never installs the same one twice.
 */
module Versions {
  import opened Wrappers
  import opened Text

  /** The pieces of a text between the dots, or any other character. */
  function Pieces(s: string, sep: char): (r: seq<string>)
    ensures |r| > 0
  {
    if s == "" then [""]
    else if s[0] == sep then [""] + Pieces(s[1..], sep)
    else [[s[0]] + Pieces(s[1..], sep)[0]] + Pieces(s[1..], sep)[1..]
  }

  function TrimPrefix(s: string, c: char): string {
    if s != "" && s[0] == c then s[1..] else s
  }

  /** A number kept in a 64-bit integer. */
  function Wrap(n: int): int {
    (n + 0x8000_0000_0000_0000) % 0x1_0000_0000_0000_0000 - 0x8000_0000_0000_0000
  }

  function WrapDigits(s: string): Option<int> {
    if s == "" then Some(0)
    else if !IsDigit(s[|s| - 1]) then None
    else
      match WrapDigits(s[..|s| - 1])
      case None => None
      case Some(n) => Some(Wrap(n * 10 + DigitValue(s[|s| - 1])))
  }

  function ReadPart(s: string): Option<int> {
    if s == "" then None else WrapDigits(s)
  }

  function ReadParts(parts: seq<string>): Option<seq<int>> {
    if parts == [] then Some([])
    else
      match (ReadParts(parts[..|parts| - 1]), ReadPart(parts[|parts| - 1]))
      case (Some(ns), Some(n)) => Some(ns + [n])
      case _ => None
  }

  const PARTS := 4

  /** A missing fourth number is zero. */
  function Padded(ns: seq<int>): seq<int> {
    if |ns| == 3 then ns + [0] else ns
  }

  function PartsOf(v: string): seq<string> {
    Pieces(TrimPrefix(Trim(v), 'v'), '.')
  }

  function ParseVersion(v: string): (r: Option<seq<int>>)
    ensures r.Some? ==> |r.value| == PARTS
  {
    PartsCount(PartsOf(v));
    if |PartsOf(v)| < 3 || |PartsOf(v)| > PARTS then None
    else
      match ReadParts(PartsOf(v))
      case None => None
      case Some(ns) => Some(Padded(ns))
  }

  // ----- the loops ------------------------------------------------------------

  lemma {:induction false} BadDigitSticks(s: string, i: nat)
    requires i < |s| && !IsDigit(s[i])
    ensures WrapDigits(s) == None
    decreases |s|
  {
    var k := |s| - 1;
    if i < k {
      BadDigitSticks(s[..k], i);
    }
  }

  method ReadNumber(p: string) returns (r: Option<int>)
    ensures r == ReadPart(p)
  {
    if p == "" {
      return None;
    }
    var n := 0;
    for i := 0 to |p|
      invariant WrapDigits(p[..i]) == Some(n)
    {
      if p[i] < '0' || p[i] > '9' {
        BadDigitSticks(p, i);
        return None;
      }
      assert p[..i + 1][..i] == p[..i];
      n := Wrap(n * 10 + (p[i] - '0') as int);
    }
    assert p[..|p|] == p;
    return Some(n);
  }

  lemma {:induction false} BadPartSticks(parts: seq<string>, i: nat)
    requires i < |parts| && ReadPart(parts[i]) == None
    ensures ReadParts(parts) == None
    decreases |parts|
  {
    var k := |parts| - 1;
    if i < k {
      BadPartSticks(parts[..k], i);
    }
  }

  lemma {:induction false} PartsCount(parts: seq<string>)
    ensures ReadParts(parts).Some? ==> |ReadParts(parts).value| == |parts|
    decreases |parts|
  {
    if parts != [] {
      PartsCount(parts[..|parts| - 1]);
    }
  }

  lemma ReadPartsGrows(parts: seq<string>, i: nat)
    requires i < |parts| && ReadParts(parts[..i]).Some? && ReadPart(parts[i]).Some?
    ensures ReadParts(parts[..i + 1]) == Some(ReadParts(parts[..i]).value + [ReadPart(parts[i]).value])
  {
    assert parts[..i + 1][..i] == parts[..i];
  }

  /** `parseVersion`: the numbers go into a zeroed array, so the padding is what was
      never written. */
  method Parse(v: string) returns (r: Option<seq<int>>)
    ensures r == ParseVersion(v)
  {
    var parts := PartsOf(v);
    if |parts| < 3 || |parts| > PARTS {
      return None;
    }
    var filled := new int[PARTS](_ => 0);
    for i := 0 to |parts|
      invariant ReadParts(parts[..i]) == Some(filled[..i])
      invariant forall j :: i <= j < PARTS ==> filled[j] == 0
    {
      var n := ReadNumber(parts[i]);
      if n.None? {
        BadPartSticks(parts, i);
        return None;
      }
      ReadPartsGrows(parts, i);
      ghost var before := filled[..i];
      filled[i] := n.value;
      assert filled[..i + 1] == before + [n.value];
    }
    assert parts[..|parts|] == parts;
    assert filled[..] == Padded(filled[..|parts|]);
    return Some(filled[..]);
  }

  // ----- what reads as a version ----------------------------------------------

  function Joined(parts: seq<string>, sep: char): string {
    if |parts| <= 1 then (if parts == [] then "" else parts[0]) else parts[0] + [sep] + Joined(parts[1..], sep)
  }

  /** The pieces have no separator in them, and joined by it are the text. */
  lemma {:induction false} PiecesJoin(s: string, sep: char)
    ensures Joined(Pieces(s, sep), sep) == s
    ensures forall i :: 0 <= i < |Pieces(s, sep)| ==> NoneOf(Pieces(s, sep)[i], sep)
  {
    if s != "" {
      var rest, all := Pieces(s[1..], sep), Pieces(s, sep);
      PiecesJoin(s[1..], sep);
      assert s == [s[0]] + s[1..];
      if s[0] == sep {
        assert all[1..] == rest;
      } else {
        assert all[1..] == rest[1..];
      }
    }
  }

  lemma {:induction false} DigitsExactly(s: string)
    ensures WrapDigits(s).Some? <==> AllDigits(s)
  {
    if s != "" {
      var k := |s| - 1;
      DigitsExactly(s[..k]);
      assert AllDigits(s) <==> AllDigits(s[..k]) && IsDigit(s[k]);
    }
  }

  predicate Numeral(s: string) {
    s != "" && forall i :: 0 <= i < |s| ==> '0' <= s[i] <= '9'
  }

  lemma {:induction false} PartsExactly(parts: seq<string>)
    ensures ReadParts(parts).Some? <==> forall i :: 0 <= i < |parts| ==> Numeral(parts[i])
    decreases |parts|
  {
    if parts != [] {
      var k := |parts| - 1;
      PartsExactly(parts[..k]);
      DigitsExactly(parts[k]);
    }
  }

  /** A tag is a version if and only if it is three or four numerals with dots between. */
  lemma VersionExactly(v: string)
    ensures ParseVersion(v).Some? <==>
              3 <= |PartsOf(v)| <= 4 && forall i :: 0 <= i < |PartsOf(v)| ==> Numeral(PartsOf(v)[i])
  {
    PartsExactly(PartsOf(v));
  }

  // ---------------------------------------------------------------------------
  // The order
  // ---------------------------------------------------------------------------

  /** Equal up to `i`, and less there. */
  predicate BelowAt(a: seq<int>, b: seq<int>, i: nat)
    requires |a| == |b| == PARTS
  {
    i < PARTS && a[..i] == b[..i] && a[i] < b[i]
  }

  predicate Below(a: seq<int>, b: seq<int>)
    requires |a| == |b| == PARTS
  {
    exists i :: 0 <= i < PARTS && BelowAt(a, b, i)
  }

  /** `newer`: both are versions, and the first number that differs is greater. */
  predicate Newer(target: string, current: string) {
    && current != "dev"
    && ParseVersion(target).Some? && ParseVersion(current).Some?
    && Below(ParseVersion(current).value, ParseVersion(target).value)
  }

  /** The comparing loop of `newer`. */
  method Compare(a: seq<int>, b: seq<int>) returns (greater: bool)
    requires |a| == |b| == PARTS
    ensures greater == Below(b, a)
  {
    for i := 0 to PARTS
      invariant a[..i] == b[..i]
    {
      if a[i] != b[i] {
        FirstDifferenceDecides(a, b, i);
        return a[i] > b[i];
      }
    }
    assert a == b;
    return false;
  }

  lemma FirstDifferenceDecides(a: seq<int>, b: seq<int>, i: nat)
    requires |a| == |b| == PARTS && i < PARTS && a[..i] == b[..i] && a[i] != b[i]
    ensures Below(b, a) <==> a[i] > b[i]
  {
    if a[i] > b[i] {
      assert BelowAt(b, a, i);
    }
    if j :| 0 <= j < PARTS && BelowAt(b, a, j) {
      assert j < i ==> a[..i][j] == b[..i][j];
      assert i < j ==> a[..j][i] == b[..j][i];
    }
  }

  method IsNewer(target: string, current: string) returns (r: bool)
    ensures r == Newer(target, current)
  {
    if current == "dev" {
      return false;
    }
    var a := Parse(target);
    var b := Parse(current);
    if a.None? || b.None? {
      return false;
    }
    r := Compare(a.value, b.value);
  }

  lemma BelowTransitive(a: seq<int>, b: seq<int>, c: seq<int>)
    requires |a| == |b| == |c| == PARTS && Below(a, b) && Below(b, c)
    ensures Below(a, c)
  {
    var i :| 0 <= i < PARTS && BelowAt(a, b, i);
    var j :| 0 <= j < PARTS && BelowAt(b, c, j);
    var k := if i < j then i else j;
    assert a[..k] == a[..i][..k] == b[..i][..k] == b[..k];
    assert b[..k] == b[..j][..k] == c[..j][..k] == c[..k];
    assert i < j ==> b[..j][i] == c[..j][i];
    assert j < i ==> a[..i][j] == b[..i][j];
    assert BelowAt(a, c, k);
  }

  /** Of any two versions exactly one of these holds: equal, below, above. */
  lemma Trichotomy(a: seq<int>, b: seq<int>)
    requires |a| == |b| == PARTS
    ensures a == b ==> !Below(a, b) && !Below(b, a)
    ensures a != b ==> (Below(a, b) <==> !Below(b, a))
  {
    if a != b {
      var i := if a[0] != b[0] then 0 else if a[1] != b[1] then 1 else if a[2] != b[2] then 2 else 3;
      assert a[..i] == b[..i];
      FirstDifferenceDecides(a, b, i);
      FirstDifferenceDecides(b, a, i);
    }
  }

  lemma NewerTransitive(a: string, b: string, c: string)
    requires Newer(b, a) && Newer(c, b)
    ensures Newer(c, a)
  {
    BelowTransitive(ParseVersion(a).value, ParseVersion(b).value, ParseVersion(c).value);
  }

  /** Each related to the one before it. */
  predicate Chain<T>(xs: seq<T>, above: (T, T) -> bool) {
    |xs| <= 1 || (Chain(xs[..|xs| - 1], above) && above(xs[|xs| - 1], xs[|xs| - 2]))
  }

  lemma {:induction false} ChainRelates<T>(xs: seq<T>, above: (T, T) -> bool, i: nat, j: nat)
    requires Chain(xs, above) && i < j < |xs|
    requires forall a, b, c :: above(b, a) && above(c, b) ==> above(c, a)
    ensures above(xs[j], xs[i])
    decreases |xs|
  {
    var k := |xs| - 1;
    if j < k {
      ChainRelates(xs[..k], above, i, j);
    } else if i < k - 1 {
      ChainRelates(xs[..k], above, i, k - 1);
    }
  }

  /** What a machine ran, one release after another. */
  predicate Climbs(vs: seq<string>) {
    Chain(vs, Newer)
  }

  lemma ChainOn<T>(xs: seq<T>, x: T, above: (T, T) -> bool)
    requires xs != [] && Chain(xs, above) && above(x, xs[|xs| - 1])
    ensures Chain(xs + [x], above)
  {
    assert (xs + [x])[..|xs|] == xs;
  }

  /** A newer release carries the history on. */
  lemma ClimbsOn(vs: seq<string>, v: string)
    requires vs != [] && Climbs(vs) && Newer(v, vs[|vs| - 1])
    ensures Climbs(vs + [v])
  {
    ChainOn(vs, v, Newer);
  }

  lemma LaterIsNewer(vs: seq<string>, i: nat, j: nat)
    requires Climbs(vs) && i < j < |vs|
    ensures Newer(vs[j], vs[i])
  {
    forall a, b, c | Newer(b, a) && Newer(c, b) ensures Newer(c, a) {
      NewerTransitive(a, b, c);
    }
    ChainRelates(vs, Newer, i, j);
  }

  /** No release is run twice, not even under another spelling of its number. */
  lemma NeverTwice(vs: seq<string>, i: nat, j: nat)
    requires Climbs(vs) && i < j < |vs|
    ensures vs[i] != vs[j] && ParseVersion(vs[i]) != ParseVersion(vs[j])
    ensures !Newer(vs[i], vs[j])
  {
    LaterIsNewer(vs, i, j);
    Trichotomy(ParseVersion(vs[i]).value, ParseVersion(vs[j]).value);
  }

  // ---------------------------------------------------------------------------
  // What tags mean
  // ---------------------------------------------------------------------------

  function Dotted(ns: seq<nat>): string
    requires ns != []
  {
    if |ns| == 1 then ShowNat(ns[0]) else ShowNat(ns[0]) + "." + Dotted(ns[1..])
  }

  /** The tag of a release. */
  function Tag(ns: seq<nat>): string
    requires ns != []
  {
    "v" + Dotted(ns)
  }

  lemma {:induction false} PiecesOne(s: string, sep: char)
    requires NoneOf(s, sep)
    ensures Pieces(s, sep) == [s]
  {
    if s != "" {
      PiecesOne(s[1..], sep);
      assert [s[0]] + s[1..] == s;
    }
  }

  lemma {:induction false} PiecesCons(s: string, rest: string, sep: char)
    requires NoneOf(s, sep)
    ensures Pieces(s + [sep] + rest, sep) == [s] + Pieces(rest, sep)
  {
    var all := s + [sep] + rest;
    if s == "" {
      assert all[1..] == rest;
    } else {
      assert all[1..] == s[1..] + [sep] + rest;
      PiecesCons(s[1..], rest, sep);
      assert [s[0]] + s[1..] == s;
    }
  }

  function ShowAll(ns: seq<nat>): seq<string> {
    if ns == [] then [] else [ShowNat(ns[0])] + ShowAll(ns[1..])
  }

  lemma {:induction false} DottedPieces(ns: seq<nat>)
    requires ns != []
    ensures Pieces(Dotted(ns), '.') == ShowAll(ns)
  {
    ReadShow(ns[0]);
    if |ns| == 1 {
      PiecesOne(ShowNat(ns[0]), '.');
      assert ShowAll(ns[1..]) == [];
    } else {
      DottedPieces(ns[1..]);
      PiecesCons(ShowNat(ns[0]), Dotted(ns[1..]), '.');
    }
  }

  lemma WrapStep(a: int, d: int)
    ensures Wrap(Wrap(a) * 10 + d) == Wrap(a * 10 + d)
  {
    var w := 0x1_0000_0000_0000_0000;
    var q := (a + 0x8000_0000_0000_0000) / w;
    assert Wrap(a) == a - q * w;
    assert Wrap(a) * 10 + d == a * 10 + d - 10 * q * w;
  }

  /** Reading digit by digit with wrap-around is wrapping the number once. */
  lemma {:induction false} DigitsWrapOnce(s: string)
    requires AllDigits(s)
    ensures WrapDigits(s) == Some(Wrap(ReadDigits(s)))
  {
    if s != "" {
      var k := |s| - 1;
      DigitsWrapOnce(s[..k]);
      WrapStep(ReadDigits(s[..k]), DigitValue(s[k]));
    }
  }

  function WrapAll(ns: seq<nat>): (r: seq<int>)
    ensures |r| == |ns| && forall i :: 0 <= i < |ns| ==> r[i] == Wrap(ns[i])
  {
    if ns == [] then [] else WrapAll(ns[..|ns| - 1]) + [Wrap(ns[|ns| - 1])]
  }

  lemma {:induction false} ShowAllAt(ns: seq<nat>, i: nat)
    requires i < |ns|
    ensures |ShowAll(ns)| == |ns| && ShowAll(ns)[i] == ShowNat(ns[i])
  {
    if |ns| > 1 {
      ShowAllAt(ns[1..], if i == 0 then 0 else i - 1);
    } else {
      assert ShowAll(ns[1..]) == [];
    }
  }

  lemma {:induction false} ShownRead(ns: seq<nat>, shown: seq<string>)
    requires |shown| == |ns| && forall i :: 0 <= i < |ns| ==> shown[i] == ShowNat(ns[i])
    ensures ReadParts(shown) == Some(WrapAll(ns))
    decreases |ns|
  {
    if ns != [] {
      var k := |ns| - 1;
      ShownRead(ns[..k], shown[..k]);
      ReadShow(ns[k]);
      DigitsWrapOnce(ShowNat(ns[k]));
    }
  }

  lemma {:induction false} DottedEnds(ns: seq<nat>)
    requires ns != []
    ensures Dotted(ns) != "" && IsDigit(Dotted(ns)[|Dotted(ns)| - 1])
  {
    ReadShow(ns[0]);
    if |ns| > 1 {
      DottedEnds(ns[1..]);
    }
  }

  lemma TagParts(ns: seq<nat>)
    requires ns != []
    ensures PartsOf(Tag(ns)) == ShowAll(ns)
  {
    DottedEnds(ns);
    var t := Tag(ns);
    assert t[0] == 'v' && t[1..] == Dotted(ns);
    assert TrimLeft(t) == t && t[|t| - 1] == Dotted(ns)[|Dotted(ns)| - 1];
    assert TrimRight(t) == t;
    DottedPieces(ns);
  }

  /** A tag of three or four numbers is read as those numbers, each kept in 64 bits,
      a missing fourth being zero; a tag of any other count is not a version. */
  lemma TagRead(ns: seq<nat>)
    requires ns != []
    ensures ParseVersion(Tag(ns)) == if 3 <= |ns| <= 4 then Some(Padded(WrapAll(ns))) else None
  {
    TagParts(ns);
    forall i | 0 <= i < |ns| ensures |ShowAll(ns)| == |ns| && ShowAll(ns)[i] == ShowNat(ns[i]) {
      ShowAllAt(ns, i);
    }
    ShowAllAt(ns, 0);
    ShownRead(ns, ShowAll(ns));
  }

  predicate Small(ns: seq<nat>) {
    forall i :: 0 <= i < |ns| ==> ns[i] <= INT64_MAX
  }

  lemma SmallUnwrapped(ns: seq<nat>)
    requires Small(ns)
    ensures WrapAll(ns) == ns
  {
  }

  /** For all tags, newer is the padded order of what is left of the numbers. */
  lemma NewerComparesWrapped(a: seq<nat>, b: seq<nat>)
    requires 3 <= |a| <= 4 && 3 <= |b| <= 4
    ensures Newer(Tag(a), Tag(b)) <==> Below(Padded(WrapAll(b)), Padded(WrapAll(a)))
  {
    TagRead(a);
    TagRead(b);
    assert Tag(b)[0] == 'v' && "dev"[0] == 'd';
  }

  /** So for numbers that fit it is exactly the padded order of the numbers. */
  lemma NewerMeansGreater(a: seq<nat>, b: seq<nat>)
    requires 3 <= |a| <= 4 && 3 <= |b| <= 4 && Small(a) && Small(b)
    ensures Newer(Tag(a), Tag(b)) <==> Below(Padded(b), Padded(a))
  {
    NewerComparesWrapped(a, b);
    SmallUnwrapped(a);
    SmallUnwrapped(b);
  }

  /** The i-th number of a release, the ones not given being zero. */
  function Number(ns: seq<nat>, i: nat): nat {
    if i < |ns| then ns[i] else 0
  }

  ghost predicate GreaterFirst(a: seq<nat>, b: seq<nat>, i: nat) {
    i < 4 && (forall j :: 0 <= j < i ==> Number(a, j) == Number(b, j)) && Number(a, i) > Number(b, i)
  }

  lemma PaddedNumbers(ns: seq<nat>, i: nat)
    requires 3 <= |ns| <= 4 && i < 4
    ensures Padded(ns)[i] == Number(ns, i)
  {
  }

  /** Number by number: the first of the four that differs is greater. */
  lemma NewerSpelled(a: seq<nat>, b: seq<nat>)
    requires 3 <= |a| <= 4 && 3 <= |b| <= 4 && Small(a) && Small(b)
    ensures Newer(Tag(a), Tag(b)) <==> exists i: nat :: GreaterFirst(a, b, i)
  {
    NewerMeansGreater(a, b);
    var pa, pb := Padded(a), Padded(b);
    forall i | 0 <= i < 4 ensures pa[i] == Number(a, i) && pb[i] == Number(b, i) {
      PaddedNumbers(a, i);
      PaddedNumbers(b, i);
    }
    if i :| 0 <= i < PARTS && BelowAt(pb, pa, i) {
      forall j | 0 <= j < i ensures Number(a, j) == Number(b, j) {
        assert pa[..i][j] == pb[..i][j];
      }
      assert GreaterFirst(a, b, i);
    }
    if i: nat :| GreaterFirst(a, b, i) {
      forall j | 0 <= j < i ensures pa[j] == pb[j] {
      }
      assert pa[..i] == pb[..i] && BelowAt(pb, pa, i);
    }
  }

  /** A fourth number makes a release newer than the three alone exactly when it is above
      zero, and never older. */
  lemma FixIsNewer(a: nat, b: nat, c: nat, d: nat)
    requires Small([a, b, c, d])
    ensures Newer(Tag([a, b, c, d]), Tag([a, b, c])) <==> d > 0
    ensures !Newer(Tag([a, b, c]), Tag([a, b, c, d]))
  {
    var fix, plain := [a, b, c, d], [a, b, c];
    forall i | 0 <= i < 3 ensures plain[i] <= INT64_MAX {
      assert plain[i] == fix[i];
    }
    NewerSpelled(fix, plain);
    NewerSpelled(plain, fix);
    if d > 0 {
      assert GreaterFirst(fix, plain, 3);
    }
  }

  /** The letter in front and white space around make no difference. */
  lemma SpellingsAgree(ns: seq<nat>, before: string, after: string)
    requires ns != [] && AllSpace(before) && AllSpace(after)
    ensures ParseVersion(before + Tag(ns) + after) == ParseVersion(Tag(ns))
    ensures ParseVersion(before + Dotted(ns) + after) == ParseVersion(Tag(ns))
  {
    DottedEnds(ns);
    DottedBegins(ns);
    var t := Tag(ns);
    assert t[0] == 'v' && t[|t| - 1] == Dotted(ns)[|Dotted(ns)| - 1] && t[1..] == Dotted(ns);
    TrimAround(before, t, after);
    TrimAround("", t, "");
    assert "" + t + "" == t;
    TrimAround(before, Dotted(ns), after);
  }

  lemma {:induction false} DottedBegins(ns: seq<nat>)
    requires ns != []
    ensures Dotted(ns) != "" && IsDigit(Dotted(ns)[0])
  {
    ReadShow(ns[0]);
  }

  /** A number too large is at least this large, and what is left of it is not. */
  lemma NoneAboveTop(n: nat)
    ensures Wrap(n) <= INT64_MAX
  {
  }

  function Tops(n: nat): (r: seq<nat>)
    ensures |r| == n && forall i :: 0 <= i < n ==> r[i] == INT64_MAX
  {
    if n == 0 then [] else Tops(n - 1) + [INT64_MAX]
  }

  lemma {:induction false} FirstHuge(a: seq<nat>) returns (i: nat)
    requires !Small(a)
    ensures i < |a| && a[i] > INT64_MAX && Small(a[..i])
    decreases |a|
  {
    i := |a| - 1;
    if !Small(a[..i]) {
      var before := a[..i];
      i := FirstHuge(before);
      assert before[..i] == a[..i];
    }
  }

  lemma NotBelowLess(a: seq<int>, b: seq<int>)
    requires 3 <= |a| == |b| <= 4 && forall j :: 0 <= j < |a| ==> b[j] <= a[j]
    ensures !Below(Padded(a), Padded(b))
  {
    var pa, pb := Padded(a), Padded(b);
    forall j | 0 <= j < PARTS ensures pb[j] <= pa[j] {
    }
  }

  lemma BelowFrom(a: seq<int>, b: seq<int>, i: nat)
    requires 3 <= |a| == |b| <= 4 && i < |a| && a[..i] == b[..i] && a[i] < b[i]
    ensures Below(Padded(a), Padded(b))
  {
    assert Padded(a)[..i] == a[..i] && Padded(b)[..i] == b[..i];
    assert BelowAt(Padded(a), Padded(b), i);
  }

  /** The release just below a number that does not fit: everything from there at the
      top, which nothing that is left of a number exceeds. */
  lemma TopsCover(a: seq<nat>, i: nat, j: nat)
    requires i < |a| && Small(a[..i]) && j < |a|
    ensures Wrap(a[j]) <= (a[..i] + Tops(|a| - i))[j] <= INT64_MAX
  {
    NoneAboveTop(a[j]);
    if j < i {
      assert a[..i][j] == a[j];
    }
  }

  lemma JustBelow(a: seq<nat>, i: nat, b: seq<nat>)
    requires 3 <= |a| <= 4 && i < |a| && a[i] > INT64_MAX && Small(a[..i]) && b == a[..i] + Tops(|a| - i)
    ensures Small(b) && Below(Padded(b), Padded(a)) && !Below(Padded(b), Padded(WrapAll(a)))
  {
    forall j | 0 <= j < |a| ensures WrapAll(a)[j] <= b[j] <= INT64_MAX {
      TopsCover(a, i, j);
    }
    NotBelowLess(b, WrapAll(a));
    assert b[..i] == a[..i] && b[i] == INT64_MAX;
    BelowFrom(b, a, i);
  }

  /** A release with a number that does not fit is not newer than some release that does
      and is below it. */
  lemma HugeIsNotNewer(a: seq<nat>) returns (b: seq<nat>)
    requires 3 <= |a| <= 4 && !Small(a)
    ensures 3 <= |b| <= 4 && Small(b) && Below(Padded(b), Padded(a)) && !Newer(Tag(a), Tag(b))
  {
    var i := FirstHuge(a);
    b := a[..i] + Tops(|a| - i);
    JustBelow(a, i, b);
    NewerComparesWrapped(a, b);
    SmallUnwrapped(b);
  }

  predicate Ranks(a: seq<nat>, b: seq<nat>)
    requires 3 <= |a| <= 4 && 3 <= |b| <= 4
  {
    Newer(Tag(a), Tag(b)) <==> Below(Padded(b), Padded(a))
  }

  /** A release is ranked by its numbers against every release whose numbers fit, if and
      only if its own do. */
  lemma RankedExactly(a: seq<nat>)
    requires 3 <= |a| <= 4
    ensures Small(a) <==> forall b: seq<nat> :: 3 <= |b| <= 4 && Small(b) ==> Ranks(a, b)
  {
    if Small(a) {
      forall b: seq<nat> | 3 <= |b| <= 4 && Small(b) ensures Ranks(a, b) {
        NewerMeansGreater(a, b);
      }
    } else {
      var b := HugeIsNotNewer(a);
      assert !Ranks(a, b);
    }
  }

  lemma WrapPeriod(n: int)
    ensures Wrap(n + 0x1_0000_0000_0000_0000) == Wrap(n)
  {
  }

  lemma SameWrapNotNewer(a: seq<nat>, b: seq<nat>)
    requires |a| == |b| == 4 && WrapAll(a) == WrapAll(b)
    ensures !Newer(Tag(a), Tag(b))
  {
    TagRead(a);
    TagRead(b);
    Trichotomy(WrapAll(a), WrapAll(b));
  }

  /** For numbers that do not fit it need not be: a last number that is 2^64 more is
      the greater, and is not newer. */
  lemma HugeNumbersWrap(a: nat, b: nat, c: nat, d: nat)
    ensures Below([a, b, c, d], [a, b, c, d + 0x1_0000_0000_0000_0000])
    ensures !Newer(Tag([a, b, c, d + 0x1_0000_0000_0000_0000]), Tag([a, b, c, d]))
  {
    assert BelowAt([a, b, c, d], [a, b, c, d + 0x1_0000_0000_0000_0000], 3);
    WrapPeriod(d);
    assert WrapAll([a, b, c, d]) == WrapAll([a, b, c, d + 0x1_0000_0000_0000_0000]);
    SameWrapNotNewer([a, b, c, d + 0x1_0000_0000_0000_0000], [a, b, c, d]);
  }
}
