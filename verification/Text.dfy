/**
 The text tools the device configuration is written and read with: lines, decimal
 numbers and hexadecimal keys, as Go's strings, strconv, fmt and hex packages have
 them.
 */
module Text {
  import opened Wrappers
  import opened Packets

  // ----- lines ----------------------------------------------------------------

  predicate NoneOf(s: string, c: char) {
    forall i :: 0 <= i < |s| ==> s[i] != c
  }

  /** `strings.Split` at a newline: one piece more than there are newlines. */
  function Split(s: string): seq<string> {
    if s == "" then [""]
    else
      var rest := Split(s[..|s| - 1]);
      var c := s[|s| - 1];
      if c == '\n' then rest + [""]
      else if rest == [] then [[c]]
      else rest[|rest| - 1 := rest[|rest| - 1] + [c]]
  }

  lemma {:induction false} SplitNonempty(s: string)
    ensures Split(s) != []
  {
    if s != "" {
      SplitNonempty(s[..|s| - 1]);
    }
  }

  lemma {:induction false} SplitOne(s: string)
    requires NoneOf(s, '\n')
    ensures Split(s) == [s]
  {
    if s != "" {
      SplitOne(s[..|s| - 1]);
      assert s == s[..|s| - 1] + [s[|s| - 1]];
    }
  }

  lemma {:induction false} SplitAppend(s: string, line: string)
    requires NoneOf(line, '\n')
    ensures Split(s + "\n" + line) == Split(s) + [line]
    decreases |line|
  {
    var all := s + "\n" + line;
    if line == "" {
      assert all[..|all| - 1] == s;
    } else {
      var k := |line| - 1;
      assert all[..|all| - 1] == s + "\n" + line[..k];
      SplitAppend(s, line[..k]);
      assert line == line[..k] + [line[k]];
    }
  }

  /** Every line closed by a newline, as the printers write them. */
  function Unlines(lines: seq<string>): string {
    if lines == [] then "" else Unlines(lines[..|lines| - 1]) + lines[|lines| - 1] + "\n"
  }

  lemma UnlinesSnoc(lines: seq<string>, line: string)
    ensures Unlines(lines + [line]) == Unlines(lines) + line + "\n"
  {
    assert (lines + [line])[..|lines|] == lines;
  }

  lemma {:induction false} UnlinesAppend(a: seq<string>, b: seq<string>)
    ensures Unlines(a + b) == Unlines(a) + Unlines(b)
    decreases |b|
  {
    if b == [] {
      assert a + b == a;
    } else {
      var k := |b| - 1;
      UnlinesAppend(a, b[..k]);
      assert a + b == (a + b[..k]) + [b[k]];
      UnlinesSnoc(a + b[..k], b[k]);
      assert Unlines(a) + Unlines(b[..k]) + b[k] + "\n" == Unlines(a) + (Unlines(b[..k]) + b[k] + "\n");
    }
  }

  /** Text after the last newline becomes the last piece. */
  lemma {:induction false} SplitReplaceRest(s: string, lines: seq<string>, line: string)
    requires Split(s) == lines + [""] && NoneOf(line, '\n')
    ensures Split(s + line) == lines + [line]
    decreases |line|
  {
    if line == "" {
      assert s + line == s;
    } else {
      var k := |line| - 1;
      SplitReplaceRest(s, lines, line[..k]);
      assert (s + line)[..|s + line| - 1] == s + line[..k];
      assert line == line[..k] + [line[k]];
    }
  }

  lemma SplitLine(s: string, lines: seq<string>, line: string)
    requires Split(s) == lines + [""] && NoneOf(line, '\n')
    ensures Split(s + line + "\n") == lines + [line] + [""]
  {
    SplitReplaceRest(s, lines, line);
    SplitAppend(s + line, "");
    assert s + line + "\n" + "" == s + line + "\n";
  }

  /** Text closed by a newline splits into its lines and an empty rest. */
  lemma {:induction false} SplitUnlines(lines: seq<string>)
    requires forall i :: 0 <= i < |lines| ==> NoneOf(lines[i], '\n')
    ensures Split(Unlines(lines)) == lines + [""]
    decreases |lines|
  {
    if lines == [] {
      assert lines + [""] == [""];
    } else {
      var k := |lines| - 1;
      SplitUnlines(lines[..k]);
      SplitLine(Unlines(lines[..k]), lines[..k], lines[k]);
      assert lines[..k] + [lines[k]] == lines;
    }
  }

  /** The white space of Unicode. */
  predicate IsSpace(c: char) {
    || c == ' ' || '\t' <= c <= '\r' || c == '\U{0085}' || c == '\U{00A0}' || c == '\U{1680}'
    || '\U{2000}' <= c <= '\U{200A}' || c == '\U{2028}' || c == '\U{2029}' || c == '\U{202F}'
    || c == '\U{205F}' || c == '\U{3000}'
  }

  function TrimLeft(s: string): string {
    if s != "" && IsSpace(s[0]) then TrimLeft(s[1..]) else s
  }

  function TrimRight(s: string): string {
    if s != "" && IsSpace(s[|s| - 1]) then TrimRight(s[..|s| - 1]) else s
  }

  /** `strings.TrimSpace`. */
  function Trim(s: string): string {
    TrimRight(TrimLeft(s))
  }

  /** A word that trimming leaves alone. */
  predicate Solid(s: string) {
    s != "" && !IsSpace(s[0]) && !IsSpace(s[|s| - 1])
  }

  lemma TrimSolid(s: string)
    requires Solid(s)
    ensures TrimLeft(s) == s && TrimRight(s) == s
  {
  }

  lemma TrimLine(body: string)
    requires Solid(body)
    ensures Trim(body + "\n") == body
  {
    var s := body + "\n";
    assert s[0] == body[0] && s[..|s| - 1] == body && s[|s| - 1] == '\n';
    assert TrimLeft(s) == s;
    TrimSolid(body);
  }

  predicate AllSpace(s: string) {
    forall i :: 0 <= i < |s| ==> IsSpace(s[i])
  }

  lemma {:induction false} TrimLeftAround(before: string, s: string)
    requires AllSpace(before) && (s == "" || !IsSpace(s[0]))
    ensures TrimLeft(before + s) == s
  {
    var all := before + s;
    if before == "" {
      assert all == s;
    } else {
      assert all[1..] == before[1..] + s;
      TrimLeftAround(before[1..], s);
    }
  }

  lemma {:induction false} TrimRightAround(s: string, after: string)
    requires AllSpace(after) && (s == "" || !IsSpace(s[|s| - 1]))
    ensures TrimRight(s + after) == s
    decreases |after|
  {
    var all := s + after;
    if after == "" {
      assert all == s;
    } else {
      assert all[..|all| - 1] == s + after[..|after| - 1];
      TrimRightAround(s, after[..|after| - 1]);
    }
  }

  /** Trimming takes exactly the white space around a solid text. */
  lemma TrimAround(before: string, s: string, after: string)
    requires AllSpace(before) && AllSpace(after) && Solid(s)
    ensures Trim(before + s + after) == s
  {
    assert before + s + after == before + (s + after);
    assert (s + after)[0] == s[0];
    TrimLeftAround(before, s + after);
    TrimRightAround(s, after);
  }

  lemma BodySolid(lines: seq<string>, k: nat)
    requires |lines| == k + 1 && Solid(lines[0]) && Solid(lines[k])
    ensures Solid(Unlines(lines[..k]) + lines[k])
  {
    var before, last := Unlines(lines[..k]), lines[k];
    assert (before + last)[|before + last| - 1] == last[|last| - 1];
    if k > 0 {
      FirstChar(lines[..k]);
    } else {
      assert before == "";
    }
  }

  /** Trimming printed text takes the last newline and nothing else, when its first
      and last line are solid. */
  lemma TrimUnlines(lines: seq<string>)
    requires lines != [] && Solid(lines[0]) && Solid(lines[|lines| - 1])
    ensures Unlines(lines) == Trim(Unlines(lines)) + "\n"
  {
    var k := |lines| - 1;
    BodySolid(lines, k);
    TrimLine(Unlines(lines[..k]) + lines[k]);
  }

  lemma {:induction false} FirstChar(lines: seq<string>)
    requires lines != [] && lines[0] != ""
    ensures Unlines(lines) != "" && Unlines(lines)[0] == lines[0][0]
    decreases |lines|
  {
    var k := |lines| - 1;
    if k > 0 {
      FirstChar(lines[..k]);
    } else {
      assert Unlines(lines[..0]) == "";
    }
  }

  lemma SplitWithoutRest(s: string, t: string, lines: seq<string>)
    requires s == t + "\n" && Split(s) == lines + [""]
    ensures Split(t) == lines
  {
    SplitAppend(t, "");
    assert t + "\n" + "" == s;
    assert Split(t) == (Split(t) + [""])[..|lines|] == (lines + [""])[..|lines|] == lines;
  }

  /** So what is split after trimming is exactly the lines. */
  lemma SplitTrimmed(lines: seq<string>)
    requires lines != [] && Solid(lines[0]) && Solid(lines[|lines| - 1])
    requires forall i :: 0 <= i < |lines| ==> NoneOf(lines[i], '\n')
    ensures Split(Trim(Unlines(lines))) == lines
  {
    TrimUnlines(lines);
    SplitUnlines(lines);
    SplitWithoutRest(Unlines(lines), Trim(Unlines(lines)), lines);
  }

  /** `strings.Cut` at the first equals sign. */
  function Cut(line: string): Option<(string, string)> {
    if line == "" then None
    else if line[0] == '=' then Some(("", line[1..]))
    else
      match Cut(line[1..])
      case None => None
      case Some((key, value)) => Some(([line[0]] + key, value))
  }

  lemma {:induction false} CutField(key: string, value: string)
    requires NoneOf(key, '=')
    ensures Cut(key + "=" + value) == Some((key, value))
  {
    var line := key + "=" + value;
    if key == "" {
      assert line[1..] == value;
    } else {
      assert line[1..] == key[1..] + "=" + value;
      CutField(key[1..], value);
      assert key == [key[0]] + key[1..];
    }
  }

  // ----- decimal --------------------------------------------------------------

  const INT64_MAX := 0x7FFF_FFFF_FFFF_FFFF
  const UINT64_MAX := 0xFFFF_FFFF_FFFF_FFFF

  /** Splitting is undone by joining: the pieces have no newline, and each closed by one
      they are the text closed by one. */
  lemma {:induction false} SplitJoins(s: string)
    ensures Split(s) != [] && Unlines(Split(s)) == s + "\n"
    ensures forall i :: 0 <= i < |Split(s)| ==> NoneOf(Split(s)[i], '\n')
  {
    if s == "" {
      assert Unlines([""][..0]) == "";
    } else {
      var before, c := s[..|s| - 1], s[|s| - 1];
      SplitJoins(before);
      var rest := Split(before);
      if c == '\n' {
        UnlinesSnoc(rest, "");
        assert s + "\n" == (before + "\n") + "" + "\n";
      } else {
        LastPieceGrows(rest, c);
        assert before + [c] == s;
      }
    }
  }

  lemma LastPieceGrows(lines: seq<string>, c: char)
    requires lines != []
    ensures var k := |lines| - 1; forall t :: Unlines(lines) == t + "\n" ==> Unlines(lines[k := lines[k] + [c]]) == t + [c] + "\n"
  {
    var k := |lines| - 1;
    var grown := lines[k := lines[k] + [c]];
    assert grown[..k] == lines[..k];
    var head := Unlines(lines[..k]);
    assert Unlines(grown) == head + (lines[k] + [c]) + "\n" == (head + lines[k]) + [c] + "\n";
    forall t | Unlines(lines) == t + "\n" ensures Unlines(grown) == t + [c] + "\n" {
      assert (head + lines[k] + "\n")[..|head + lines[k]|] == (t + "\n")[..|t|];
    }
  }

  predicate IsDigit(c: char) { '0' <= c <= '9' }

  function Digit(n: nat): char
    requires n < 10
  {
    '0' + n as char
  }

  function DigitValue(c: char): nat
    requires IsDigit(c)
  {
    (c - '0') as nat
  }

  function ShowNat(n: nat): string {
    if n < 10 then [Digit(n)] else ShowNat(n / 10) + [Digit(n % 10)]
  }

  /** What the verb %d prints. */
  function Show(n: int): string {
    if n < 0 then "-" + ShowNat(-n) else ShowNat(n)
  }

  predicate AllDigits(s: string) {
    forall i :: 0 <= i < |s| ==> IsDigit(s[i])
  }

  function ReadDigits(s: string): int
    requires AllDigits(s)
  {
    if s == "" then 0 else ReadDigits(s[..|s| - 1]) * 10 + DigitValue(s[|s| - 1])
  }

  lemma {:induction false} ReadShow(n: nat)
    ensures ShowNat(n) != "" && AllDigits(ShowNat(n)) && ReadDigits(ShowNat(n)) == n
  {
    if n < 10 {
      assert ShowNat(n)[..0] == "";
      assert ReadDigits("") == 0;
    } else {
      ReadShow(n / 10);
      assert ShowNat(n)[..|ShowNat(n)| - 1] == ShowNat(n / 10);
    }
  }

  /** `strconv.Atoi`: an optional sign, then digits and nothing else, in range. */
  function Atoi(s: string): Option<int> {
    var signed := s != "" && (s[0] == '-' || s[0] == '+');
    var digits := if signed then s[1..] else s;
    if digits == "" || !AllDigits(digits) then None
    else
      var n: int := if signed && s[0] == '-' then -ReadDigits(digits) else ReadDigits(digits);
      if -INT64_MAX - 1 <= n <= INT64_MAX then Some(n) else None
  }

  /** The digits a text begins with. */
  function LeadingDigits(s: string): string {
    if s != "" && IsDigit(s[0]) then [s[0]] + LeadingDigits(s[1..]) else ""
  }

  lemma {:induction false} LeadingDigitsAreDigits(s: string)
    ensures AllDigits(LeadingDigits(s))
    ensures AllDigits(s) ==> LeadingDigits(s) == s
  {
    if s != "" && IsDigit(s[0]) {
      LeadingDigitsAreDigits(s[1..]);
      assert s == [s[0]] + s[1..];
    }
  }

  /** Scanning the verb %d into an unsigned number: white space, then as many digits
      as there are, in range. */
  function ScanUnsigned(s: string): Option<int> {
    var digits := LeadingDigits(TrimLeft(s));
    LeadingDigitsAreDigits(TrimLeft(s));
    if digits == "" || ReadDigits(digits) > UINT64_MAX then None else Some(ReadDigits(digits))
  }

  function ScanDigits(s: string): Option<int> {
    var digits := LeadingDigits(s);
    LeadingDigitsAreDigits(s);
    if digits == "" then None else Some(ReadDigits(digits))
  }

  lemma ScanDigitsShow(n: nat)
    ensures ScanDigits(ShowNat(n)) == Some(n) && ShowNat(n) != "" && IsDigit(ShowNat(n)[0])
  {
    ReadShow(n);
    LeadingDigitsAreDigits(ShowNat(n));
  }

  function InInt64(n: int): Option<int> {
    if -INT64_MAX - 1 <= n <= INT64_MAX then Some(n) else None
  }

  /** And into a signed one, after an optional sign. */
  function ScanSigned(text: string): Option<int> {
    var s := TrimLeft(text);
    var signed := s != "" && (s[0] == '-' || s[0] == '+');
    match ScanDigits(if signed then s[1..] else s)
    case None => None
    case Some(n) => InInt64(if signed && s[0] == '-' then -n else n)
  }

  lemma ScanShow(n: int)
    requires -INT64_MAX - 1 <= n <= INT64_MAX
    ensures ScanSigned(Show(n)) == Some(n)
  {
    ScanDigitsShow(if n < 0 then -n else n);
    if n < 0 {
      assert Show(n)[0] == '-' && Show(n)[1..] == ShowNat(-n);
    }
    assert TrimLeft(Show(n)) == Show(n);
  }

  /** A negative number does not scan into an unsigned one. */
  lemma ScanUnsignedNegative(n: int)
    requires n < 0
    ensures ScanUnsigned(Show(n)) == None
  {
    assert Show(n)[0] == '-' && TrimLeft(Show(n)) == Show(n);
  }

  lemma ScanUnsignedShow(n: nat)
    requires n <= UINT64_MAX
    ensures ScanUnsigned(Show(n)) == Some(n)
  {
    ReadShow(n);
    assert TrimLeft(Show(n)) == Show(n);
    LeadingDigitsAreDigits(ShowNat(n));
  }

  lemma DigitsSolid(s: string)
    requires s != "" && AllDigits(s)
    ensures Solid(s) && NoneOf(s, '\n')
  {
  }

  /** Numbers are solid and stay on their line. */
  lemma ShowSolid(n: int)
    ensures Solid(Show(n)) && NoneOf(Show(n), '\n')
  {
    if n < 0 {
      ReadShow(-n);
      DigitsSolid(ShowNat(-n));
    } else {
      ReadShow(n);
      DigitsSolid(ShowNat(n));
    }
  }

  // ----- hexadecimal ----------------------------------------------------------

  function HexDigit(n: nat): char
    requires n < 16
  {
    if n < 10 then '0' + n as char else 'a' + (n - 10) as char
  }

  function HexValue(c: char): Option<nat> {
    if '0' <= c <= '9' then Some((c - '0') as nat)
    else if 'a' <= c <= 'f' then Some((c - 'a') as nat + 10)
    else if 'A' <= c <= 'F' then Some((c - 'A') as nat + 10)
    else None
  }

  function HexEncode(bs: seq<byte>): string {
    if bs == [] then "" else [HexDigit(bs[0] as nat / 16), HexDigit(bs[0] as nat % 16)] + HexEncode(bs[1..])
  }

  /** `hex.DecodeString`: pairs of digits of either case, and nothing over. */
  function HexDecode(s: string): Option<seq<byte>> {
    if s == "" then Some([])
    else if |s| == 1 then None
    else
      match (HexValue(s[0]), HexValue(s[1]), HexDecode(s[2..]))
      case (Some(hi), Some(lo), Some(rest)) =>
        if hi < 16 && lo < 16 then Some([(hi * 16 + lo) as byte] + rest) else None
      case _ => None
  }

  /** A text of hexadecimal digits: no white space and no newline. */
  predicate AllHex(s: string) {
    forall i :: 0 <= i < |s| ==> HexValue(s[i]).Some?
  }

  lemma HexIsPlain(s: string)
    requires AllHex(s)
    ensures NoneOf(s, '\n') && forall i :: 0 <= i < |s| ==> !IsSpace(s[i])
  {
  }

  lemma HexPair(n: nat)
    requires n < 16
    ensures HexValue(HexDigit(n)) == Some(n)
  {
  }

  lemma HexByte(b: byte, rest: string)
    requires HexDecode(rest).Some?
    ensures HexDecode([HexDigit(b as nat / 16), HexDigit(b as nat % 16)] + rest) == Some([b] + HexDecode(rest).value)
  {
    var s := [HexDigit(b as nat / 16), HexDigit(b as nat % 16)] + rest;
    assert s[2..] == rest;
    HexPair(b as nat / 16);
    HexPair(b as nat % 16);
  }

  lemma {:induction false} HexEncodes(bs: seq<byte>)
    ensures HexDecode(HexEncode(bs)) == Some(bs)
    ensures |HexEncode(bs)| == 2 * |bs| && AllHex(HexEncode(bs))
  {
    if bs != [] {
      HexEncodes(bs[1..]);
      HexByte(bs[0], HexEncode(bs[1..]));
      HexPair(bs[0] as nat / 16);
      HexPair(bs[0] as nat % 16);
      assert bs == [bs[0]] + bs[1..];
    }
  }

  /** Bytes in hexadecimal decode to themselves, and stay on their line. */
  lemma HexRoundTrip(bs: seq<byte>)
    ensures HexDecode(HexEncode(bs)) == Some(bs)
    ensures |HexEncode(bs)| == 2 * |bs| && NoneOf(HexEncode(bs), '\n')
    ensures forall i :: 0 <= i < |HexEncode(bs)| ==> !IsSpace(HexEncode(bs)[i])
  {
    HexEncodes(bs);
    HexIsPlain(HexEncode(bs));
  }

  predicate IsHexDigit(c: char) {
    '0' <= c <= '9' || 'a' <= c <= 'f' || 'A' <= c <= 'F'
  }

  /** A text decodes if and only if it is pairs of digits of either case, and to as many
      bytes as it has pairs. */
  lemma {:induction false} HexDecodesExactly(s: string)
    ensures HexDecode(s).Some? <==> |s| % 2 == 0 && forall i :: 0 <= i < |s| ==> IsHexDigit(s[i])
    ensures HexDecode(s).Some? ==> |s| == 2 * |HexDecode(s).value|
  {
    if |s| >= 2 {
      HexDecodesExactly(s[2..]);
      HexDigitExactly(s[0]);
      HexDigitExactly(s[1]);
      if forall i :: 0 <= i < |s| ==> IsHexDigit(s[i]) {
        forall i | 0 <= i < |s[2..]| ensures IsHexDigit(s[2..][i]) {
          assert s[2..][i] == s[i + 2];
        }
      }
      if HexDecode(s).Some? {
        forall i | 0 <= i < |s| ensures IsHexDigit(s[i]) {
          assert i >= 2 ==> s[i] == s[2..][i - 2];
        }
      }
    }
  }

  lemma HexDigitExactly(c: char)
    ensures HexValue(c).Some? <==> IsHexDigit(c)
    ensures HexValue(c).Some? ==> HexValue(c).value < 16
  {
  }

  /** The digits of a numeral, without its sign. */
  function Unsigned(s: string): string {
    if s != "" && (s[0] == '-' || s[0] == '+') then s[1..] else s
  }

  /** A text reads as a number if and only if it is an optional sign and at least one digit,
      and the number is in range. */
  lemma AtoiExactly(s: string)
    ensures Atoi(s).Some? <==>
              && Unsigned(s) != "" && AllDigits(Unsigned(s))
              && (if s[0] == '-' then ReadDigits(Unsigned(s)) <= 0x8000_0000_0000_0000 else ReadDigits(Unsigned(s)) <= 0x7FFF_FFFF_FFFF_FFFF)
    ensures Atoi(s).Some? ==> Atoi(s).value == if s[0] == '-' then -ReadDigits(Unsigned(s)) else ReadDigits(Unsigned(s))
  {
    DigitsCount(Unsigned(s));
  }

  lemma {:induction false} DigitsCount(s: string)
    ensures AllDigits(s) ==> ReadDigits(s) >= 0
  {
    if s != "" {
      DigitsCount(s[..|s| - 1]);
    }
  }

  lemma ShowUnsigned(n: int)
    ensures Show(n) != "" && Unsigned(Show(n)) == ShowNat(if n < 0 then -n else n) && (Show(n)[0] == '-' <==> n < 0)
  {
    ReadShow(if n < 0 then -n else n);
    if n < 0 {
      assert Show(n)[0] == '-' && Show(n)[1..] == ShowNat(-n);
    } else {
      assert IsDigit(Show(n)[0]);
    }
  }

  /** Every number printed is read back. */
  lemma AtoiShow(n: int)
    requires -INT64_MAX - 1 <= n <= INT64_MAX
    ensures Atoi(Show(n)) == Some(n)
  {
    ShowUnsigned(n);
    ReadShow(if n < 0 then -n else n);
    AtoiExactly(Show(n));
  }
}
