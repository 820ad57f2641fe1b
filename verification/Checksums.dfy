/**
 The signed list of checksums: one line for each asset of a release.
 */
module Checksums {
  import opened Wrappers
  import opened Text
  import opened Versions

  function FirstWord(s: string): string {
    if s == "" || IsSpace(s[0]) then "" else [s[0]] + FirstWord(s[1..])
  }

  lemma {:induction false} FirstWordPrefix(s: string)
    ensures FirstWord(s) <= s
  {
    if s != "" && !IsSpace(s[0]) {
      FirstWordPrefix(s[1..]);
    }
  }

  /** `strings.Fields`: the words between white space. */
  function Words(s: string): seq<string>
    decreases |s|
  {
    FirstWordPrefix(s);
    if s == "" then []
    else if IsSpace(s[0]) then Words(s[1..])
    else [FirstWord(s)] + Words(s[|FirstWord(s)|..])
  }

  /** Whether a line is the named asset's, with or without the mark of a binary. */
  predicate Lists(line: string, name: string) {
    |Words(line)| == 2 && TrimPrefix(Words(line)[1], '*') == name
  }

  /** The first line for the asset decides. */
  function DigestIn(lines: seq<string>, name: string): Option<string> {
    if lines == [] then None
    else if Lists(lines[0], name) then Some(Words(lines[0])[0])
    else DigestIn(lines[1..], name)
  }

  function DigestOf(sums: string, name: string): Option<string> {
    DigestIn(Split(sums), name)
  }

  /** `digestOf`: the loop over the lines. */
  method FindDigest(sums: string, name: string) returns (r: Option<string>)
    ensures r == DigestOf(sums, name)
  {
    var lines := Split(sums);
    for i := 0 to |lines|
      invariant DigestIn(lines, name) == DigestIn(lines[i..], name)
    {
      var fields := Words(lines[i]);
      if |fields| == 2 && TrimPrefix(fields[1], '*') == name {
        return Some(fields[0]);
      }
      assert lines[i..][1..] == lines[i + 1..];
    }
    return None;
  }

  // ---------------------------------------------------------------------------
  // What a printed list says
  // ---------------------------------------------------------------------------

  datatype Entry = Entry(digest: string, binary: bool, name: string)

  predicate Word(s: string) {
    s != "" && forall i :: 0 <= i < |s| ==> !IsSpace(s[i])
  }

  predicate WellFormed(e: Entry) {
    Word(e.digest) && Word(e.name) && e.name[0] != '*'
  }

  function MarkedName(e: Entry): string {
    if e.binary then "*" + e.name else e.name
  }

  /** As the sha256sum tool prints it. */
  function EntryLine(e: Entry): string {
    e.digest + " " + (if e.binary then "" else " ") + MarkedName(e)
  }

  function EntryLines(es: seq<Entry>): (r: seq<string>)
    ensures |r| == |es| && forall i :: 0 <= i < |es| ==> r[i] == EntryLine(es[i])
  {
    if es == [] then [] else EntryLines(es[..|es| - 1]) + [EntryLine(es[|es| - 1])]
  }

  lemma {:induction false} FirstWordStops(w: string, rest: string)
    requires (forall i :: 0 <= i < |w| ==> !IsSpace(w[i])) && (rest == "" || IsSpace(rest[0]))
    ensures FirstWord(w + rest) == w
  {
    var all := w + rest;
    if w == "" {
      assert all == rest;
    } else {
      assert all[1..] == w[1..] + rest;
      FirstWordStops(w[1..], rest);
      assert [w[0]] + w[1..] == w;
    }
  }

  lemma WordThen(w: string, rest: string)
    requires Word(w) && (rest == "" || IsSpace(rest[0]))
    ensures Words(w + rest) == [w] + Words(rest)
  {
    FirstWordStops(w, rest);
    var all := w + rest;
    assert all[0] == w[0] && all[|w|..] == rest;
  }

  lemma SpaceThen(c: char, rest: string)
    requires IsSpace(c)
    ensures Words([c] + rest) == Words(rest)
  {
    assert ([c] + rest)[1..] == rest;
  }

  /** A word and what is left of it, behind any white space. */
  lemma GapThenWord(gap: string, w: string)
    requires Word(w) && |gap| <= 1 && (gap != "" ==> IsSpace(gap[0]))
    ensures Words(gap + w) == [w]
  {
    assert w + "" == w;
    WordThen(w, "");
    if gap == "" {
      assert gap + w == w;
    } else {
      assert gap == [gap[0]];
      SpaceThen(gap[0], w);
    }
  }

  lemma MarkedIsWord(e: Entry)
    requires WellFormed(e)
    ensures Word(MarkedName(e))
  {
  }

  lemma TwoWords(a: string, gap: string, b: string)
    requires Word(a) && Word(b) && |gap| <= 1 && (gap != "" ==> IsSpace(gap[0]))
    ensures Words(a + ([' '] + (gap + b))) == [a, b]
  {
    WordThen(a, [' '] + (gap + b));
    SpaceThen(' ', gap + b);
    GapThenWord(gap, b);
  }

  lemma EntryWords(e: Entry)
    requires WellFormed(e)
    ensures Words(EntryLine(e)) == [e.digest, MarkedName(e)]
  {
    var gap := if e.binary then "" else " ";
    assert EntryLine(e) == e.digest + ([' '] + (gap + MarkedName(e)));
    MarkedIsWord(e);
    TwoWords(e.digest, gap, MarkedName(e));
  }

  lemma EntryLists(e: Entry, name: string)
    requires WellFormed(e)
    ensures Lists(EntryLine(e), name) <==> e.name == name
    ensures Words(EntryLine(e)) != [] && Words(EntryLine(e))[0] == e.digest
    ensures NoneOf(EntryLine(e), '\n')
  {
    EntryWords(e);
    assert e.binary ==> MarkedName(e)[0] == '*' && MarkedName(e)[1..] == e.name;
  }

  /** The first entry under a name. */
  function Listed(es: seq<Entry>, name: string): Option<string> {
    if es == [] then None else if es[0].name == name then Some(es[0].digest) else Listed(es[1..], name)
  }

  predicate AllWellFormed(es: seq<Entry>) {
    forall i :: 0 <= i < |es| ==> WellFormed(es[i])
  }

  lemma {:induction false} EntriesFound(es: seq<Entry>, lines: seq<string>, name: string)
    requires AllWellFormed(es) && |lines| == |es| + 1 && lines[|es|] == ""
    requires forall i :: 0 <= i < |es| ==> lines[i] == EntryLine(es[i])
    ensures DigestIn(lines, name) == Listed(es, name)
    decreases |es|
  {
    if es == [] {
      assert lines[1..] == [] && Words("") == [];
    } else {
      EntryLists(es[0], name);
      EntriesFound(es[1..], lines[1..], name);
    }
  }

  /** Looking an asset up in a printed list finds the digest printed for it, and finds
      none for a name that is not in it. */
  lemma DigestOfPrinted(es: seq<Entry>, name: string)
    requires AllWellFormed(es)
    ensures DigestOf(Unlines(EntryLines(es)), name) == Listed(es, name)
  {
    var lines := EntryLines(es);
    forall i | 0 <= i < |lines| ensures NoneOf(lines[i], '\n') {
      EntryLists(es[i], name);
    }
    SplitUnlines(lines);
    EntriesFound(es, lines + [""], name);
  }
}
