/**
 What the kernel backend prints about the device, and what `Status` and `ListenPort`
 read out of it.
 */
module DeviceStatus {
  import opened Wrappers
  import opened Text
  import opened Uapi
  import UapiParser

  // ---------------------------------------------------------------------------
  // Printing
  // ---------------------------------------------------------------------------

  /** A peer as the kernel reports it.  `handshake` is none before the first one; the
      counters are signed there. */
  datatype KernelPeer = KernelPeer(publicKey: Key, endpoint: Option<Endpoint>, handshake: Option<int>, received: int, sent: int)

  predicate Int64(n: int) {
    -INT64_MAX - 1 <= n <= INT64_MAX
  }

  predicate InRange(p: KernelPeer) {
    (p.handshake.Some? ==> Int64(p.handshake.value)) && Int64(p.received) && Int64(p.sent)
  }

  function HandshakeSeconds(t: Option<int>): int {
    if t.None? then 0 else t.value
  }

  function EndpointLines(lib: Library, at: Option<Endpoint>): seq<string> {
    if at.Some? then [Field("endpoint", lib.showEndpoint(at.value))] else []
  }

  function CounterLines(p: KernelPeer): seq<string> {
    [Field("last_handshake_time_sec", Show(HandshakeSeconds(p.handshake))),
     Field("rx_bytes", Show(p.received)),
     Field("tx_bytes", Show(p.sent))]
  }

  function PeerLines(lib: Library, p: KernelPeer): seq<string> {
    [Field("public_key", HexEncode(p.publicKey))] + EndpointLines(lib, p.endpoint) + CounterLines(p)
  }

  function DumpLines(lib: Library, port: int, peers: seq<KernelPeer>): seq<string> {
    if peers == [] then [Field("listen_port", Show(port))]
    else DumpLines(lib, port, peers[..|peers| - 1]) + PeerLines(lib, peers[|peers| - 1])
  }

  /** One peer's key and endpoint. */
  method WriteHead(lib: Library, p: KernelPeer) returns (b: string)
    ensures b == Unlines([Field("public_key", HexEncode(p.publicKey))] + EndpointLines(lib, p.endpoint))
  {
    var key := Field("public_key", HexEncode(p.publicKey));
    b := WriteLine("", [], key);
    assert [] + [key] == [key] && [key] + [] == [key];
    if p.endpoint.Some? {
      b := WriteLine(b, [key], Field("endpoint", lib.showEndpoint(p.endpoint.value)));
    }
  }

  method WritePeer(lib: Library, p: KernelPeer) returns (b: string)
    ensures b == Unlines(PeerLines(lib, p))
  {
    b := WriteHead(lib, p);
    b := WriteCounters(p, [Field("public_key", HexEncode(p.publicKey))] + EndpointLines(lib, p.endpoint), b);
  }

  method WriteCounters(p: KernelPeer, ghost lines: seq<string>, before: string) returns (b: string)
    requires before == Unlines(lines)
    ensures b == Unlines(lines + CounterLines(p))
  {
    var handshake := Field("last_handshake_time_sec", Show(HandshakeSeconds(p.handshake)));
    b := WriteLine(before, lines, handshake);
    var rx := Field("rx_bytes", Show(p.received));
    b := WriteLine(b, lines + [handshake], rx);
    var tx := Field("tx_bytes", Show(p.sent));
    b := WriteLine(b, lines + [handshake] + [rx], tx);
    assert lines + [handshake] + [rx] + [tx] == lines + [handshake, rx, tx];
  }

  function DumpText(lib: Library, port: int, peers: seq<KernelPeer>): string {
    Unlines(DumpLines(lib, port, peers))
  }

  lemma DumpNone(lib: Library, port: int)
    ensures DumpText(lib, port, []) == Field("listen_port", Show(port)) + "\n"
  {
    UnlinesSnoc([], Field("listen_port", Show(port)));
    assert [] + [Field("listen_port", Show(port))] == DumpLines(lib, port, []);
  }

  lemma DumpGrows(lib: Library, port: int, peers: seq<KernelPeer>, i: nat)
    requires i < |peers|
    ensures DumpText(lib, port, peers[..i + 1]) == DumpText(lib, port, peers[..i]) + Unlines(PeerLines(lib, peers[i]))
  {
    assert peers[..i + 1][..i] == peers[..i];
    UnlinesAppend(DumpLines(lib, port, peers[..i]), PeerLines(lib, peers[i]));
  }

  /** `dump`. */
  method Dump(lib: Library, port: int, peers: seq<KernelPeer>) returns (b: string)
    ensures b == DumpText(lib, port, peers)
  {
    b := Field("listen_port", Show(port)) + "\n";
    DumpNone(lib, port);
    for i := 0 to |peers|
      invariant b == DumpText(lib, port, peers[..i])
    {
      var block := WritePeer(lib, peers[i]);
      DumpGrows(lib, port, peers, i);
      b := b + block;
    }
    assert peers[..|peers|] == peers;
  }

  // ---------------------------------------------------------------------------
  // Reading
  // ---------------------------------------------------------------------------

  datatype PeerStatus = PeerStatus(endpoint: string, lastHandshake: int, rx: int, tx: int, allowedIPs: seq<Prefix>)

  const BLANK := PeerStatus("", 0, 0, 0, [])

  /** What the loop holds: the peers finished, the key of the one being read (none if
      it did not decode) and what was read of it. */
  datatype Reading = Reading(out: map<Key, PeerStatus>, cur: Option<Key>, st: PeerStatus)

  const START := Reading(map[], None, BLANK)

  function Flushed(s: Reading): map<Key, PeerStatus> {
    if s.cur.Some? then s.out[s.cur.value := s.st] else s.out
  }

  datatype Name = PublicKey | EndpointAt | LastHandshake | RxBytes | TxBytes | AllowedIP | Other

  function NameOf(key: string): Name {
    if key == "public_key" then PublicKey
    else if key == "endpoint" then EndpointAt
    else if key == "last_handshake_time_sec" then LastHandshake
    else if key == "rx_bytes" then RxBytes
    else if key == "tx_bytes" then TxBytes
    else if key == "allowed_ip" then AllowedIP
    else Other
  }

  /** A number that does not scan leaves what was there. */
  function OrElse(n: Option<int>, was: int): int {
    if n.Some? then n.value else was
  }

  function ReadInPeer(prefix: string -> Option<Prefix>, st: PeerStatus, name: Name, value: string): PeerStatus {
    match name
    case EndpointAt => PeerStatus(value, st.lastHandshake, st.rx, st.tx, st.allowedIPs)
    case LastHandshake => PeerStatus(st.endpoint, OrElse(ScanSigned(value), st.lastHandshake), st.rx, st.tx, st.allowedIPs)
    case RxBytes => PeerStatus(st.endpoint, st.lastHandshake, OrElse(ScanUnsigned(value), st.rx), st.tx, st.allowedIPs)
    case TxBytes => PeerStatus(st.endpoint, st.lastHandshake, st.rx, OrElse(ScanUnsigned(value), st.tx), st.allowedIPs)
    case AllowedIP =>
      if prefix(value).None? then st
      else PeerStatus(st.endpoint, st.lastHandshake, st.rx, st.tx, st.allowedIPs + [prefix(value).value])
    case _ => st
  }

  function ReadField(prefix: string -> Option<Prefix>, s: Reading, name: Name, value: string): Reading {
    if name.PublicKey? then Reading(Flushed(s), UapiParser.KeyFromHex(value), BLANK)
    else Reading(s.out, s.cur, ReadInPeer(prefix, s.st, name, value))
  }

  function ReadLine(prefix: string -> Option<Prefix>, s: Reading, line: string): Reading {
    match Cut(line)
    case None => s
    case Some((key, value)) => ReadField(prefix, s, NameOf(key), value)
  }

  function ReadLines(prefix: string -> Option<Prefix>, s: Reading, lines: seq<string>): Reading {
    if lines == [] then s
    else ReadLine(prefix, ReadLines(prefix, s, lines[..|lines| - 1]), lines[|lines| - 1])
  }

  function StatusOf(prefix: string -> Option<Prefix>, raw: string): map<Key, PeerStatus> {
    Flushed(ReadLines(prefix, START, Split(raw)))
  }

  /** `Status`: the loop over the lines. */
  method Status(prefix: string -> Option<Prefix>, raw: string) returns (out: map<Key, PeerStatus>)
    ensures out == StatusOf(prefix, raw)
  {
    var lines := Split(raw);
    var s := START;
    for i := 0 to |lines|
      invariant s == ReadLines(prefix, START, lines[..i])
    {
      assert lines[..i + 1][..i] == lines[..i];
      s := ReadLine(prefix, s, lines[i]);
    }
    assert lines[..|lines|] == lines;
    return Flushed(s);
  }

  lemma {:induction false} Append(prefix: string -> Option<Prefix>, s: Reading, a: seq<string>, b: seq<string>)
    ensures ReadLines(prefix, s, a + b) == ReadLines(prefix, ReadLines(prefix, s, a), b)
    decreases |b|
  {
    if b == [] {
      assert a + b == a;
    } else {
      var k := |b| - 1;
      Append(prefix, s, a, b[..k]);
      assert (a + b)[..|a + b| - 1] == a + b[..k];
    }
  }

  // ---------------------------------------------------------------------------
  // A key that does not decode
  // ---------------------------------------------------------------------------

  predicate OpensPeer(line: string) {
    Cut(line).Some? && Cut(line).value.0 == "public_key"
  }

  predicate OpensNobody(line: string) {
    OpensPeer(line) && UapiParser.KeyFromHex(Cut(line).value.1).None?
  }

  predicate NoneOpens(lines: seq<string>) {
    forall i :: 0 <= i < |lines| ==> !OpensPeer(lines[i])
  }

  lemma OpeningReads(prefix: string -> Option<Prefix>, s: Reading, line: string)
    requires OpensPeer(line)
    ensures ReadLine(prefix, s, line) == Reading(Flushed(s), UapiParser.KeyFromHex(Cut(line).value.1), BLANK)
  {
  }

  lemma OtherReads(prefix: string -> Option<Prefix>, s: Reading, line: string)
    requires !OpensPeer(line)
    ensures ReadLine(prefix, s, line).out == s.out && ReadLine(prefix, s, line).cur == s.cur
  {
  }

  /** Between two key lines only the peer being read changes. */
  lemma {:induction false} BlockReads(prefix: string -> Option<Prefix>, s: Reading, lines: seq<string>)
    requires NoneOpens(lines)
    ensures ReadLines(prefix, s, lines).out == s.out && ReadLines(prefix, s, lines).cur == s.cur
    decreases |lines|
  {
    if lines != [] {
      var k := |lines| - 1;
      BlockReads(prefix, s, lines[..k]);
      OtherReads(prefix, ReadLines(prefix, s, lines[..k]), lines[k]);
    }
  }

  /** After a key line, all that came before is in what was flushed. */
  lemma FlushedIsAll(prefix: string -> Option<Prefix>, s: Reading, t: Reading, lines: seq<string>)
    requires Flushed(s) == Flushed(t) && (lines == [] || OpensPeer(lines[0]))
    ensures Flushed(ReadLines(prefix, s, lines)) == Flushed(ReadLines(prefix, t, lines))
  {
    if lines != [] {
      assert lines == [lines[0]] + lines[1..];
      Append(prefix, s, [lines[0]], lines[1..]);
      Append(prefix, t, [lines[0]], lines[1..]);
      OneLine(prefix, s, lines[0]);
      OneLine(prefix, t, lines[0]);
      OpeningReads(prefix, s, lines[0]);
      OpeningReads(prefix, t, lines[0]);
    }
  }

  lemma OneLine(prefix: string -> Option<Prefix>, s: Reading, line: string)
    ensures ReadLines(prefix, s, [line]) == ReadLine(prefix, s, line)
  {
    assert [line][..0] == [];
  }

  /** A block whose key does not decode might as well not have been printed: none of
      its fields reaches any peer, whatever comes before and after. */
  lemma UndecodableBlockReachesNobody(prefix: string -> Option<Prefix>, before: seq<string>, bad: string, fields: seq<string>, after: seq<string>)
    requires OpensNobody(bad) && NoneOpens(fields) && (after == [] || OpensPeer(after[0]))
    ensures Flushed(ReadLines(prefix, START, before + [bad] + fields + after)) == Flushed(ReadLines(prefix, START, before + after))
  {
    var s := ReadLines(prefix, START, before);
    Append(prefix, START, before + [bad] + fields, after);
    Append(prefix, START, before + [bad], fields);
    Append(prefix, START, before, [bad]);
    Append(prefix, START, before, after);
    OneLine(prefix, s, bad);
    OpeningReads(prefix, s, bad);
    BlockReads(prefix, ReadLine(prefix, s, bad), fields);
    FlushedIsAll(prefix, ReadLines(prefix, ReadLine(prefix, s, bad), fields), s, after);
  }

  // ---------------------------------------------------------------------------
  // The round trip
  // ---------------------------------------------------------------------------

  /** What is to be read of a peer.  A counter past the signed range was printed
      negative and reads as nothing; and the kernel dump prints no allowed addresses. */
  function Reported(lib: Library, p: KernelPeer): PeerStatus {
    PeerStatus(if p.endpoint.Some? then lib.showEndpoint(p.endpoint.value) else "",
               if p.handshake.None? then 0 else p.handshake.value,
               if p.received < 0 then 0 else p.received,
               if p.sent < 0 then 0 else p.sent,
               [])
  }

  function KeyOf(n: Name): string
    requires !n.Other?
  {
    match n
    case PublicKey => "public_key"
    case EndpointAt => "endpoint"
    case LastHandshake => "last_handshake_time_sec"
    case RxBytes => "rx_bytes"
    case TxBytes => "tx_bytes"
    case AllowedIP => "allowed_ip"
  }

  lemma NameRoundTrip(n: Name)
    requires !n.Other?
    ensures NameOf(KeyOf(n)) == n
  {
    assert "rx_bytes"[0] == 'r' && "tx_bytes"[0] == 't' && "endpoint"[0] == 'e';
  }

  lemma NamePlain(n: Name)
    requires !n.Other?
    ensures NoneOf(KeyOf(n), '=') && NoneOf(KeyOf(n), '\n')
  {
    KeyWordy(n);
    UapiParser.WordyPlain(KeyOf(n));
  }

  lemma LongKeyWordy()
    ensures UapiParser.Wordy("last_handshake_time_sec")
  {
  }

  lemma KeyWordy(n: Name)
    requires !n.Other?
    ensures UapiParser.Wordy(KeyOf(n))
  {
    LongKeyWordy();
    UapiParser.ShortKeysPlain();
  }

  lemma FieldReads(prefix: string -> Option<Prefix>, s: Reading, n: Name, value: string)
    requires !n.Other?
    ensures ReadLine(prefix, s, Field(KeyOf(n), value)) == ReadField(prefix, s, n, value)
  {
    NameRoundTrip(n);
    NamePlain(n);
    CutField(KeyOf(n), value);
  }

  lemma Snoc(prefix: string -> Option<Prefix>, s: Reading, lines: seq<string>, line: string)
    ensures ReadLines(prefix, s, lines + [line]) == ReadLine(prefix, ReadLines(prefix, s, lines), line)
  {
    assert (lines + [line])[..|lines|] == lines;
  }

  lemma EndpointReads(lib: Library, prefix: string -> Option<Prefix>, s: Reading, at: Option<Endpoint>)
    requires s.st == BLANK
    ensures ReadLines(prefix, s, EndpointLines(lib, at)) ==
            Reading(s.out, s.cur, PeerStatus(if at.Some? then lib.showEndpoint(at.value) else "", 0, 0, 0, []))
  {
    if at.Some? {
      OneLine(prefix, s, Field("endpoint", lib.showEndpoint(at.value)));
      FieldReads(prefix, s, EndpointAt, lib.showEndpoint(at.value));
    }
  }

  lemma CounterReads(n: int)
    requires Int64(n)
    ensures OrElse(ScanUnsigned(Show(n)), 0) == if n < 0 then 0 else n
  {
    if n < 0 {
      ScanUnsignedNegative(n);
    } else {
      ScanUnsignedShow(n);
    }
  }

  lemma CountersRead(prefix: string -> Option<Prefix>, s: Reading, p: KernelPeer)
    requires InRange(p) && s.st == PeerStatus(s.st.endpoint, 0, 0, 0, [])
    ensures var st := ReadLines(prefix, s, CounterLines(p));
            st.out == s.out && st.cur == s.cur
            && st.st == PeerStatus(s.st.endpoint, HandshakeSeconds(p.handshake), if p.received < 0 then 0 else p.received,
                                   if p.sent < 0 then 0 else p.sent, [])
  {
    var a, b, c := CounterLines(p)[0], CounterLines(p)[1], CounterLines(p)[2];
    assert CounterLines(p) == [a] + [b] + [c];
    OneLine(prefix, s, a);
    Snoc(prefix, s, [a], b);
    Snoc(prefix, s, [a] + [b], c);
    FieldReads(prefix, s, LastHandshake, Show(HandshakeSeconds(p.handshake)));
    ScanShow(HandshakeSeconds(p.handshake));
    FieldReads(prefix, ReadLine(prefix, s, a), RxBytes, Show(p.received));
    CounterReads(p.received);
    FieldReads(prefix, ReadLine(prefix, ReadLine(prefix, s, a), b), TxBytes, Show(p.sent));
    CounterReads(p.sent);
  }

  lemma PeerReads(lib: Library, prefix: string -> Option<Prefix>, s: Reading, p: KernelPeer)
    requires InRange(p)
    ensures ReadLines(prefix, s, PeerLines(lib, p)) == Reading(Flushed(s), Some(p.publicKey), Reported(lib, p))
  {
    var key := Field("public_key", HexEncode(p.publicKey));
    OneLine(prefix, s, key);
    FieldReads(prefix, s, PublicKey, HexEncode(p.publicKey));
    UapiParser.KeyParses(p.publicKey);
    var t := Reading(Flushed(s), Some(p.publicKey), BLANK);
    Append(prefix, s, [key], EndpointLines(lib, p.endpoint));
    EndpointReads(lib, prefix, t, p.endpoint);
    Append(prefix, s, [key] + EndpointLines(lib, p.endpoint), CounterLines(p));
    CountersRead(prefix, ReadLines(prefix, t, EndpointLines(lib, p.endpoint)), p);
  }

  /** The peers by key; of two with one key, the later. */
  function Reports(lib: Library, peers: seq<KernelPeer>): map<Key, PeerStatus> {
    if peers == [] then map[]
    else Reports(lib, peers[..|peers| - 1])[peers[|peers| - 1].publicKey := Reported(lib, peers[|peers| - 1])]
  }

  predicate AllInRange(peers: seq<KernelPeer>) {
    forall i :: 0 <= i < |peers| ==> InRange(peers[i])
  }

  predicate DistinctKeys(peers: seq<KernelPeer>) {
    forall i, j :: 0 <= i < j < |peers| ==> peers[i].publicKey != peers[j].publicKey
  }

  lemma PortIgnored(prefix: string -> Option<Prefix>, port: int)
    ensures ReadLines(prefix, START, [Field("listen_port", Show(port))]) == START
  {
    OneLine(prefix, START, Field("listen_port", Show(port)));
    CutField("listen_port", Show(port));
    assert "listen_port"[0] == 'l' && |"listen_port"| == 11;
  }

  lemma OneMoreReads(lib: Library, prefix: string -> Option<Prefix>, lines: seq<string>, p: KernelPeer)
    requires InRange(p)
    ensures Flushed(ReadLines(prefix, START, lines + PeerLines(lib, p))) ==
            Flushed(ReadLines(prefix, START, lines))[p.publicKey := Reported(lib, p)]
  {
    Append(prefix, START, lines, PeerLines(lib, p));
    PeerReads(lib, prefix, ReadLines(prefix, START, lines), p);
  }

  lemma {:induction false} PeersRead(lib: Library, prefix: string -> Option<Prefix>, port: int, peers: seq<KernelPeer>)
    requires AllInRange(peers)
    ensures Flushed(ReadLines(prefix, START, DumpLines(lib, port, peers))) == Reports(lib, peers)
    decreases |peers|
  {
    if peers == [] {
      PortIgnored(prefix, port);
    } else {
      var rest, last := peers[..|peers| - 1], peers[|peers| - 1];
      PeersRead(lib, prefix, port, rest);
      OneMoreReads(lib, prefix, DumpLines(lib, port, rest), last);
    }
  }

  predicate AllOneLine(lines: seq<string>) {
    forall i :: 0 <= i < |lines| ==> NoneOf(lines[i], '\n')
  }

  lemma FieldIsOneLine(n: Name, value: string)
    requires !n.Other? && NoneOf(value, '\n')
    ensures NoneOf(Field(KeyOf(n), value), '\n')
  {
    NamePlain(n);
  }

  lemma CountersAreLines(p: KernelPeer)
    ensures AllOneLine(CounterLines(p))
  {
    ShowSolid(HandshakeSeconds(p.handshake));
    FieldIsOneLine(LastHandshake, Show(HandshakeSeconds(p.handshake)));
    ShowSolid(p.received);
    FieldIsOneLine(RxBytes, Show(p.received));
    ShowSolid(p.sent);
    FieldIsOneLine(TxBytes, Show(p.sent));
  }

  lemma HeadIsLines(lib: Library, p: KernelPeer)
    requires Faithful(lib)
    ensures AllOneLine([Field("public_key", HexEncode(p.publicKey))] + EndpointLines(lib, p.endpoint))
  {
    UapiParser.KeyParses(p.publicKey);
    FieldIsOneLine(PublicKey, HexEncode(p.publicKey));
    if p.endpoint.Some? {
      FieldIsOneLine(EndpointAt, lib.showEndpoint(p.endpoint.value));
    }
  }

  lemma LinesAppend(a: seq<string>, b: seq<string>)
    requires AllOneLine(a) && AllOneLine(b)
    ensures AllOneLine(a + b)
  {
  }

  lemma PeerIsLines(lib: Library, p: KernelPeer)
    requires Faithful(lib)
    ensures AllOneLine(PeerLines(lib, p))
  {
    CountersAreLines(p);
    HeadIsLines(lib, p);
    LinesAppend([Field("public_key", HexEncode(p.publicKey))] + EndpointLines(lib, p.endpoint), CounterLines(p));
  }

  lemma {:induction false} DumpIsLines(lib: Library, port: int, peers: seq<KernelPeer>)
    requires Faithful(lib)
    ensures AllOneLine(DumpLines(lib, port, peers))
    decreases |peers|
  {
    if peers == [] {
      ShowSolid(port);
    } else {
      DumpIsLines(lib, port, peers[..|peers| - 1]);
      PeerIsLines(lib, peers[|peers| - 1]);
    }
  }

  /** Reading what was printed gives every peer its own endpoint, handshake and
      counters, and nothing else. */
  lemma StatusOfDump(lib: Library, prefix: string -> Option<Prefix>, port: int, peers: seq<KernelPeer>)
    requires Faithful(lib) && AllInRange(peers)
    ensures StatusOf(prefix, DumpText(lib, port, peers)) == Reports(lib, peers)
  {
    var lines := DumpLines(lib, port, peers);
    DumpIsLines(lib, port, peers);
    SplitUnlines(lines);
    PeersRead(lib, prefix, port, peers);
    Snoc(prefix, START, lines, "");
  }

  lemma {:induction false} NoReportFor(lib: Library, peers: seq<KernelPeer>, key: Key)
    requires forall i :: 0 <= i < |peers| ==> peers[i].publicKey != key
    ensures key !in Reports(lib, peers)
    decreases |peers|
  {
    if peers != [] {
      NoReportFor(lib, peers[..|peers| - 1], key);
    }
  }

  /** With distinct keys there are as many reports as peers, and every peer has its own. */
  lemma {:induction false} OneReportEach(lib: Library, peers: seq<KernelPeer>)
    requires DistinctKeys(peers)
    ensures |Reports(lib, peers)| == |peers|
    ensures forall i :: 0 <= i < |peers| ==> HasReport(lib, Reports(lib, peers), peers[i])
    decreases |peers|
  {
    if peers != [] {
      var rest, last := peers[..|peers| - 1], peers[|peers| - 1];
      OneReportEach(lib, rest);
      NoReportFor(lib, rest, last.publicKey);
      forall i | 0 <= i < |peers| ensures HasReport(lib, Reports(lib, peers), peers[i]) {
        if i < |rest| {
          assert rest[i] == peers[i] && HasReport(lib, Reports(lib, rest), rest[i]);
        }
      }
    }
  }

  predicate HasReport(lib: Library, reports: map<Key, PeerStatus>, p: KernelPeer) {
    p.publicKey in reports && reports[p.publicKey] == Reported(lib, p)
  }

  // ---------------------------------------------------------------------------
  // The listen port
  // ---------------------------------------------------------------------------

  datatype PortError = NotANumber | NotReported

  const PORT := "listen_port="

  predicate HasPrefix(s: string, p: string) {
    |p| <= |s| && s[..|p|] == p
  }

  lemma PrefixExactly(s: string, p: string)
    ensures HasPrefix(s, p) <==> exists rest :: s == p + rest
  {
    if HasPrefix(s, p) {
      assert s == p + s[|p|..];
    }
  }

  /** The first line that reports a port decides. */
  function PortIn(lines: seq<string>): Result<int, PortError> {
    if lines == [] then Err(NotReported)
    else if HasPrefix(lines[0], PORT) then
      match ScanSigned(lines[0][|PORT|..])
      case None => Err(NotANumber)
      case Some(n) => Ok(n)
    else PortIn(lines[1..])
  }

  /** `ListenPort`: the loop over the lines. */
  method ListenPort(raw: string) returns (r: Result<int, PortError>)
    ensures r == PortIn(Split(raw))
  {
    var lines := Split(raw);
    for i := 0 to |lines|
      invariant PortIn(lines) == PortIn(lines[i..])
    {
      if HasPrefix(lines[i], PORT) {
        var n := ScanSigned(lines[i][|PORT|..]);
        return if n.None? then Err(NotANumber) else Ok(n.value);
      }
      assert lines[i..][1..] == lines[i + 1..];
    }
    return Err(NotReported);
  }

  lemma {:induction false} PortLineFirst(lib: Library, port: int, peers: seq<KernelPeer>)
    ensures DumpLines(lib, port, peers) != [] && DumpLines(lib, port, peers)[0] == Field("listen_port", Show(port))
    decreases |peers|
  {
    if peers != [] {
      PortLineFirst(lib, port, peers[..|peers| - 1]);
    }
  }

  /** The port printed is the port read. */
  lemma PortOfDump(lib: Library, port: int, peers: seq<KernelPeer>)
    requires Faithful(lib) && Int64(port)
    ensures PortIn(Split(DumpText(lib, port, peers))) == Ok(port)
  {
    DumpIsLines(lib, port, peers);
    SplitUnlines(DumpLines(lib, port, peers));
    PortLineFirst(lib, port, peers);
    var first := Field("listen_port", Show(port));
    assert first[..|PORT|] == PORT && first[|PORT|..] == Show(port);
    ScanShow(port);
  }

  // ----- allowed addresses, which another backend prints -----------------------

  function AllowedLines(values: seq<string>): seq<string> {
    if values == [] then [] else AllowedLines(values[..|values| - 1]) + [Field("allowed_ip", values[|values| - 1])]
  }

  /** Those of the values that read, in order. */
  function Readable(prefix: string -> Option<Prefix>, values: seq<string>): seq<Prefix> {
    if values == [] then []
    else Readable(prefix, values[..|values| - 1])
         + if prefix(values[|values| - 1]).Some? then [prefix(values[|values| - 1]).value] else []
  }

  /** Allowed addresses are added to the peer being read, in order, the unreadable ones
      skipped, and nothing else changes. */
  lemma {:induction false} AllowedRead(prefix: string -> Option<Prefix>, s: Reading, values: seq<string>)
    ensures ReadLines(prefix, s, AllowedLines(values)) ==
            Reading(s.out, s.cur, PeerStatus(s.st.endpoint, s.st.lastHandshake, s.st.rx, s.st.tx, s.st.allowedIPs + Readable(prefix, values)))
    decreases |values|
  {
    if values == [] {
      assert s.st.allowedIPs + [] == s.st.allowedIPs;
    } else {
      var k := |values| - 1;
      AllowedRead(prefix, s, values[..k]);
      Snoc(prefix, s, AllowedLines(values[..k]), Field("allowed_ip", values[k]));
      FieldReads(prefix, ReadLines(prefix, s, AllowedLines(values[..k])), AllowedIP, values[k]);
    }
  }
}
