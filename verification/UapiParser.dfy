/**
 The kernel backend's reader of the configuration text, and the theorem that it
 reads back exactly what the device wrote.
 */
module UapiParser {
  import opened Wrappers
  import opened Text
  import opened Uapi

  /** The fields the reader knows.  Anything else is refused. */
  datatype Name =
    | PrivateKey | ListenPort | PublicKey | PresharedKey | EndpointAt | AllowedIP
    | Keepalive | ReplaceAllowedIPs | UpdateOnly | Remove

  function NameOf(key: string): Option<Name> {
    if key == "private_key" then Some(PrivateKey)
    else if key == "listen_port" then Some(ListenPort)
    else if key == "public_key" then Some(PublicKey)
    else if key == "preshared_key" then Some(PresharedKey)
    else if key == "endpoint" then Some(EndpointAt)
    else if key == "allowed_ip" then Some(AllowedIP)
    else if key == "persistent_keepalive_interval" then Some(Keepalive)
    else if key == "replace_allowed_ips" then Some(ReplaceAllowedIPs)
    else if key == "update_only" then Some(UpdateOnly)
    else if key == "remove" then Some(Remove)
    else None
  }

  datatype PeerConfig = PeerConfig(
    publicKey: Key,
    presharedKey: Option<Key>,
    endpoint: Option<Endpoint>,
    allowedIPs: seq<Prefix>,
    keepalive: Option<int>,
    replaceAllowedIPs: bool,
    updateOnly: bool,
    remove: bool)

  datatype Config = Config(privateKey: Option<Key>, listenPort: Option<int>, peers: seq<PeerConfig>)

  const NOTHING := Config(None, None, [])

  datatype Error = NoValue | BadKey | BadNumber | BadEndpoint | BadPrefix | OutsideAPeer | Unhandled(key: string)

  /** What the loop holds: the configuration so far and the peer being read. */
  datatype Parsing = Parsing(cfg: Config, peer: Option<PeerConfig>)

  function Flush(st: Parsing): Config {
    if st.peer.Some? then st.cfg.(peers := st.cfg.peers + [st.peer.value]) else st.cfg
  }

  function KeyFromHex(s: string): Option<Key> {
    match HexDecode(s)
    case None => None
    case Some(bs) => if |bs| == 32 then Some(bs) else None
  }

  const SECOND := 1_000_000_000

  /** What 64 bits keep of a number. */
  function Int64(n: int): int {
    (n + 0x8000_0000_0000_0000) % 0x1_0000_0000_0000_0000 - 0x8000_0000_0000_0000
  }

  /** A number of seconds as a 64-bit count of nanoseconds, which wraps. */
  function Seconds(n: int): int {
    Int64(n * SECOND)
  }

  function NewPeer(key: Key): PeerConfig {
    PeerConfig(key, None, None, [], None, false, false, false)
  }

  function ParseInPeer(lib: Library, p: PeerConfig, name: Name, value: string): Result<PeerConfig, Error> {
    match name
    case PresharedKey =>
      var k := KeyFromHex(value);
      if k.None? then Err(BadKey) else Ok(p.(presharedKey := k))
    case EndpointAt =>
      (match lib.readEndpoint(value)
       case None => Err(BadEndpoint)
       case Some(e) => Ok(p.(endpoint := Some(e))))
    case AllowedIP =>
      (match lib.readPrefix(value)
       case None => Err(BadPrefix)
       case Some(n) => Ok(p.(allowedIPs := p.allowedIPs + [n])))
    case Keepalive =>
      var n := Atoi(value);
      if n.None? then Err(BadNumber) else Ok(p.(keepalive := Some(Seconds(n.value))))
    case ReplaceAllowedIPs => Ok(p.(replaceAllowedIPs := value == "true"))
    case UpdateOnly => Ok(p.(updateOnly := value == "true"))
    case Remove => Ok(p.(remove := value == "true"))
    case _ => Ok(p)
  }

  function ParseField(lib: Library, st: Parsing, name: Name, value: string): Result<Parsing, Error> {
    match name
    case PrivateKey =>
      var k := KeyFromHex(value);
      if k.None? then Err(BadKey) else Ok(Parsing(Config(k, st.cfg.listenPort, st.cfg.peers), st.peer))
    case ListenPort =>
      var n := Atoi(value);
      if n.None? then Err(BadNumber) else Ok(Parsing(Config(st.cfg.privateKey, n, st.cfg.peers), st.peer))
    case PublicKey =>
      var k := KeyFromHex(value);
      if k.None? then Err(BadKey) else Ok(Parsing(Flush(st), Some(NewPeer(k.value))))
    case _ =>
      if st.peer.None? then Err(OutsideAPeer)
      else
        match ParseInPeer(lib, st.peer.value, name, value)
        case Err(e) => Err(e)
        case Ok(p) => Ok(st.(peer := Some(p)))
  }

  function ParseLine(lib: Library, st: Parsing, line: string): Result<Parsing, Error> {
    if line == "" then Ok(st)
    else
      match Cut(line)
      case None => Err(NoValue)
      case Some((key, value)) =>
        if NameOf(key).None? then Err(Unhandled(key)) else ParseField(lib, st, NameOf(key).value, value)
  }

  function ParseLines(lib: Library, st: Parsing, lines: seq<string>): Result<Parsing, Error> {
    if lines == [] then Ok(st)
    else
      match ParseLines(lib, st, lines[..|lines| - 1])
      case Err(e) => Err(e)
      case Ok(st') => ParseLine(lib, st', lines[|lines| - 1])
  }

  const START := Parsing(NOTHING, None)

  function ParseText(lib: Library, uapi: string): Result<Config, Error> {
    match ParseLines(lib, START, Split(Trim(uapi)))
    case Err(e) => Err(e)
    case Ok(st) => Ok(Flush(st))
  }

  lemma {:induction false} ErrorSticks(lib: Library, st: Parsing, lines: seq<string>, n: nat)
    requires n <= |lines| && ParseLines(lib, st, lines[..n]).Err?
    ensures ParseLines(lib, st, lines) == ParseLines(lib, st, lines[..n])
    decreases |lines|
  {
    if n < |lines| {
      var k := |lines| - 1;
      assert lines[..k][..n] == lines[..n];
      ErrorSticks(lib, st, lines[..k], n);
    } else {
      assert lines[..n] == lines;
    }
  }

  /** `parseUAPI`: the loop over the lines. */
  method ParseUAPI(lib: Library, uapi: string) returns (r: Result<Config, Error>)
    ensures r == ParseText(lib, uapi)
  {
    var lines := Split(Trim(uapi));
    var st := START;
    for i := 0 to |lines|
      invariant ParseLines(lib, START, lines[..i]) == Ok(st)
    {
      assert lines[..i + 1][..i] == lines[..i];
      var next := ParseLine(lib, st, lines[i]);
      if next.Err? {
        ErrorSticks(lib, START, lines, i + 1);
        return Err(next.error);
      }
      st := next.value;
    }
    assert lines[..|lines|] == lines;
    return Ok(Flush(st));
  }

  // ---------------------------------------------------------------------------
  // What was meant
  // ---------------------------------------------------------------------------

  /** The numbers of a call fit the 64-bit integers they are. */
  predicate InRange(c: Call) {
    match c
    case Configure(_, port) => -INT64_MAX - 1 <= port <= INT64_MAX
    case SetPeer(p) => p.keepalive <= INT64_MAX
    case _ => true
  }

  /** Every prefix of a call is one, and it does not move a peer to no endpoint. */
  predicate Sound(c: Call) {
    && (c.SetPeer? ==> AllProper(c.peer.allowedIPs))
    && (c.SetPeerEndpoint? ==> c.endpoint.Some?)
  }

  predicate AllProper(ps: seq<Prefix>) {
    forall i :: 0 <= i < |ps| ==> Proper(ps[i])
  }

  function MaskedAll(ps: seq<Prefix>): (r: seq<Prefix>)
    requires AllProper(ps)
    ensures |r| == |ps| && forall i :: 0 <= i < |ps| ==> r[i] == Masked(ps[i])
  {
    if ps == [] then [] else MaskedAll(ps[..|ps| - 1]) + [Masked(ps[|ps| - 1])]
  }

  /** The configuration a call asks for, on top of what was asked for before. */
  function Asks(before: Config, c: Call): Config
    requires Sound(c)
  {
    if c.Configure? then Config(Some(c.privateKey), Some(c.listenPort), before.peers)
    else Config(before.privateKey, before.listenPort, before.peers + [PeerOf(c)])
  }

  /** The interval asked for, in nanoseconds. */
  function Every(seconds: int): Option<int> {
    if seconds > 0 then Some(seconds * SECOND) else None
  }

  function Replaced(p: Peer): PeerConfig
    requires AllProper(p.allowedIPs)
  {
    PeerConfig(p.publicKey, Given(p.presharedKey), p.endpoint, MaskedAll(p.allowedIPs), Every(p.keepalive), true, false, false)
  }

  function PeerOf(c: Call): PeerConfig
    requires Sound(c) && !c.Configure?
  {
    if c.SetPeer? then Replaced(c.peer)
    else if c.SetPeerEndpoint? then PeerConfig(c.publicKey, None, c.endpoint, [], None, false, true, false)
    else PeerConfig(c.publicKey, None, None, [], None, false, false, true)
  }

  function Wanted(calls: seq<Call>): Config
    requires forall i :: 0 <= i < |calls| ==> Sound(calls[i])
  {
    if calls == [] then NOTHING else Asks(Wanted(calls[..|calls| - 1]), calls[|calls| - 1])
  }

  /** What is left of a peer's configuration when its interval is kept in 64 bits, and of
      a whole configuration. */
  function Narrow(p: PeerConfig): PeerConfig {
    PeerConfig(p.publicKey, p.presharedKey, p.endpoint, p.allowedIPs, NarrowInterval(p.keepalive),
               p.replaceAllowedIPs, p.updateOnly, p.remove)
  }

  function NarrowInterval(ns: Option<int>): Option<int> {
    if ns.Some? then Some(Int64(ns.value)) else None
  }

  function NarrowAll(ps: seq<PeerConfig>): (r: seq<PeerConfig>)
    ensures |r| == |ps|
  {
    if ps == [] then [] else NarrowAll(ps[..|ps| - 1]) + [Narrow(ps[|ps| - 1])]
  }

  function Narrowed(cfg: Config): Config {
    Config(cfg.privateKey, cfg.listenPort, NarrowAll(cfg.peers))
  }

  /** What reading one call adds. */
  function Reads(before: Config, c: Call): Config
    requires Sound(c)
  {
    if c.Configure? then Asks(before, c)
    else Config(before.privateKey, before.listenPort, before.peers + [Narrow(PeerOf(c))])
  }

  lemma NarrowedAsks(before: Config, c: Call)
    requires Sound(c)
    ensures Narrowed(Asks(before, c)) == Reads(Narrowed(before), c)
  {
    if !c.Configure? {
      assert Asks(before, c).peers[..|before.peers|] == before.peers;
    }
  }

  /** The longest interval in seconds that 64 bits of nanoseconds hold. */
  const LONGEST := 9_223_372_036

  /** An interval is kept if and only if it is not longer than that. */
  lemma KeepaliveExactly(n: int)
    requires 0 < n <= INT64_MAX
    ensures NarrowInterval(Every(n)) == Every(n) <==> n <= LONGEST
  {
  }

  /** One second more comes out negative. */
  lemma KeepaliveWraps()
    ensures NarrowInterval(Every(LONGEST + 1)) == Some(-9_223_372_036_709_551_616)
  {
  }

  predicate Fits(c: Call) {
    c.SetPeer? ==> c.peer.keepalive <= LONGEST
  }

  predicate AllFit(calls: seq<Call>) {
    forall i :: 0 <= i < |calls| ==> Fits(calls[i])
  }

  lemma PeerFits(c: Call)
    requires Sound(c) && InRange(c) && !c.Configure?
    ensures Narrow(PeerOf(c)) == PeerOf(c) <==> Fits(c)
  {
    if c.SetPeer? && c.peer.keepalive > 0 {
      KeepaliveExactly(c.peer.keepalive);
    }
  }

  lemma AskFits(before: Config, c: Call)
    requires Sound(c) && InRange(c)
    ensures NarrowAll(Asks(before, c).peers) == Asks(before, c).peers <==> NarrowAll(before.peers) == before.peers && Fits(c)
  {
    if !c.Configure? {
      PeerFits(c);
      var ps, p := before.peers, PeerOf(c);
      assert (ps + [p])[..|ps|] == ps;
      assert NarrowAll(ps + [p]) == NarrowAll(ps) + [Narrow(p)];
      if NarrowAll(ps + [p]) == ps + [p] {
        assert NarrowAll(ps) == (ps + [p])[..|ps|] && Narrow(p) == (ps + [p])[|ps|];
      }
    }
  }

  /** So what is left of a configuration is all of it if and only if every interval fits. */
  lemma {:induction false} WantedFits(calls: seq<Call>)
    requires AllSound(calls) && AllInRange(calls)
    ensures Narrowed(Wanted(calls)) == Wanted(calls) <==> AllFit(calls)
    decreases |calls|
  {
    if calls != [] {
      var before, c := calls[..|calls| - 1], calls[|calls| - 1];
      WantedFits(before);
      AskFits(Wanted(before), c);
      assert AllFit(calls) <==> AllFit(before) && Fits(c);
    }
  }

  function AllLines(lib: Library, calls: seq<Call>): seq<string> {
    if calls == [] then [] else AllLines(lib, calls[..|calls| - 1]) + CallLines(lib, calls[|calls| - 1])
  }

  // ----- one line -------------------------------------------------------------

  function KeyOf(n: Name): string {
    match n
    case PrivateKey => "private_key"
    case ListenPort => "listen_port"
    case PublicKey => "public_key"
    case PresharedKey => "preshared_key"
    case EndpointAt => "endpoint"
    case AllowedIP => "allowed_ip"
    case Keepalive => "persistent_keepalive_interval"
    case ReplaceAllowedIPs => "replace_allowed_ips"
    case UpdateOnly => "update_only"
    case Remove => "remove"
  }

  lemma NameRoundTrip(n: Name)
    ensures NameOf(KeyOf(n)) == Some(n)
  {
    assert "preshared_key"[2] == 'e' && "private_key"[2] == 'i';
  }

  predicate Wordy(s: string) {
    s != "" && forall i :: 0 <= i < |s| ==> s[i] == '_' || 'a' <= s[i] <= 'z'
  }

  lemma LongKeysPlain()
    ensures Wordy("persistent_keepalive_interval") && Wordy("replace_allowed_ips")
  {
  }

  lemma ShortKeysPlain()
    ensures Wordy("private_key") && Wordy("listen_port") && Wordy("public_key") && Wordy("preshared_key")
    ensures Wordy("endpoint") && Wordy("allowed_ip") && Wordy("update_only") && Wordy("remove")
  {
  }

  lemma KeyWordy(n: Name)
    ensures Wordy(KeyOf(n))
  {
    LongKeysPlain();
    ShortKeysPlain();
  }

  lemma WordyPlain(s: string)
    requires Wordy(s)
    ensures Plain(s) && NoneOf(s, '=')
  {
  }

  lemma KeyPlain(n: Name)
    ensures Plain(KeyOf(n)) && NoneOf(KeyOf(n), '=')
  {
    KeyWordy(n);
    WordyPlain(KeyOf(n));
  }

  lemma LineParses(lib: Library, st: Parsing, n: Name, value: string)
    ensures ParseLine(lib, st, Field(KeyOf(n), value)) == ParseField(lib, st, n, value)
  {
    NameRoundTrip(n);
    KeyPlain(n);
    CutField(KeyOf(n), value);
  }

  lemma FieldPlain(n: Name, value: string)
    requires Plain(value)
    ensures Plain(Field(KeyOf(n), value))
  {
    KeyPlain(n);
  }

  lemma KeyParses(k: Key)
    ensures KeyFromHex(HexEncode(k)) == Some(k) && Plain(HexEncode(k))
  {
    HexRoundTrip(k);
  }

  lemma Snoc(lib: Library, st: Parsing, lines: seq<string>, line: string)
    ensures ParseLines(lib, st, lines + [line]) ==
            match ParseLines(lib, st, lines) case Err(e) => Err(e) case Ok(st') => ParseLine(lib, st', line)
  {
    assert (lines + [line])[..|lines|] == lines;
  }

  lemma {:induction false} Append(lib: Library, st: Parsing, a: seq<string>, b: seq<string>)
    ensures ParseLines(lib, st, a + b) ==
            match ParseLines(lib, st, a) case Err(e) => Err(e) case Ok(st') => ParseLines(lib, st', b)
    decreases |b|
  {
    if b == [] {
      assert a + b == a;
    } else {
      var k := |b| - 1;
      Append(lib, st, a, b[..k]);
      assert a + b == (a + b[..k]) + [b[k]];
      Snoc(lib, st, a + b[..k], b[k]);
    }
  }

  lemma One(lib: Library, st: Parsing, line: string)
    ensures ParseLines(lib, st, [line]) == ParseLine(lib, st, line)
  {
    assert [] + [line] == [line];
    Snoc(lib, st, [], line);
  }

  // ----- one call -------------------------------------------------------------

  lemma ConfigureParses(lib: Library, st: Parsing, c: Call)
    requires c.Configure? && InRange(c)
    ensures ParseLines(lib, st, CallLines(lib, c)) == Ok(Parsing(Asks(st.cfg, c), st.peer))
  {
    var first, second := Field(KeyOf(PrivateKey), HexEncode(c.privateKey)), Field(KeyOf(ListenPort), Show(c.listenPort));
    assert CallLines(lib, c) == [first] + [second];
    One(lib, st, first);
    LineParses(lib, st, PrivateKey, HexEncode(c.privateKey));
    KeyParses(c.privateKey);
    var mid := Parsing(Config(Some(c.privateKey), st.cfg.listenPort, st.cfg.peers), st.peer);
    Snoc(lib, st, [first], second);
    LineParses(lib, mid, ListenPort, Show(c.listenPort));
    AtoiShow(c.listenPort);
  }

  /** A key line closes the peer before it and opens the next. */
  lemma PublicKeyParses(lib: Library, st: Parsing, key: Key)
    ensures ParseLine(lib, st, Field("public_key", HexEncode(key))) == Ok(Parsing(Flush(st), Some(NewPeer(key))))
  {
    LineParses(lib, st, PublicKey, HexEncode(key));
    KeyParses(key);
  }

  /** The reader is inside peer `q` after these lines. */
  predicate Inside(lib: Library, st: Parsing, lines: seq<string>, q: PeerConfig) {
    ParseLines(lib, st, lines) == Ok(Parsing(Flush(st), Some(q)))
  }

  lemma InsideGrows(lib: Library, st: Parsing, lines: seq<string>, q: PeerConfig, n: Name, value: string)
    requires Inside(lib, st, lines, q) && !n.PrivateKey? && !n.ListenPort? && !n.PublicKey?
    requires ParseInPeer(lib, q, n, value).Ok?
    ensures Inside(lib, st, lines + [Field(KeyOf(n), value)], ParseInPeer(lib, q, n, value).value)
  {
    Snoc(lib, st, lines, Field(KeyOf(n), value));
    LineParses(lib, Parsing(Flush(st), Some(q)), n, value);
  }

  /** After a key line the reader is inside that peer. */
  lemma KeyOpens(lib: Library, st: Parsing, key: Key)
    ensures Inside(lib, st, [Field("public_key", HexEncode(key))], NewPeer(key))
  {
    One(lib, st, Field("public_key", HexEncode(key)));
    PublicKeyParses(lib, st, key);
  }

  lemma RemoveParses(lib: Library, st: Parsing, c: Call)
    requires c.RemovePeer?
    ensures Inside(lib, st, CallLines(lib, c), PeerOf(c))
  {
    var first := Field("public_key", HexEncode(c.publicKey));
    KeyOpens(lib, st, c.publicKey);
    InsideGrows(lib, st, [first], NewPeer(c.publicKey), Remove, "true");
    assert [first] + [Field("remove", "true")] == CallLines(lib, c);
  }

  lemma MoveStarts(lib: Library, st: Parsing, key: Key)
    ensures Inside(lib, st, [Field("public_key", HexEncode(key)), Field("update_only", "true")],
                   PeerConfig(key, None, None, [], None, false, true, false))
  {
    var first := Field("public_key", HexEncode(key));
    KeyOpens(lib, st, key);
    InsideGrows(lib, st, [first], NewPeer(key), UpdateOnly, "true");
    assert [first] + [Field("update_only", "true")] == [first, Field("update_only", "true")];
  }

  /** A field that is refused inside a peer is refused. */
  lemma InsideRefuses(lib: Library, st: Parsing, lines: seq<string>, q: PeerConfig, n: Name, value: string)
    requires Inside(lib, st, lines, q) && !n.PrivateKey? && !n.ListenPort? && !n.PublicKey?
    requires ParseInPeer(lib, q, n, value).Err?
    ensures ParseLines(lib, st, lines + [Field(KeyOf(n), value)]) == Err(ParseInPeer(lib, q, n, value).error)
  {
    Snoc(lib, st, lines, Field(KeyOf(n), value));
    LineParses(lib, Parsing(Flush(st), Some(q)), n, value);
  }

  lemma MoveParses(lib: Library, st: Parsing, c: Call)
    requires c.SetPeerEndpoint? && Faithful(lib)
    ensures c.endpoint.Some? ==> Inside(lib, st, CallLines(lib, c), PeerOf(c))
    ensures c.endpoint.None? ==> ParseLines(lib, st, CallLines(lib, c)) == Err(BadEndpoint)
  {
    MoveStarts(lib, st, c.publicKey);
    var lines := [Field("public_key", HexEncode(c.publicKey)), Field("update_only", "true")];
    var q := PeerConfig(c.publicKey, None, None, [], None, false, true, false);
    var value := ShowEndpoint(lib, c.endpoint);
    assert lines + [Field("endpoint", value)] == CallLines(lib, c);
    if c.endpoint.Some? {
      InsideGrows(lib, st, lines, q, EndpointAt, value);
    } else {
      InsideRefuses(lib, st, lines, q, EndpointAt, value);
    }
  }

  lemma HeadStarts(lib: Library, st: Parsing, p: Peer)
    ensures Inside(lib, st, [Field("public_key", HexEncode(p.publicKey)), Field("replace_allowed_ips", "true")],
                   PeerConfig(p.publicKey, None, None, [], None, true, false, false))
  {
    var first := Field("public_key", HexEncode(p.publicKey));
    KeyOpens(lib, st, p.publicKey);
    InsideGrows(lib, st, [first], NewPeer(p.publicKey), ReplaceAllowedIPs, "true");
    assert [first] + [Field("replace_allowed_ips", "true")] == [first, Field("replace_allowed_ips", "true")];
  }

  lemma PresharedParses(lib: Library, st: Parsing, lines: seq<string>, q: PeerConfig, k: Key)
    requires Inside(lib, st, lines, q) && q.presharedKey == None
    ensures Inside(lib, st, lines + (if Given(k).Some? then [Field("preshared_key", HexEncode(k))] else []), q.(presharedKey := Given(k)))
  {
    if Given(k).Some? {
      KeyParses(k);
      InsideGrows(lib, st, lines, q, PresharedKey, HexEncode(k));
    } else {
      assert lines + [] == lines;
    }
  }

  lemma EndpointParses(lib: Library, st: Parsing, lines: seq<string>, q: PeerConfig, at: Option<Endpoint>)
    requires Faithful(lib) && Inside(lib, st, lines, q) && q.endpoint == None
    ensures Inside(lib, st, lines + (if at.Some? then [Field("endpoint", lib.showEndpoint(at.value))] else []), q.(endpoint := at))
  {
    if at.Some? {
      InsideGrows(lib, st, lines, q, EndpointAt, lib.showEndpoint(at.value));
    } else {
      assert lines + [] == lines;
    }
  }

  lemma HeadParses(lib: Library, st: Parsing, p: Peer)
    requires Faithful(lib)
    ensures Inside(lib, st, PeerHead(lib, p), PeerConfig(p.publicKey, Given(p.presharedKey), p.endpoint, [], None, true, false, false))
  {
    HeadStarts(lib, st, p);
    var start := [Field("public_key", HexEncode(p.publicKey)), Field("replace_allowed_ips", "true")];
    var q := PeerConfig(p.publicKey, None, None, [], None, true, false, false);
    PresharedParses(lib, st, start, q, p.presharedKey);
    var lines := start + (if Given(p.presharedKey).Some? then [Field("preshared_key", HexEncode(p.presharedKey))] else []);
    EndpointParses(lib, st, lines, q.(presharedKey := Given(p.presharedKey)), p.endpoint);
  }

  function WithAllowed(st: Parsing, ps: seq<Prefix>): Parsing
    requires st.peer.Some? && AllProper(ps)
  {
    Parsing(st.cfg, Some(st.peer.value.(allowedIPs := st.peer.value.allowedIPs + MaskedAll(ps))))
  }

  lemma MaskedSnoc(ps: seq<Prefix>, p: Prefix)
    requires AllProper(ps) && Proper(p)
    ensures AllProper(ps + [p]) && MaskedAll(ps + [p]) == MaskedAll(ps) + [Masked(p)]
  {
    assert (ps + [p])[..|ps|] == ps;
  }

  lemma PrefixParses(lib: Library, st: Parsing, ps: seq<Prefix>, p: Prefix)
    requires Faithful(lib) && st.peer.Some? && AllProper(ps)
    ensures var r := ParseLine(lib, WithAllowed(st, ps), Field("allowed_ip", lib.showPrefix(p)));
            if Proper(p) then AllProper(ps + [p]) && r == Ok(WithAllowed(st, ps + [p])) else r == Err(BadPrefix)
  {
    LineParses(lib, WithAllowed(st, ps), AllowedIP, lib.showPrefix(p));
    if Proper(p) {
      MaskedSnoc(ps, p);
      assert st.peer.value.allowedIPs + MaskedAll(ps) + [Masked(p)] == st.peer.value.allowedIPs + MaskedAll(ps + [p]);
    }
  }

  /** What reading these prefixes comes to. */
  function AfterAllowed(st: Parsing, ps: seq<Prefix>): Result<Parsing, Error>
    requires st.peer.Some?
  {
    if AllProper(ps) then Ok(WithAllowed(st, ps)) else Err(BadPrefix)
  }

  predicate AllowedRead(lib: Library, st: Parsing, ps: seq<Prefix>)
    requires st.peer.Some?
  {
    ParseLines(lib, st, AllowedLines(lib, ps)) == AfterAllowed(st, ps)
  }

  lemma AfterAllowedGrows(lib: Library, st: Parsing, ps: seq<Prefix>, p: Prefix)
    requires Faithful(lib) && st.peer.Some?
    ensures AfterAllowed(st, ps + [p]) ==
            match AfterAllowed(st, ps) case Err(e) => Err(e) case Ok(st') => ParseLine(lib, st', Field("allowed_ip", lib.showPrefix(p)))
  {
    assert (ps + [p])[|ps|] == p;
    if AllProper(ps) {
      PrefixParses(lib, st, ps, p);
    } else {
      var i :| 0 <= i < |ps| && !Proper(ps[i]);
      assert (ps + [p])[i] == ps[i];
    }
  }

  lemma AllowedGrows(lib: Library, st: Parsing, ps: seq<Prefix>, p: Prefix)
    requires Faithful(lib) && st.peer.Some? && AllowedRead(lib, st, ps)
    ensures AllowedRead(lib, st, ps + [p])
  {
    var line := Field("allowed_ip", lib.showPrefix(p));
    Snoc(lib, st, AllowedLines(lib, ps), line);
    assert (ps + [p])[..|ps|] == ps;
    assert AllowedLines(lib, ps + [p]) == AllowedLines(lib, ps) + [line];
    AfterAllowedGrows(lib, st, ps, p);
  }

  lemma AllowedNone(lib: Library, st: Parsing)
    requires st.peer.Some?
    ensures AllowedRead(lib, st, [])
  {
    assert st.peer.value.allowedIPs + [] == st.peer.value.allowedIPs;
  }

  lemma {:induction false} AllowedParses(lib: Library, st: Parsing, ps: seq<Prefix>)
    requires Faithful(lib) && st.peer.Some?
    ensures AllowedRead(lib, st, ps)
    decreases |ps|
  {
    if ps == [] {
      AllowedNone(lib, st);
    } else {
      var before, p := ps[..|ps| - 1], ps[|ps| - 1];
      AllowedParses(lib, st, before);
      assert ps == before + [p];
      AllowedGrows(lib, st, before, p);
    }
  }

  lemma TailParses(lib: Library, st: Parsing, p: Peer)
    requires st.peer.Some? && p.keepalive <= INT64_MAX && st.peer.value.keepalive == None
    ensures ParseLines(lib, st, PeerTail(p)) == Ok(Parsing(st.cfg, Some(st.peer.value.(keepalive := NarrowInterval(Every(p.keepalive))))))
  {
    if p.keepalive > 0 {
      One(lib, st, Field(KeyOf(Keepalive), Show(p.keepalive)));
      LineParses(lib, st, Keepalive, Show(p.keepalive));
      AtoiShow(p.keepalive);
    }
  }

  lemma SetPeerParses(lib: Library, st: Parsing, p: Peer)
    requires Faithful(lib) && p.keepalive <= INT64_MAX
    ensures AllProper(p.allowedIPs) ==> ParseLines(lib, st, CallLines(lib, SetPeer(p))) == Ok(Parsing(Flush(st), Some(Narrow(Replaced(p)))))
    ensures !AllProper(p.allowedIPs) ==> ParseLines(lib, st, CallLines(lib, SetPeer(p))) == Err(BadPrefix)
  {
    var head, allowed := PeerHead(lib, p), AllowedLines(lib, p.allowedIPs);
    var q := PeerConfig(p.publicKey, Given(p.presharedKey), p.endpoint, [], None, true, false, false);
    HeadParses(lib, st, p);
    Append(lib, st, head, allowed);
    AllowedParses(lib, Parsing(Flush(st), Some(q)), p.allowedIPs);
    Append(lib, st, head + allowed, PeerTail(p));
    if AllProper(p.allowedIPs) {
      assert [] + MaskedAll(p.allowedIPs) == MaskedAll(p.allowedIPs);
      assert WithAllowed(Parsing(Flush(st), Some(q)), p.allowedIPs) == Parsing(Flush(st), Some(q.(allowedIPs := MaskedAll(p.allowedIPs))));
      TailParses(lib, Parsing(Flush(st), Some(q.(allowedIPs := MaskedAll(p.allowedIPs)))), p);
    }
  }

  /** After the lines of one call, what would be flushed is what the call asks for,
      whatever was being read before; and a call with an improper prefix, or one that
      moves a peer to no endpoint, is refused. */
  lemma CallParses(lib: Library, st: Parsing, c: Call)
    requires Faithful(lib) && InRange(c)
    ensures ParseLines(lib, st, CallLines(lib, c)).Ok? <==> Sound(c)
    ensures Sound(c) ==> Flush(ParseLines(lib, st, CallLines(lib, c)).value) == Reads(Flush(st), c)
  {
    match c
    case Configure(_, _) => ConfigureParses(lib, st, c);
    case SetPeer(p) => SetPeerParses(lib, st, p);
    case SetPeerEndpoint(_, _) => MoveParses(lib, st, c);
    case RemovePeer(_) => RemoveParses(lib, st, c);
  }

  // ----- any number of calls --------------------------------------------------

  predicate AllSound(calls: seq<Call>) {
    forall i :: 0 <= i < |calls| ==> Sound(calls[i])
  }

  predicate AllInRange(calls: seq<Call>) {
    forall i :: 0 <= i < |calls| ==> InRange(calls[i])
  }

  /** These lines read as these calls. */
  predicate ReadsAs(lib: Library, lines: seq<string>, calls: seq<Call>) {
    var r := ParseLines(lib, START, lines);
    (r.Ok? <==> AllSound(calls)) && (AllSound(calls) ==> Flush(r.value) == Narrowed(Wanted(calls)))
  }

  lemma ReadsOneMore(lib: Library, lines: seq<string>, calls: seq<Call>, c: Call)
    requires Faithful(lib) && InRange(c) && ReadsAs(lib, lines, calls)
    ensures ReadsAs(lib, lines + CallLines(lib, c), calls + [c])
  {
    Append(lib, START, lines, CallLines(lib, c));
    assert (calls + [c])[..|calls|] == calls && (calls + [c])[|calls|] == c;
    assert AllSound(calls + [c]) <==> AllSound(calls) && Sound(c);
    if AllSound(calls) {
      CallParses(lib, ParseLines(lib, START, lines).value, c);
      if Sound(c) {
        NarrowedAsks(Wanted(calls), c);
      }
    }
  }

  lemma {:induction false} CallsParse(lib: Library, calls: seq<Call>)
    requires Faithful(lib) && AllInRange(calls)
    ensures ReadsAs(lib, AllLines(lib, calls), calls)
    decreases |calls|
  {
    if calls != [] {
      var k := |calls| - 1;
      CallsParse(lib, calls[..k]);
      ReadsOneMore(lib, AllLines(lib, calls[..k]), calls[..k], calls[k]);
      assert calls[..k] + [calls[k]] == calls;
    }
  }

  predicate AllPlain(lines: seq<string>) {
    forall i :: 0 <= i < |lines| ==> Plain(lines[i])
  }

  lemma {:induction false} AllowedPlain(lib: Library, ps: seq<Prefix>)
    requires Faithful(lib)
    ensures AllPlain(AllowedLines(lib, ps))
    decreases |ps|
  {
    if ps != [] {
      AllowedPlain(lib, ps[..|ps| - 1]);
      FieldPlain(AllowedIP, lib.showPrefix(ps[|ps| - 1]));
    }
  }

  lemma PlainAppend(a: seq<string>, b: seq<string>)
    requires AllPlain(a) && AllPlain(b)
    ensures AllPlain(a + b)
  {
  }

  lemma TruePlain()
    ensures Plain("true")
  {
  }

  lemma HeadPlain(lib: Library, p: Peer)
    requires Faithful(lib)
    ensures AllPlain(PeerHead(lib, p))
  {
    TruePlain();
    KeyParses(p.publicKey);
    FieldPlain(PublicKey, HexEncode(p.publicKey));
    FieldPlain(ReplaceAllowedIPs, "true");
    KeyParses(p.presharedKey);
    FieldPlain(PresharedKey, HexEncode(p.presharedKey));
    if p.endpoint.Some? {
      FieldPlain(EndpointAt, lib.showEndpoint(p.endpoint.value));
    }
  }

  lemma ConfigurePlain(lib: Library, c: Call)
    requires c.Configure?
    ensures AllPlain(CallLines(lib, c))
  {
    KeyParses(c.privateKey);
    FieldPlain(PrivateKey, HexEncode(c.privateKey));
    ShowSolid(c.listenPort);
    FieldPlain(ListenPort, Show(c.listenPort));
  }

  lemma NotAnEndpointPlain()
    ensures Plain(NOT_AN_ENDPOINT)
  {
  }

  lemma MovePlain(lib: Library, c: Call)
    requires Faithful(lib) && c.SetPeerEndpoint?
    ensures AllPlain(CallLines(lib, c))
  {
    TruePlain();
    NotAnEndpointPlain();
    KeyParses(c.publicKey);
    FieldPlain(PublicKey, HexEncode(c.publicKey));
    FieldPlain(UpdateOnly, "true");
    FieldPlain(EndpointAt, ShowEndpoint(lib, c.endpoint));
  }

  lemma RemovePlain(lib: Library, c: Call)
    requires c.RemovePeer?
    ensures AllPlain(CallLines(lib, c))
  {
    TruePlain();
    KeyParses(c.publicKey);
    FieldPlain(PublicKey, HexEncode(c.publicKey));
    FieldPlain(Remove, "true");
  }

  lemma TailPlain(p: Peer)
    ensures AllPlain(PeerTail(p))
  {
    ShowSolid(p.keepalive);
    FieldPlain(Keepalive, Show(p.keepalive));
  }

  lemma CallPlain(lib: Library, c: Call)
    requires Faithful(lib)
    ensures CallLines(lib, c) != [] && AllPlain(CallLines(lib, c))
  {
    match c
    case SetPeer(p) =>
      HeadPlain(lib, p);
      AllowedPlain(lib, p.allowedIPs);
      TailPlain(p);
      PlainAppend(PeerHead(lib, p), AllowedLines(lib, p.allowedIPs));
      PlainAppend(PeerHead(lib, p) + AllowedLines(lib, p.allowedIPs), PeerTail(p));
    case Configure(_, _) => ConfigurePlain(lib, c);
    case SetPeerEndpoint(_, _) => MovePlain(lib, c);
    case RemovePeer(_) => RemovePlain(lib, c);
  }

  lemma {:induction false} LinesPlain(lib: Library, calls: seq<Call>)
    requires Faithful(lib)
    ensures AllPlain(AllLines(lib, calls)) && (calls != [] ==> AllLines(lib, calls) != [])
    decreases |calls|
  {
    if calls != [] {
      LinesPlain(lib, calls[..|calls| - 1]);
      CallPlain(lib, calls[|calls| - 1]);
    }
  }

  /** The text of any calls, one after another: each is one call's own text, as the
      device hands it to the control socket. */
  function TextOf(lib: Library, calls: seq<Call>): string {
    Unlines(AllLines(lib, calls))
  }

  /** So the text of one more call is its own text after what was there. */
  lemma TextGrows(lib: Library, calls: seq<Call>, c: Call)
    ensures TextOf(lib, calls + [c]) == TextOf(lib, calls) + Unlines(CallLines(lib, c))
  {
    assert (calls + [c])[..|calls|] == calls;
    UnlinesAppend(AllLines(lib, calls), CallLines(lib, c));
  }

  /** What the device writes for any calls is refused if and only if one of them is
      unsound.  If none is, it is read back as what they ask for with every interval kept
      in 64 bits, and so as exactly what they ask for if and only if every interval fits. */
  lemma RoundTrip(lib: Library, calls: seq<Call>)
    requires Faithful(lib) && AllInRange(calls)
    ensures ParseText(lib, TextOf(lib, calls)).Ok? <==> AllSound(calls)
    ensures AllSound(calls) ==> ParseText(lib, TextOf(lib, calls)) == Ok(Narrowed(Wanted(calls)))
    ensures AllSound(calls) ==> (ParseText(lib, TextOf(lib, calls)) == Ok(Wanted(calls)) <==> AllFit(calls))
  {
    TextParses(lib, calls);
    if AllSound(calls) {
      WantedFits(calls);
    }
  }

  lemma TextParses(lib: Library, calls: seq<Call>)
    requires Faithful(lib) && AllInRange(calls)
    ensures ParseText(lib, TextOf(lib, calls)).Ok? <==> AllSound(calls)
    ensures AllSound(calls) ==> ParseText(lib, TextOf(lib, calls)) == Ok(Narrowed(Wanted(calls)))
  {
    CallsParse(lib, calls);
    if calls == [] {
      assert TextOf(lib, calls) == "" && Trim("") == "" && Split("") == [""];
      One(lib, START, "");
    } else {
      LinesPlain(lib, calls);
      SplitTrimmed(AllLines(lib, calls));
    }
  }

  /** A text that is accepted has nothing in it that the reader passed over: every
      line is blank or a field it knows. */
  lemma {:induction false} NothingIgnored(lib: Library, st: Parsing, lines: seq<string>, i: nat)
    requires i < |lines| && ParseLines(lib, st, lines).Ok?
    ensures lines[i] == "" || (Cut(lines[i]).Some? && NameOf(Cut(lines[i]).value.0).Some?)
    decreases |lines|
  {
    var k := |lines| - 1;
    if i < k {
      NothingIgnored(lib, st, lines[..k], i);
    }
  }

  // ---------------------------------------------------------------------------
  // What is accepted
  // ---------------------------------------------------------------------------

  /** Sixty-four hexadecimal digits. */
  predicate IsKey(s: string) {
    |s| == 64 && forall i :: 0 <= i < |s| ==> IsHexDigit(s[i])
  }

  lemma KeyExactly(s: string)
    ensures KeyFromHex(s).Some? <==> IsKey(s)
  {
    HexDecodesExactly(s);
  }

  /** A field of a peer, by its name, with a value that reads. */
  predicate PeerField(lib: Library, key: string, value: string) {
    || (key == "preshared_key" && IsKey(value))
    || (key == "endpoint" && lib.readEndpoint(value).Some?)
    || (key == "allowed_ip" && lib.readPrefix(value).Some?)
    || (key == "persistent_keepalive_interval" && Atoi(value).Some?)
    || key == "replace_allowed_ips" || key == "update_only" || key == "remove"
  }

  /** A line that can stand where it does: blank, a field of the device, a key that opens a
      peer, or, once one is open, a field of a peer. */
  predicate Acceptable(lib: Library, line: string, inside: bool) {
    line == "" || (Cut(line).Some? && AcceptableField(lib, Cut(line).value.0, Cut(line).value.1, inside))
  }

  predicate AcceptableField(lib: Library, key: string, value: string, inside: bool) {
    || (key == "private_key" && IsKey(value))
    || (key == "listen_port" && Atoi(value).Some?)
    || (key == "public_key" && IsKey(value))
    || (inside && PeerField(lib, key, value))
  }

  predicate OpensPeer(line: string) {
    Cut(line).Some? && Cut(line).value.0 == "public_key"
  }

  predicate Opened(lines: seq<string>, n: nat)
    requires n <= |lines|
  {
    exists j :: 0 <= j < n && OpensPeer(lines[j])
  }

  lemma InPeerExactly(lib: Library, p: PeerConfig, key: string, value: string)
    requires NameOf(key).Some? && !NameOf(key).value.PrivateKey? && !NameOf(key).value.ListenPort? && !NameOf(key).value.PublicKey?
    ensures ParseInPeer(lib, p, NameOf(key).value, value).Ok? <==> PeerField(lib, key, value)
  {
    KeyExactly(value);
  }

  lemma OutsideNames(key: string)
    ensures NameOf(key) == Some(PrivateKey) <==> key == "private_key"
    ensures NameOf(key) == Some(ListenPort) <==> key == "listen_port"
    ensures NameOf(key) == Some(PublicKey) <==> key == "public_key"
  {
    assert "private_key"[1] == 'r' && "public_key"[1] == 'u' && "listen_port"[0] == 'l';
  }

  lemma UnknownName(lib: Library, key: string, value: string, inside: bool)
    requires NameOf(key).None?
    ensures !AcceptableField(lib, key, value, inside)
  {
  }

  lemma NamedOtherwise(lib: Library, key: string, value: string)
    requires key == "private_key" || key == "listen_port" || key == "public_key"
    ensures !PeerField(lib, key, value)
  {
    assert "private_key"[1] == 'r' && "public_key"[1] == 'u' && "listen_port"[0] == 'l';
  }

  lemma FieldExactly(lib: Library, st: Parsing, key: string, value: string)
    requires NameOf(key).Some?
    ensures var r := ParseField(lib, st, NameOf(key).value, value);
            && (r.Ok? <==> AcceptableField(lib, key, value, st.peer.Some?))
            && (r.Ok? ==> (r.value.peer.Some? <==> st.peer.Some? || key == "public_key"))
  {
    OutsideNames(key);
    KeyExactly(value);
    if key == "private_key" || key == "listen_port" || key == "public_key" {
      NamedOtherwise(lib, key, value);
    } else if st.peer.Some? {
      InPeerExactly(lib, st.peer.value, key, value);
    }
  }

  lemma LineExactly(lib: Library, st: Parsing, line: string)
    ensures var r := ParseLine(lib, st, line);
            && (r.Ok? <==> Acceptable(lib, line, st.peer.Some?))
            && (r.Ok? ==> (r.value.peer.Some? <==> st.peer.Some? || OpensPeer(line)))
  {
    if line != "" && Cut(line).Some? {
      var (key, value) := Cut(line).value;
      if NameOf(key).Some? {
        FieldExactly(lib, st, key, value);
      } else {
        UnknownName(lib, key, value, st.peer.Some?);
      }
    }
  }

  ghost predicate AllAcceptable(lib: Library, lines: seq<string>) {
    forall i :: 0 <= i < |lines| ==> Acceptable(lib, lines[i], Opened(lines, i))
  }

  lemma OpenedPrefix(lines: seq<string>, k: nat, i: nat)
    requires i <= k <= |lines|
    ensures Opened(lines[..k], i) <==> Opened(lines, i)
  {
    assert forall j :: 0 <= j < i ==> lines[..k][j] == lines[j];
  }

  lemma AllAcceptableSnoc(lib: Library, lines: seq<string>)
    requires lines != []
    ensures var k := |lines| - 1; AllAcceptable(lib, lines) <==> AllAcceptable(lib, lines[..k]) && Acceptable(lib, lines[k], Opened(lines, k))
  {
    var k := |lines| - 1;
    forall i | 0 <= i < k ensures Opened(lines[..k], i) <==> Opened(lines, i) {
      OpenedPrefix(lines, k, i);
    }
  }

  /** A text is accepted if and only if every line of it is acceptable where it stands, so
      nothing is passed over and nothing belongs to no peer. */
  lemma {:induction false} AcceptedExactly(lib: Library, lines: seq<string>)
    ensures ParseLines(lib, START, lines).Ok? <==> AllAcceptable(lib, lines)
    ensures ParseLines(lib, START, lines).Ok? ==> (ParseLines(lib, START, lines).value.peer.Some? <==> Opened(lines, |lines|))
    decreases |lines|
  {
    if lines != [] {
      var k := |lines| - 1;
      AcceptedExactly(lib, lines[..k]);
      AllAcceptableSnoc(lib, lines);
      OpenedPrefix(lines, k, k);
      if ParseLines(lib, START, lines[..k]).Ok? {
        LineExactly(lib, ParseLines(lib, START, lines[..k]).value, lines[k]);
      }
    }
  }

  /** A flag is set by "true" and by nothing else. */
  lemma FlagsMean(lib: Library, p: PeerConfig, value: string)
    ensures ParseInPeer(lib, p, ReplaceAllowedIPs, value) == Ok(p.(replaceAllowedIPs := value == "true"))
    ensures ParseInPeer(lib, p, UpdateOnly, value) == Ok(p.(updateOnly := value == "true"))
    ensures ParseInPeer(lib, p, Remove, value) == Ok(p.(remove := value == "true"))
  {
  }

  /** A preshared key is printed and asked for exactly when it is not thirty-two zeros. */
  lemma PresharedExactly(k: Key)
    ensures Given(k) == None <==> forall i :: 0 <= i < 32 ==> k[i] == 0
    ensures Given(k).Some? ==> Given(k).value == k
  {
  }
}
