/**
 The device configuration text: what `device.go` writes and what the kernel
 backend reads back out of it.

 Addresses and prefixes are printed and read by Go's own library; their text forms
 are parameters here, a pair of functions each, and `Faithful` is what that library
 promises of them.
 */
module Uapi {
  import opened Wrappers
  import opened Packets
  import opened Text

  datatype Endpoint = Endpoint(addr: Addr, port: nat)

  datatype Prefix = Prefix(addr: Addr, bits: nat)

  function Power2(n: nat): (r: nat)
    ensures r > 0
  {
    if n == 0 then 1 else 2 * Power2(n - 1)
  }

  function Width(a: Addr): nat {
    if a.V4? then 32 else 128
  }

  /** A prefix that names a network; Go's zero prefix and one too long do not. */
  predicate Proper(p: Prefix) {
    p.bits <= Width(p.addr) && p.addr.value < (if p.addr.V4? then 0x1_0000_0000 else 0x1_0000_0000_0000_0000_0000_0000_0000_0000)
  }

  /** A number with its lowest n bits cleared. */
  function ClearLow(v: nat, n: nat): nat {
    if n == 0 then v else 2 * ClearLow(v / 2, n - 1)
  }

  /** The network a prefix names: its host bits cleared. */
  function Masked(p: Prefix): Prefix
    requires Proper(p)
  {
    var base := ClearLow(p.addr.value, Width(p.addr) - p.bits);
    Prefix(if p.addr.V4? then V4(base) else V6(base), p.bits)
  }

  /** Clearing low bits leaves the lowest number of the block, and again changes nothing. */
  lemma {:induction false} ClearLowIsLowest(v: nat, n: nat)
    ensures ClearLow(v, n) <= v < ClearLow(v, n) + Power2(n)
    ensures forall w: nat :: ClearLow(v, n) <= w < ClearLow(v, n) + Power2(n) ==> ClearLow(w, n) == ClearLow(v, n)
  {
    if n > 0 {
      ClearLowIsLowest(v / 2, n - 1);
    }
  }

  /** So a prefix is read back as the lowest address of the block it covers, the same
      for every address in that block. */
  lemma MaskedIsTheNetwork(p: Prefix)
    requires Proper(p)
    ensures Proper(Masked(p)) && Masked(p).bits == p.bits && (Masked(p).addr.V4? <==> p.addr.V4?)
    ensures var base := Masked(p).addr.value; base <= p.addr.value < base + Power2(Width(p.addr) - p.bits)
    ensures Masked(Masked(p)) == Masked(p)
  {
    ClearLowIsLowest(p.addr.value, Width(p.addr) - p.bits);
  }

  /** How addresses are printed and read. */
  datatype Library = Library(
    showEndpoint: Endpoint -> string,
    readEndpoint: string -> Option<Endpoint>,
    showPrefix: Prefix -> string,
    readPrefix: string -> Option<Prefix>)

  predicate Plain(s: string) {
    Solid(s) && NoneOf(s, '\n')
  }

  const NOT_AN_ENDPOINT := "invalid AddrPort"

  /** An endpoint is read back as itself and a proper prefix as its network; what is
      neither prints as something that is refused; and each prints as one solid word. */
  ghost predicate Faithful(lib: Library) {
    && (forall e :: Plain(lib.showEndpoint(e)) && lib.readEndpoint(lib.showEndpoint(e)) == Some(e))
    && lib.readEndpoint(NOT_AN_ENDPOINT) == None
    && (forall p :: Plain(lib.showPrefix(p)) && (Proper(p) ==> lib.readPrefix(lib.showPrefix(p)) == Some(Masked(p))))
    && (forall p :: !Proper(p) ==> lib.readPrefix(lib.showPrefix(p)) == None)
  }

  type Key = k: seq<byte> | |k| == 32 witness seq(32, _ => 0 as byte)

  /** The zero key stands for none. */
  predicate IsZero(k: Key) {
    forall i :: 0 <= i < |k| ==> k[i] == 0
  }

  function Given(k: Key): Option<Key> {
    if IsZero(k) then None else Some(k)
  }

  // ---------------------------------------------------------------------------
  // Writing
  // ---------------------------------------------------------------------------

  datatype Peer = Peer(publicKey: Key, presharedKey: Key, endpoint: Option<Endpoint>, allowedIPs: seq<Prefix>, keepalive: int)

  /** One call of the device. */
  datatype Call =
    | Configure(privateKey: Key, listenPort: int)
    | SetPeer(peer: Peer)
    | SetPeerEndpoint(publicKey: Key, endpoint: Option<Endpoint>)
    | RemovePeer(publicKey: Key)

  function Field(key: string, value: string): string {
    key + "=" + value
  }

  /** What an endpoint that is not one prints as. */
  function ShowEndpoint(lib: Library, e: Option<Endpoint>): string {
    match e
    case None => NOT_AN_ENDPOINT
    case Some(at) => lib.showEndpoint(at)
  }

  function AllowedLines(lib: Library, ps: seq<Prefix>): seq<string> {
    if ps == [] then [] else AllowedLines(lib, ps[..|ps| - 1]) + [Field("allowed_ip", lib.showPrefix(ps[|ps| - 1]))]
  }

  function PeerHead(lib: Library, p: Peer): seq<string> {
    [Field("public_key", HexEncode(p.publicKey)), Field("replace_allowed_ips", "true")]
    + (if Given(p.presharedKey).Some? then [Field("preshared_key", HexEncode(p.presharedKey))] else [])
    + (if p.endpoint.Some? then [Field("endpoint", lib.showEndpoint(p.endpoint.value))] else [])
  }

  function PeerTail(p: Peer): seq<string> {
    if p.keepalive > 0 then [Field("persistent_keepalive_interval", Show(p.keepalive))] else []
  }

  function CallLines(lib: Library, c: Call): seq<string> {
    match c
    case Configure(key, port) => [Field("private_key", HexEncode(key)), Field("listen_port", Show(port))]
    case SetPeer(p) => PeerHead(lib, p) + AllowedLines(lib, p.allowedIPs) + PeerTail(p)
    case SetPeerEndpoint(key, at) =>
      [Field("public_key", HexEncode(key)), Field("update_only", "true"), Field("endpoint", ShowEndpoint(lib, at))]
    case RemovePeer(key) => [Field("public_key", HexEncode(key)), Field("remove", "true")]
  }

  /** The device: the endpoints it believes are configured, and the text of every
      call that reached the control socket. */
  class Device {
    var peers: map<Key, Option<Endpoint>>
    var applied: seq<string>

    constructor ()
      ensures peers == map[] && applied == []
    {
      peers, applied := map[], [];
    }

    method Configure(lib: Library, key: Key, port: int, works: bool) returns (ok: bool)
      modifies this`applied
      ensures ok == works
      ensures applied == old(applied) + [Unlines(CallLines(lib, Call.Configure(key, port)))]
    {
      var b := WriteLine("", [], Field("private_key", HexEncode(key)));
      b := WriteLine(b, CallLines(lib, Call.Configure(key, port))[..1], Field("listen_port", Show(port)));
      applied := applied + [b];
      return works;
    }

    /** `works` is whether the control socket takes the text. */
    method SetPeer(lib: Library, p: Peer, works: bool) returns (ok: bool)
      modifies this
      ensures ok == (p.allowedIPs != [] && works)
      ensures applied == if p.allowedIPs == [] then old(applied) else old(applied) + [Unlines(CallLines(lib, Call.SetPeer(p)))]
      ensures peers == if ok then old(peers)[p.publicKey := p.endpoint] else old(peers)
    {
      if |p.allowedIPs| == 0 {
        return false;
      }
      var b := WritePeer(lib, p);
      applied := applied + [b];
      if works {
        peers := peers[p.publicKey := p.endpoint];
      }
      return works;
    }

    method SetPeerEndpoint(lib: Library, key: Key, at: Option<Endpoint>, works: bool) returns (ok: bool)
      modifies this
      ensures ok == works
      ensures applied == old(applied) + [Unlines(CallLines(lib, Call.SetPeerEndpoint(key, at)))]
      ensures peers == if ok then old(peers)[key := at] else old(peers)
    {
      var b := WriteLine("", [], Field("public_key", HexEncode(key)));
      b := WriteLine(b, CallLines(lib, Call.SetPeerEndpoint(key, at))[..1], Field("update_only", "true"));
      b := WriteLine(b, CallLines(lib, Call.SetPeerEndpoint(key, at))[..2], Field("endpoint", ShowEndpoint(lib, at)));
      applied := applied + [b];
      if works {
        peers := peers[key := at];
      }
      return works;
    }

    method RemovePeer(lib: Library, key: Key, works: bool) returns (ok: bool)
      modifies this
      ensures ok == works
      ensures applied == old(applied) + [Unlines(CallLines(lib, Call.RemovePeer(key)))]
      ensures peers == if ok then old(peers) - {key} else old(peers)
    {
      var b := WriteLine("", [], Field("public_key", HexEncode(key)));
      b := WriteLine(b, CallLines(lib, Call.RemovePeer(key))[..1], Field("remove", "true"));
      applied := applied + [b];
      if works {
        peers := peers - {key};
      }
      return works;
    }
  }

  /** One line more in the builder. */
  method WriteLine(b: string, ghost lines: seq<string>, line: string) returns (b': string)
    requires b == Unlines(lines)
    ensures b' == Unlines(lines + [line])
  {
    UnlinesSnoc(lines, line);
    b' := b + line + "\n";
  }

  method WriteHead(lib: Library, p: Peer) returns (b: string)
    ensures b == Unlines(PeerHead(lib, p))
  {
    ghost var lines: seq<string> := [];
    b := WriteLine("", lines, Field("public_key", HexEncode(p.publicKey)));
    lines := lines + [Field("public_key", HexEncode(p.publicKey))];
    b := WriteLine(b, lines, Field("replace_allowed_ips", "true"));
    lines := lines + [Field("replace_allowed_ips", "true")];
    if Given(p.presharedKey).Some? {
      b := WriteLine(b, lines, Field("preshared_key", HexEncode(p.presharedKey)));
      lines := lines + [Field("preshared_key", HexEncode(p.presharedKey))];
    }
    if p.endpoint.Some? {
      b := WriteLine(b, lines, Field("endpoint", lib.showEndpoint(p.endpoint.value)));
      lines := lines + [Field("endpoint", lib.showEndpoint(p.endpoint.value))];
    }
    assert lines == PeerHead(lib, p);
  }

  method WritePeer(lib: Library, p: Peer) returns (b: string)
    ensures b == Unlines(CallLines(lib, SetPeer(p)))
  {
    b := WriteHead(lib, p);
    b := WriteAllowed(lib, p.allowedIPs, b);
    UnlinesAppend(PeerHead(lib, p), AllowedLines(lib, p.allowedIPs));
    ghost var lines := PeerHead(lib, p) + AllowedLines(lib, p.allowedIPs);
    if p.keepalive > 0 {
      b := WriteLine(b, lines, Field("persistent_keepalive_interval", Show(p.keepalive)));
    } else {
      assert lines + [] == lines;
    }
  }

  method WriteAllowed(lib: Library, ps: seq<Prefix>, before: string) returns (b: string)
    ensures b == before + Unlines(AllowedLines(lib, ps))
  {
    b := before;
    for i := 0 to |ps|
      invariant b == before + Unlines(AllowedLines(lib, ps[..i]))
    {
      var line := Field("allowed_ip", lib.showPrefix(ps[i]));
      assert ps[..i + 1][..i] == ps[..i];
      UnlinesSnoc(AllowedLines(lib, ps[..i]), line);
      b := b + line + "\n";
    }
    assert ps[..|ps|] == ps;
  }
}
