/**
 What the filter reads of a packet, and the header layouts it reads it from.

 `Parse` follows the code.  `Emit` lays out a header field by field as section 3.1
 of RFC 791 and section 3 of RFC 8200 draw it, with the ports where section 3.1 of
 RFC 9293 puts them, and knows nothing of `Parse`: the two meet in
 `ParseReadsTheHeader`.
 */
module Packets {
  import opened Wrappers

  newtype byte = x: int | 0 <= x < 256

  const PROTO_ICMP := 1
  const PROTO_TCP := 6
  const PROTO_UDP := 17
  const PROTO_ICMPV6 := 58

  datatype Addr = V4(value: nat) | V6(value: nat)

  function BigEndian(bs: seq<byte>): nat {
    if bs == [] then 0 else BigEndian(bs[..|bs| - 1]) * 256 + bs[|bs| - 1] as int
  }

  datatype Parsed = Parsed(proto: nat, src: Addr, dst: Addr, srcPort: nat, dstPort: nat)

  predicate HasPorts(proto: nat) {
    proto == PROTO_TCP || proto == PROTO_UDP
  }

  predicate IsPing(proto: nat) {
    proto == PROTO_ICMP || proto == PROTO_ICMPV6
  }

  /** The tail of `parse`: the ports, if the protocol is one it knows. */
  function ParsePorts(proto: nat, src: Addr, dst: Addr, payload: seq<byte>): Option<Parsed> {
    if HasPorts(proto) then
      if |payload| < 4 then None
      else Some(Parsed(proto, src, dst, BigEndian(payload[0..2]), BigEndian(payload[2..4])))
    else if IsPing(proto) then Some(Parsed(proto, src, dst, 0, 0))
    else None
  }

  function Parse(b: seq<byte>): Option<Parsed> {
    if |b| < 20 then None
    else if b[0] / 16 == 4 then
      var ihl := (b[0] % 16) as nat * 4;
      if ihl < 20 || |b| < ihl then None
      else if BigEndian(b[6..8]) % 0x2000 != 0 then None
      else ParsePorts(b[9] as nat, V4(BigEndian(b[12..16])), V4(BigEndian(b[16..20])), b[ihl..])
    else if b[0] / 16 == 6 then
      if |b| < 40 then None
      else ParsePorts(b[6] as nat, V6(BigEndian(b[8..24])), V6(BigEndian(b[24..40])), b[40..])
    else None
  }

  /** The two headers, every field of them. */
  datatype Header =
    | IPv4(tos: byte, length: seq<byte>, id: seq<byte>, flags: nat, offset: nat,
           ttl: byte, protocol: byte, checksum: seq<byte>, source: seq<byte>, destination: seq<byte>, options: seq<byte>)
    | IPv6(kind: nat, flow: seq<byte>, length: seq<byte>, next: byte, hops: byte,
           source: seq<byte>, destination: seq<byte>)

  predicate WellFormed(h: Header) {
    match h
    case IPv4(_, length, id, flags, offset, _, _, checksum, source, destination, options) =>
      && |length| == |id| == |checksum| == 2 && |source| == |destination| == 4
      && flags < 8 && offset < 0x2000
      && |options| % 4 == 0 && |options| <= 40
    case IPv6(kind, flow, length, _, _, source, destination) =>
      kind < 16 && |flow| == 3 && |length| == 2 && |source| == |destination| == 16
  }

  /** The octets of a header, in the order they are sent. */
  function Octets(h: Header): seq<byte>
    requires WellFormed(h)
  {
    match h
    case IPv4(tos, length, id, flags, offset, ttl, protocol, checksum, source, destination, options) =>
      [(64 + 5 + |options| / 4) as byte, tos, length[0], length[1],
       id[0], id[1], (flags * 32 + offset / 256) as byte, (offset % 256) as byte,
       ttl, protocol, checksum[0], checksum[1]]
      + source + destination + options
    case IPv6(kind, flow, length, next, hops, source, destination) =>
      [(96 + kind) as byte, flow[0], flow[1], flow[2], length[0], length[1], next, hops]
      + source + destination
  }

  /** What follows the header: the two ports and the rest, or too little to hold
      them. */
  datatype Body = Segment(srcPort: nat, dstPort: nat, rest: seq<byte>) | Short(octets: seq<byte>)

  predicate WellFormedBody(p: Body) {
    match p
    case Segment(srcPort, dstPort, _) => srcPort < 0x10000 && dstPort < 0x10000
    case Short(octets) => |octets| < 4
  }

  function Payload(p: Body): seq<byte>
    requires WellFormedBody(p)
  {
    match p
    case Segment(srcPort, dstPort, rest) =>
      [(srcPort / 256) as byte, (srcPort % 256) as byte, (dstPort / 256) as byte, (dstPort % 256) as byte] + rest
    case Short(octets) => octets
  }

  function Emit(h: Header, p: Body): seq<byte>
    requires WellFormed(h) && WellFormedBody(p)
  {
    Octets(h) + Payload(p)
  }

  /** What a filter should read of a packet: nothing from a later fragment, from
      a protocol it does not know or from a segment too short for its ports; and
      no ports from a ping.  The numbers are the assigned ones: 1 and 58 for the two
      kinds of ICMP, 6 for TCP, 17 for UDP. */
  function Means(h: Header, p: Body): Option<Parsed>
    requires WellFormed(h)
  {
    var proto := if h.IPv4? then h.protocol as nat else h.next as nat;
    var src := if h.IPv4? then V4(BigEndian(h.source)) else V6(BigEndian(h.source));
    var dst := if h.IPv4? then V4(BigEndian(h.destination)) else V6(BigEndian(h.destination));
    if h.IPv4? && h.offset != 0 then None
    else if proto == 1 || proto == 58 then Some(Parsed(proto, src, dst, 0, 0))
    else if (proto == 6 || proto == 17) && p.Segment? then Some(Parsed(proto, src, dst, p.srcPort, p.dstPort))
    else None
  }

  lemma TwoOctets(a: byte, b: byte)
    ensures BigEndian([a, b]) == a as int * 256 + b as int
  {
    assert [a, b][..1] == [a];
    assert [a][..0] == [];
    assert BigEndian([a]) == a as int;
  }

  lemma LowBits(flags: nat, offset: nat)
    requires offset < 0x2000
    ensures (flags * 0x2000 + offset) % 0x2000 == offset
  {
  }

  lemma Halves(flags: nat, offset: nat)
    requires flags < 8 && offset < 0x2000
    ensures flags * 32 + offset / 256 < 256
    ensures (flags * 32 + offset / 256) * 256 + offset % 256 == flags * 0x2000 + offset
  {
    assert offset == offset / 256 * 256 + offset % 256;
  }

  /** The fragment offset is the low thirteen bits of its two octets. */
  lemma OffsetOctets(flags: nat, offset: nat)
    requires flags < 8 && offset < 0x2000
    ensures BigEndian([(flags * 32 + offset / 256) as byte, (offset % 256) as byte]) % 0x2000 == offset
  {
    Halves(flags, offset);
    TwoOctets((flags * 32 + offset / 256) as byte, (offset % 256) as byte);
    LowBits(flags, offset);
  }

  lemma PortsRead(proto: nat, src: Addr, dst: Addr, p: Body)
    requires WellFormedBody(p)
    ensures ParsePorts(proto, src, dst, Payload(p)) ==
            if IsPing(proto) then Some(Parsed(proto, src, dst, 0, 0))
            else if HasPorts(proto) && p.Segment? then Some(Parsed(proto, src, dst, p.srcPort, p.dstPort))
            else None
  {
    if p.Segment? {
      var b := Payload(p);
      assert b[0..2] == [(p.srcPort / 256) as byte, (p.srcPort % 256) as byte];
      assert b[2..4] == [(p.dstPort / 256) as byte, (p.dstPort % 256) as byte];
      TwoOctets((p.srcPort / 256) as byte, (p.srcPort % 256) as byte);
      TwoOctets((p.dstPort / 256) as byte, (p.dstPort % 256) as byte);
    }
  }

  lemma LayoutV4(h: Header, p: Body)
    requires WellFormed(h) && WellFormedBody(p) && h.IPv4?
    ensures var b, ihl := Emit(h, p), 20 + |h.options|;
            && |b| >= ihl && b[12..16] == h.source && b[16..20] == h.destination && b[ihl..] == Payload(p)
  {
    var b, ihl := Emit(h, p), 20 + |h.options|;
    var fixed := Octets(h)[..12];
    assert b == fixed + h.source + h.destination + h.options + Payload(p);
    assert b[12..16] == h.source;
    assert b[16..20] == h.destination;
    assert b[ihl..] == Payload(p);
  }

  lemma FirstOctetsV4(h: Header, p: Body)
    requires WellFormed(h) && WellFormedBody(p) && h.IPv4?
    ensures var b := Emit(h, p);
            && b[0] / 16 == 4 && (b[0] % 16) as nat * 4 == 20 + |h.options|
            && BigEndian(b[6..8]) % 0x2000 == h.offset && b[9] == h.protocol
  {
    var b := Emit(h, p);
    assert b[6..8] == [(h.flags * 32 + h.offset / 256) as byte, (h.offset % 256) as byte];
    OffsetOctets(h.flags, h.offset);
  }

  lemma ParseReadsV4(h: Header, p: Body)
    requires WellFormed(h) && WellFormedBody(p) && h.IPv4?
    ensures Parse(Emit(h, p)) == Means(h, p)
  {
    LayoutV4(h, p);
    FirstOctetsV4(h, p);
    PortsRead(h.protocol as nat, V4(BigEndian(h.source)), V4(BigEndian(h.destination)), p);
  }

  lemma LayoutV6(h: Header, p: Body)
    requires WellFormed(h) && WellFormedBody(p) && h.IPv6?
    ensures var b := Emit(h, p);
            |b| >= 40 && b[8..24] == h.source && b[24..40] == h.destination && b[40..] == Payload(p)
  {
    var b := Emit(h, p);
    var fixed := Octets(h)[..8];
    assert b == fixed + h.source + h.destination + Payload(p);
    assert b[8..24] == h.source;
    assert b[24..40] == h.destination;
    assert b[40..] == Payload(p);
  }

  lemma FirstOctetsV6(h: Header, p: Body)
    requires WellFormed(h) && WellFormedBody(p) && h.IPv6?
    ensures var b := Emit(h, p); |b| >= 40 && b[0] / 16 == 6 && b[6] == h.next
  {
  }

  lemma ParseReadsV6(h: Header, p: Body)
    requires WellFormed(h) && WellFormedBody(p) && h.IPv6?
    ensures Parse(Emit(h, p)) == Means(h, p)
  {
    LayoutV6(h, p);
    FirstOctetsV6(h, p);
    PortsRead(h.next as nat, V6(BigEndian(h.source)), V6(BigEndian(h.destination)), p);
  }

  /** Whatever is emitted is read back as what it means. */
  lemma ParseReadsTheHeader(h: Header, p: Body)
    requires WellFormed(h) && WellFormedBody(p)
    ensures Parse(Emit(h, p)) == Means(h, p)
  {
    if h.IPv4? {
      ParseReadsV4(h, p);
    } else {
      ParseReadsV6(h, p);
    }
  }

  /** The header that the first octets of a version-four packet spell. */
  function HeaderV4(b: seq<byte>): Header
    requires |b| >= 20 && b[0] / 16 == 4 && 20 <= (b[0] % 16) as nat * 4 <= |b|
  {
    IPv4(b[1], b[2..4], b[4..6], b[6] as nat / 32, (b[6] as nat % 32) * 256 + b[7] as nat,
         b[8], b[9], b[10..12], b[12..16], b[16..20], b[20..(b[0] % 16) as nat * 4])
  }

  lemma VersionAndLength(b: byte, options: nat)
    requires b / 16 == 4 && options == (b % 16) as nat * 4 - 20
    ensures options % 4 == 0 && options <= 40 && 64 + 5 + options / 4 == b as nat
  {
  }

  lemma FlagsAndOffset(hi: byte, lo: byte)
    ensures var flags, offset := hi as nat / 32, (hi as nat % 32) * 256 + lo as nat;
            flags < 8 && offset < 0x2000 && flags * 32 + offset / 256 == hi as nat && offset % 256 == lo as nat
  {
  }

  lemma SpelledV4(b: seq<byte>)
    requires |b| >= 20 && b[0] / 16 == 4 && 20 <= (b[0] % 16) as nat * 4 <= |b|
    ensures WellFormed(HeaderV4(b)) && Octets(HeaderV4(b)) == b[..(b[0] % 16) as nat * 4]
  {
    var h, ihl := HeaderV4(b), (b[0] % 16) as nat * 4;
    FixedSpelled(b);
    assert Octets(h) == Fixed(b) + b[12..16] + b[16..20] + b[20..ihl];
    Sliced(b, ihl);
  }

  lemma FixedSpelled(b: seq<byte>)
    requires |b| >= 20 && b[0] / 16 == 4 && 20 <= (b[0] % 16) as nat * 4 <= |b|
    ensures var h := HeaderV4(b);
            && WellFormed(h)
            && (64 + 5 + |h.options| / 4) as byte == b[0]
            && (h.flags * 32 + h.offset / 256) as byte == b[6] && (h.offset % 256) as byte == b[7]
            && [h.length[0], h.length[1], h.id[0], h.id[1], h.checksum[0], h.checksum[1]] == [b[2], b[3], b[4], b[5], b[10], b[11]]
  {
    VersionAndLength(b[0], |HeaderV4(b).options|);
    FlagsAndOffset(b[6], b[7]);
  }

  function Fixed(b: seq<byte>): seq<byte>
    requires |b| >= 12
  {
    [b[0], b[1], b[2], b[3], b[4], b[5], b[6], b[7], b[8], b[9], b[10], b[11]]
  }

  lemma Sliced(b: seq<byte>, ihl: nat)
    requires 20 <= ihl <= |b|
    ensures b[..ihl] == Fixed(b) + b[12..16] + b[16..20] + b[20..ihl]
  {
    assert b[..12] == Fixed(b);
    assert b[..ihl] == b[..12] + b[12..16] + b[16..20] + b[20..ihl];
  }

  function HeaderV6(b: seq<byte>): Header
    requires |b| >= 40 && b[0] / 16 == 6
  {
    IPv6(b[0] as nat % 16, b[1..4], b[4..6], b[6], b[7], b[8..24], b[24..40])
  }

  lemma SpelledV6(b: seq<byte>)
    requires |b| >= 40 && b[0] / 16 == 6
    ensures WellFormed(HeaderV6(b)) && Octets(HeaderV6(b)) == b[..40]
  {
    assert Octets(HeaderV6(b))[..8] == b[..8];
    assert b[..40] == b[..8] + b[8..24] + b[24..40];
  }

  lemma SpelledBody(b: seq<byte>) returns (p: Body)
    ensures WellFormedBody(p) && Payload(p) == b
  {
    if |b| < 4 {
      p := Short(b);
    } else {
      p := Segment(b[0] as nat * 256 + b[1] as nat, b[2] as nat * 256 + b[3] as nat, b[4..]);
      assert Payload(p)[..4] == b[..4];
    }
  }

  /** And whatever is read was emitted: no other octets are ever taken for a
      packet. */
  lemma ParsedIsEmitted(b: seq<byte>) returns (h: Header, p: Body)
    requires Parse(b).Some?
    ensures WellFormed(h) && WellFormedBody(p) && b == Emit(h, p) && Means(h, p) == Parse(b)
  {
    if b[0] / 16 == 4 {
      SpelledV4(b);
      h := HeaderV4(b);
      p := SpelledBody(b[(b[0] % 16) as nat * 4..]);
    } else {
      SpelledV6(b);
      h := HeaderV6(b);
      p := SpelledBody(b[40..]);
    }
    ParseReadsTheHeader(h, p);
  }
}
