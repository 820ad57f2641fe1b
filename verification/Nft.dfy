/**
 The second backend of the access rules: a list of firewall rules for the kernel,
 read from the top, the first that matches deciding.

 `buildRuleset` writes the list; `Verdict` is how the kernel reads it.  The
 question is whether the kernel then means by a rule what the filter in this
 process means by it.
 */
module Nft {
  import opened Wrappers
  import opened Packets
  import opened PacketFilter
  import FilterReplies

  /** What a rule about one source says of the rest of the packet. */
  datatype Match = Anything | L4(proto: nat) | Ports(proto: nat, ranges: seq<PortRange>)

  datatype Line = OtherInterface(iface: string) | Established | From(addr: Addr, what: Match) | Drop

  /** What the kernel looks at: where the packet came in, whether it belongs to a
      conversation already tracked, its source, the protocol it carries, and the
      destination port, if the packet is long enough and whole enough to have one. */
  datatype Arrival = Arrival(iface: string, tracked: bool, src: Addr, proto: nat, dport: Option<nat>)

  predicate PortIn(ranges: seq<PortRange>, port: Option<nat>) {
    port.Some? && SomeContains(ranges, port.value)
  }

  predicate MatchesRest(m: Match, a: Arrival) {
    match m
    case Anything => true
    case L4(proto) => a.proto == proto
    case Ports(proto, ranges) => a.proto == proto && PortIn(ranges, a.dport)
  }

  predicate Matches(l: Line, a: Arrival) {
    match l
    case OtherInterface(iface) => a.iface != iface
    case Established => a.tracked
    case From(addr, what) => a.src == addr && MatchesRest(what, a)
    case Drop => true
  }

  /** First match decides, and the policy of the chain is to accept. */
  predicate Verdict(lines: seq<Line>, a: Arrival) {
    if lines == [] then true
    else if Matches(lines[0], a) then !lines[0].Drop?
    else Verdict(lines[1..], a)
  }

  // ---------------------------------------------------------------------------
  // Writing the list
  // ---------------------------------------------------------------------------

  function PingOf(a: Addr): nat {
    if a.V6? then PROTO_ICMPV6 else PROTO_ICMP
  }

  /** The line for one rule; a protocol nobody knows gets none. */
  function LineFor(addr: Addr, r: Rule): seq<Line> {
    match r.protocol
    case All => [From(addr, Anything)]
    case ICMP => [From(addr, L4(PingOf(addr)))]
    case TCP => [From(addr, if r.ports == [] then L4(PROTO_TCP) else Ports(PROTO_TCP, r.ports))]
    case UDP => [From(addr, if r.ports == [] then L4(PROTO_UDP) else Ports(PROTO_UDP, r.ports))]
    case Unknown => []
  }

  function LinesFor(addr: Addr, rs: seq<Rule>): seq<Line> {
    if rs == [] then [] else LinesFor(addr, rs[..|rs| - 1]) + LineFor(addr, rs[|rs| - 1])
  }

  function Section(order: seq<Addr>, rules: Rules): seq<Line>
    requires forall i :: 0 <= i < |order| ==> order[i] in rules
  {
    if order == [] then []
    else Section(order[..|order| - 1], rules) + LinesFor(order[|order| - 1], rules[order[|order| - 1]])
  }

  /** `netip.Addr.Less`: shorter addresses first, then by value. */
  predicate Less(a: Addr, b: Addr) {
    if a.V4? == b.V4? then a.value < b.value else a.V4?
  }

  ghost predicate Ascending(order: seq<Addr>) {
    forall i, j :: 0 <= i < j < |order| ==> Less(order[i], order[j])
  }

  /** The keys of the map, each once, in order. */
  ghost predicate Lists(order: seq<Addr>, rules: Rules) {
    Ascending(order) && forall a :: a in order <==> a in rules
  }

  ghost predicate IsRuleset(iface: string, rules: Rules, lines: seq<Line>) {
    exists order :: Lists(order, rules) && lines == [OtherInterface(iface), Established] + Section(order, rules) + [Drop]
  }

  /** Where an address belongs in an ascending list. */
  method Insert(order: seq<Addr>, a: Addr) returns (order': seq<Addr>)
    requires Ascending(order) && a !in order
    ensures Ascending(order') && forall b :: b in order' <==> b in order || b == a
  {
    var i := 0;
    while i < |order| && Less(order[i], a)
      invariant 0 <= i <= |order|
      invariant forall j :: 0 <= j < i ==> Less(order[j], a)
    {
      i := i + 1;
    }
    forall j | i <= j < |order| ensures Less(a, order[j]) {
      assert order[j] in order && order[i] in order;
    }
    order' := order[..i] + [a] + order[i..];
    forall b ensures b in order' <==> b in order || b == a {
      assert order == order[..i] + order[i..];
    }
  }

  /** The keys, collected in whatever order the map gives them, and sorted. */
  method SortedPeers(rules: Rules) returns (peers: seq<Addr>)
    ensures Lists(peers, rules)
  {
    peers := [];
    var todo := rules.Keys;
    while todo != {}
      invariant todo <= rules.Keys && Ascending(peers)
      invariant forall a :: a in peers <==> a in rules && a !in todo
      decreases |todo|
    {
      var addr :| addr in todo;
      todo := todo - {addr};
      peers := Insert(peers, addr);
    }
  }

  lemma LinesStep(addr: Addr, rs: seq<Rule>, j: nat, before: seq<Line>)
    requires j < |rs|
    ensures before + LinesFor(addr, rs[..j + 1]) == before + LinesFor(addr, rs[..j]) + LineFor(addr, rs[j])
  {
    assert rs[..j + 1][..j] == rs[..j];
  }

  /** The lines of one peer, appended one rule at a time. */
  method WritePeer(addr: Addr, rs: seq<Rule>, lines: seq<Line>) returns (lines': seq<Line>)
    ensures lines' == lines + LinesFor(addr, rs)
  {
    lines' := lines;
    for j := 0 to |rs|
      invariant lines' == lines + LinesFor(addr, rs[..j])
    {
      LinesStep(addr, rs, j, lines);
      lines' := lines' + LineFor(addr, rs[j]);
    }
    assert rs[..|rs|] == rs;
  }

  lemma SectionStep(peers: seq<Addr>, rules: Rules, i: nat, before: seq<Line>)
    requires i < |peers| && forall j :: 0 <= j < |peers| ==> peers[j] in rules
    ensures before + Section(peers[..i + 1], rules) == before + Section(peers[..i], rules) + LinesFor(peers[i], rules[peers[i]])
  {
    assert peers[..i + 1][..i] == peers[..i];
  }

  method WriteSection(peers: seq<Addr>, rules: Rules, head: seq<Line>) returns (lines: seq<Line>)
    requires forall j :: 0 <= j < |peers| ==> peers[j] in rules
    ensures lines == head + Section(peers, rules)
  {
    lines := head;
    for i := 0 to |peers|
      invariant lines == head + Section(peers[..i], rules)
    {
      SectionStep(peers, rules, i, head);
      lines := WritePeer(peers[i], rules[peers[i]], lines);
    }
    assert peers[..|peers|] == peers;
  }

  /** The list, whatever order the map gives its keys in. */
  method BuildRuleset(iface: string, rules: Rules) returns (lines: seq<Line>)
    ensures IsRuleset(iface, rules, lines)
  {
    var peers := SortedPeers(rules);
    lines := WriteSection(peers, rules, [OtherInterface(iface), Established]);
    lines := lines + [Drop];
  }

  // ----- the list depends on the map alone ------------------------------------

  lemma {:induction false} OneOrder(a: seq<Addr>, b: seq<Addr>)
    requires Ascending(a) && Ascending(b) && forall x :: x in a <==> x in b
    ensures a == b
  {
    assert forall i :: 0 <= i < |a| ==> a[i] in b;
    assert forall i :: 0 <= i < |b| ==> b[i] in a;
    if a != [] {
      assert a[0] in b;
      assert b[0] in a;
      assert a[0] == b[0];
      forall x ensures x in a[1..] <==> x in b[1..] {
        if x in a[1..] {
          assert x in a && x != a[0];
        }
        if x in b[1..] {
          assert x in b && x != b[0];
        }
      }
      OneOrder(a[1..], b[1..]);
    }
  }

  /** The same rules make the same list, so that it can be compared. */
  lemma OneRuleset(iface: string, rules: Rules, one: seq<Line>, other: seq<Line>)
    requires IsRuleset(iface, rules, one) && IsRuleset(iface, rules, other)
    ensures one == other
  {
    var a :| Lists(a, rules) && one == [OtherInterface(iface), Established] + Section(a, rules) + [Drop];
    var b :| Lists(b, rules) && other == [OtherInterface(iface), Established] + Section(b, rules) + [Drop];
    OneOrder(a, b);
  }

  // ----- what the list means --------------------------------------------------

  /** A list of accepting lines lets a packet through if any of them matches, and
      otherwise leaves it to what follows. */
  ghost predicate AnyMatches(lines: seq<Line>, a: Arrival) {
    exists i :: 0 <= i < |lines| && Matches(lines[i], a)
  }

  lemma {:induction false} AcceptingLines(lines: seq<Line>, rest: seq<Line>, a: Arrival)
    requires forall i :: 0 <= i < |lines| ==> !lines[i].Drop?
    ensures Verdict(lines + rest, a) <==> AnyMatches(lines, a) || Verdict(rest, a)
  {
    if lines == [] {
      assert [] + rest == rest;
    } else {
      assert (lines + rest)[1..] == lines[1..] + rest;
      AcceptingLines(lines[1..], rest, a);
      if AnyMatches(lines, a) && !Matches(lines[0], a) {
        var i :| 0 <= i < |lines| && Matches(lines[i], a);
        assert lines[1..][i - 1] == lines[i];
      }
    }
  }

  lemma AnyOfBoth(x: seq<Line>, y: seq<Line>, a: Arrival)
    ensures AnyMatches(x + y, a) <==> AnyMatches(x, a) || AnyMatches(y, a)
  {
    if i :| 0 <= i < |x| && Matches(x[i], a) {
      assert (x + y)[i] == x[i];
    }
    if i :| 0 <= i < |y| && Matches(y[i], a) {
      assert (x + y)[|x| + i] == y[i];
    }
    if i :| 0 <= i < |x + y| && Matches((x + y)[i], a) {
      assert (x + y)[i] == if i < |x| then x[i] else y[i - |x|];
    }
  }

  /** What the kernel makes of one rule. */
  predicate KernelAllows(r: Rule, a: Arrival) {
    match r.protocol
    case All => true
    case ICMP => a.proto == PingOf(a.src)
    case TCP => a.proto == PROTO_TCP && (r.ports == [] || PortIn(r.ports, a.dport))
    case UDP => a.proto == PROTO_UDP && (r.ports == [] || PortIn(r.ports, a.dport))
    case Unknown => false
  }

  ghost predicate KernelMayStart(rs: seq<Rule>, a: Arrival) {
    exists i :: 0 <= i < |rs| && KernelAllows(rs[i], a)
  }

  lemma {:induction false} LinesMean(addr: Addr, rs: seq<Rule>, a: Arrival)
    ensures AnyMatches(LinesFor(addr, rs), a) <==> a.src == addr && KernelMayStart(rs, a)
    ensures forall i :: 0 <= i < |LinesFor(addr, rs)| ==> !LinesFor(addr, rs)[i].Drop?
    decreases |rs|
  {
    if rs != [] {
      var k := |rs| - 1;
      LinesMean(addr, rs[..k], a);
      AnyOfBoth(LinesFor(addr, rs[..k]), LineFor(addr, rs[k]), a);
      LineMeans(addr, rs[k], a);
      if i :| 0 <= i < k && KernelAllows(rs[..k][i], a) {
        assert KernelAllows(rs[i], a);
      }
      if i :| 0 <= i < |rs| && KernelAllows(rs[i], a) {
        assert i < k ==> KernelAllows(rs[..k][i], a);
      }
    }
  }

  lemma LineMeans(addr: Addr, r: Rule, a: Arrival)
    ensures AnyMatches(LineFor(addr, r), a) <==> a.src == addr && KernelAllows(r, a)
  {
    var l := LineFor(addr, r);
    if l != [] && Matches(l[0], a) {
      assert AnyMatches(l, a);
    }
  }

  lemma {:induction false} SectionMeans(order: seq<Addr>, rules: Rules, a: Arrival)
    requires forall i :: 0 <= i < |order| ==> order[i] in rules
    ensures AnyMatches(Section(order, rules), a) <==> a.src in order && KernelMayStart(rules[a.src], a)
    ensures forall i :: 0 <= i < |Section(order, rules)| ==> !Section(order, rules)[i].Drop?
    decreases |order|
  {
    if order != [] {
      var k := |order| - 1;
      SectionMeans(order[..k], rules, a);
      LinesMean(order[k], rules[order[k]], a);
      AnyOfBoth(Section(order[..k], rules), LinesFor(order[k], rules[order[k]]), a);
      assert order == order[..k] + [order[k]];
    }
  }

  lemma HeadMeans(iface: string, rest: seq<Line>, a: Arrival)
    ensures Verdict([OtherInterface(iface), Established] + rest, a) <==> a.iface != iface || a.tracked || Verdict(rest, a)
  {
    var lines := [OtherInterface(iface), Established] + rest;
    assert lines[1..] == [Established] + rest;
    assert lines[1..][1..] == rest;
  }

  /** The whole list: other interfaces are untouched, tracked conversations pass,
      and a new one passes if a rule of its source says so. */
  lemma RulesetMeans(iface: string, rules: Rules, lines: seq<Line>, a: Arrival)
    requires IsRuleset(iface, rules, lines)
    ensures Verdict(lines, a) <==>
              a.iface != iface || a.tracked || (a.src in rules && KernelMayStart(rules[a.src], a))
  {
    var order :| Lists(order, rules) && lines == [OtherInterface(iface), Established] + Section(order, rules) + [Drop];
    var section := Section(order, rules);
    SectionMeans(order, rules, a);
    AcceptingLines(section, [Drop], a);
    assert lines == [OtherInterface(iface), Established] + (section + [Drop]);
    HeadMeans(iface, section + [Drop], a);
    assert !Verdict([Drop], a);
  }

  // ----- the two backends -----------------------------------------------------

  predicate Readable(proto: nat) {
    HasPorts(proto) || IsPing(proto)
  }

  function SourceOf(h: Header): Addr
    requires WellFormed(h)
  {
    if h.IPv4? then V4(BigEndian(h.source)) else V6(BigEndian(h.source))
  }

  function ProtocolOf(h: Header): nat {
    if h.IPv4? then h.protocol as nat else h.next as nat
  }

  predicate LaterFragment(h: Header) {
    h.IPv4? && h.offset != 0
  }

  /** How the kernel sees a packet.  It reads ports where the process does.  Behind a next
      header that the process does not read there may be extension headers, which the
      kernel walks, so what it finds there can be anything. */
  predicate Sees(h: Header, p: Body, a: Arrival)
    requires WellFormed(h)
  {
    && a.src == SourceOf(h)
    && (h.IPv4? || Readable(ProtocolOf(h)) ==>
          && a.proto == ProtocolOf(h)
          && a.dport == if p.Segment? && !LaterFragment(h) then Some(p.dstPort) else None)
  }

  /** The process cannot read it: a later fragment, a protocol it does not know, or one
      with ports and too few octets to hold them. */
  predicate Unread(h: Header, p: Body) {
    LaterFragment(h) || !Readable(ProtocolOf(h)) || (HasPorts(ProtocolOf(h)) && p.Short?)
  }

  lemma UnreadExactly(h: Header, p: Body)
    requires WellFormed(h) && WellFormedBody(p)
    ensures Unread(h, p) <==> Parse(Emit(h, p)) == None
    ensures !Unread(h, p) ==>
              var q := Parse(Emit(h, p)).value;
              q.proto == ProtocolOf(h) && q.src == SourceOf(h) && q.dstPort == if IsPing(q.proto) || p.Short? then 0 else p.dstPort
  {
    ParseReadsTheHeader(h, p);
  }

  ghost predicate HasRule(rules: Rules, src: Addr, protocol: Protocol) {
    src in rules && exists i :: 0 <= i < |rules[src]| && rules[src][i].protocol == protocol
  }

  /** A rule of the source is for this protocol, and for all ports or for this one. */
  ghost predicate HasPortRule(rules: Rules, src: Addr, protocol: Protocol, port: Option<nat>) {
    src in rules && exists i :: 0 <= i < |rules[src]| && ForPort(rules[src][i], protocol, port)
  }

  predicate ForPort(r: Rule, protocol: Protocol, port: Option<nat>) {
    r.protocol == protocol && (r.ports == [] || PortIn(r.ports, port))
  }

  /** The kind of ping the source's own family has. */
  predicate OwnPing(a: Arrival) {
    (a.src.V4? && a.proto == PROTO_ICMP) || (a.src.V6? && a.proto == PROTO_ICMPV6)
  }

  /** Some rule of the source is for what the packet is, as far as that can be told. */
  ghost predicate Named(rules: Rules, a: Arrival) {
    || HasRule(rules, a.src, All)
    || (OwnPing(a) && HasRule(rules, a.src, ICMP))
    || (a.proto == PROTO_TCP && HasPortRule(rules, a.src, TCP, a.dport))
    || (a.proto == PROTO_UDP && HasPortRule(rules, a.src, UDP, a.dport))
  }

  /** The packets the backends treat differently: one the process cannot read and no rule
      names, and the other address family's kind of ping under a rule for pings. */
  ghost predicate Divides(rules: Rules, h: Header, p: Body, a: Arrival)
    requires WellFormed(h)
  {
    if Unread(h, p) then !Named(rules, a)
    else IsPing(a.proto) && !OwnPing(a) && HasRule(rules, a.src, ICMP) && !HasRule(rules, a.src, All)
  }

  lemma OneNamed(rules: Rules, a: Arrival, i: nat)
    requires a.src in rules && i < |rules[a.src]| && KernelAllows(rules[a.src][i], a)
    ensures Named(rules, a)
  {
    var r := rules[a.src][i];
    assert r.protocol == All || r.protocol == ICMP || ForPort(r, r.protocol, a.dport);
  }

  /** The kernel lets a new packet through exactly when a rule names it. */
  lemma KernelNames(rules: Rules, a: Arrival)
    ensures Named(rules, a) <==> a.src in rules && KernelMayStart(rules[a.src], a)
  {
    if a.src in rules {
      var rs := rules[a.src];
      if i :| 0 <= i < |rs| && KernelAllows(rs[i], a) {
        OneNamed(rules, a, i);
      }
      if HasRule(rules, a.src, All) {
        var i :| 0 <= i < |rs| && rs[i].protocol == All;
        assert KernelAllows(rs[i], a);
      } else if OwnPing(a) && HasRule(rules, a.src, ICMP) {
        var i :| 0 <= i < |rs| && rs[i].protocol == ICMP;
        assert KernelAllows(rs[i], a);
      } else if Named(rules, a) {
        var i :| 0 <= i < |rs| && ForPort(rs[i], if a.proto == PROTO_TCP then TCP else UDP, a.dport);
        assert KernelAllows(rs[i], a);
      }
    }
  }

  /** One rule means the same to both, for a packet the process can read, unless it is
      for pings and the packet is the other family's. */
  lemma OneRuleAgrees(r: Rule, a: Arrival, port: nat)
    requires Readable(a.proto) && (HasPorts(a.proto) ==> a.dport == Some(port))
    requires OwnPing(a) || !IsPing(a.proto) || r.protocol != ICMP
    ensures KernelAllows(r, a) <==> Allows(r, a.proto, port)
  {
  }

  /** What the process says of a packet that it can read and that starts something. */
  lemma ReadAgrees(rules: Rules, a: Arrival, q: Parsed)
    requires Readable(a.proto) && (HasPorts(a.proto) ==> a.dport == Some(q.dstPort)) && q.proto == a.proto && q.src == a.src
    requires !(IsPing(a.proto) && !OwnPing(a) && HasRule(rules, a.src, ICMP) && !HasRule(rules, a.src, All))
    ensures MayStart(rules, q) <==> a.src in rules && KernelMayStart(rules[a.src], a)
  {
    if HasRule(rules, a.src, All) {
      var i :| 0 <= i < |rules[a.src]| && rules[a.src][i].protocol == All;
      assert KernelAllows(rules[a.src][i], a) && Allows(rules[a.src][i], q.proto, q.dstPort);
    } else if a.src in rules {
      forall i | 0 <= i < |rules[a.src]| ensures KernelAllows(rules[a.src][i], a) <==> Allows(rules[a.src][i], q.proto, q.dstPort) {
        OneRuleAgrees(rules[a.src][i], a, q.dstPort);
      }
    }
  }

  lemma OtherPingDivides(rules: Rules, a: Arrival, q: Parsed)
    requires IsPing(a.proto) && !OwnPing(a) && HasRule(rules, a.src, ICMP) && !HasRule(rules, a.src, All)
    requires q.proto == a.proto && q.src == a.src
    ensures MayStart(rules, q) && !Named(rules, a)
  {
    var i :| 0 <= i < |rules[a.src]| && rules[a.src][i].protocol == ICMP;
    assert Allows(rules[a.src][i], q.proto, q.dstPort);
  }

  /** What the process decides about a packet of octets that answers nothing it sent. */
  ghost predicate ProcessPasses(rules: Rules, flows: map<Flow, int>, h: Header, p: Body, now: int)
    requires WellFormed(h) && WellFormedBody(p)
  {
    Passes(Table(true, rules, flows), Parse(Emit(h, p)), now)
  }

  /** The packet starts something, as far as the process can tell. */
  ghost predicate Starts(flows: map<Flow, int>, h: Header, p: Body, now: int)
    requires WellFormed(h) && WellFormedBody(p)
  {
    var packet := Parse(Emit(h, p));
    packet.Some? ==> !Live(Table(true, map[], flows), ReplyKey(packet.value), now)
  }

  lemma ProcessMeans(rules: Rules, flows: map<Flow, int>, h: Header, p: Body, now: int)
    requires WellFormed(h) && WellFormedBody(p) && Starts(flows, h, p, now)
    ensures ProcessPasses(rules, flows, h, p, now) <==> Parse(Emit(h, p)).None? || MayStart(rules, Parse(Emit(h, p)).value)
  {
  }

  /** When a packet divides the two backends, the process lets it through and the
      kernel does not. */
  lemma DividedMeansDropped(iface: string, rules: Rules, lines: seq<Line>, flows: map<Flow, int>, h: Header, p: Body, a: Arrival, now: int)
    requires IsRuleset(iface, rules, lines) && a.iface == iface && !a.tracked
    requires WellFormed(h) && WellFormedBody(p) && Sees(h, p, a) && Starts(flows, h, p, now) && Divides(rules, h, p, a)
    ensures ProcessPasses(rules, flows, h, p, now) && !Verdict(lines, a)
  {
    RulesetMeans(iface, rules, lines, a);
    KernelNames(rules, a);
    ProcessMeans(rules, flows, h, p, now);
    UnreadExactly(h, p);
    if !Unread(h, p) {
      OtherPingDivides(rules, a, Parse(Emit(h, p)).value);
    }
  }

  lemma UndividedAgrees(iface: string, rules: Rules, lines: seq<Line>, flows: map<Flow, int>, h: Header, p: Body, a: Arrival, now: int)
    requires IsRuleset(iface, rules, lines) && a.iface == iface && !a.tracked
    requires WellFormed(h) && WellFormedBody(p) && Sees(h, p, a) && Starts(flows, h, p, now) && !Divides(rules, h, p, a)
    ensures ProcessPasses(rules, flows, h, p, now) <==> Verdict(lines, a)
  {
    RulesetMeans(iface, rules, lines, a);
    KernelNames(rules, a);
    ProcessMeans(rules, flows, h, p, now);
    UnreadExactly(h, p);
    if !Unread(h, p) {
      ReadAgrees(rules, a, Parse(Emit(h, p)).value);
    }
  }

  /** For every packet of octets that starts something on the mesh interface, the two
      backends give the same answer if and only if it is not one of the kinds above. */
  lemma BackendsAgree(iface: string, rules: Rules, lines: seq<Line>, flows: map<Flow, int>, h: Header, p: Body, a: Arrival, now: int)
    requires IsRuleset(iface, rules, lines) && a.iface == iface && !a.tracked
    requires WellFormed(h) && WellFormedBody(p) && Sees(h, p, a) && Starts(flows, h, p, now)
    ensures (Verdict(lines, a) <==> Passes(Table(true, rules, flows), Parse(Emit(h, p)), now)) <==> !Divides(rules, h, p, a)
  {
    if Divides(rules, h, p, a) {
      DividedMeansDropped(iface, rules, lines, flows, h, p, a, now);
    } else {
      UndividedAgrees(iface, rules, lines, flows, h, p, a, now);
    }
  }

  // ----- in plain numbers -----------------------------------------------------

  /** What a rule means to the kernel, with the protocols by their numbers. */
  predicate Spelled(r: Rule, a: Arrival) {
    || r.protocol == All
    || (r.protocol == ICMP && a.src.V4? && a.proto == 1)
    || (r.protocol == ICMP && a.src.V6? && a.proto == 58)
    || (r.protocol == TCP && a.proto == 6 && (r.ports == [] || (a.dport.Some? && FilterReplies.InSomeRange(r.ports, a.dport.value))))
    || (r.protocol == UDP && a.proto == 17 && (r.ports == [] || (a.dport.Some? && FilterReplies.InSomeRange(r.ports, a.dport.value))))
  }

  lemma KernelSpelled(r: Rule, a: Arrival)
    ensures KernelAllows(r, a) <==> Spelled(r, a)
  {
    if a.dport.Some? {
      forall i | 0 <= i < |r.ports| ensures Contains(r.ports[i], a.dport.value) <==> r.ports[i].from <= a.dport.value <= r.ports[i].to {
      }
    }
  }

  /** The whole list in plain numbers: other interfaces and tracked conversations pass, and
      of the rest exactly what some rule of the source is for. */
  lemma RulesetSpelled(iface: string, rules: Rules, lines: seq<Line>, a: Arrival)
    requires IsRuleset(iface, rules, lines)
    ensures Verdict(lines, a) <==>
              || a.iface != iface || a.tracked
              || (a.src in rules && exists i :: 0 <= i < |rules[a.src]| && Spelled(rules[a.src][i], a))
  {
    RulesetMeans(iface, rules, lines, a);
    if a.src in rules {
      forall i | 0 <= i < |rules[a.src]| ensures KernelAllows(rules[a.src][i], a) <==> Spelled(rules[a.src][i], a) {
        KernelSpelled(rules[a.src][i], a);
      }
    }
  }

  /** Under a rule for pings and none for everything, a new ping passes if and only if it
      is the source's own family's: number 1 from a version-four address, number 58 from a
      version-six one. */
  lemma PingsByFamily(iface: string, rules: Rules, lines: seq<Line>, a: Arrival)
    requires IsRuleset(iface, rules, lines) && a.iface == iface && !a.tracked && (a.proto == 1 || a.proto == 58)
    requires a.src in rules && (forall i :: 0 <= i < |rules[a.src]| ==> rules[a.src][i].protocol != All)
    requires exists i :: 0 <= i < |rules[a.src]| && rules[a.src][i].protocol == ICMP
    ensures Verdict(lines, a) <==> (a.src.V4? && a.proto == 1) || (a.src.V6? && a.proto == 58)
  {
    RulesetSpelled(iface, rules, lines, a);
    var i :| 0 <= i < |rules[a.src]| && rules[a.src][i].protocol == ICMP;
    assert (a.src.V4? && a.proto == 1) || (a.src.V6? && a.proto == 58) ==> Spelled(rules[a.src][i], a);
  }

  /** The sources come version four first, and each version by rising address. */
  lemma OrderSpelled(order: seq<Addr>, rules: Rules, i: nat, j: nat)
    requires Lists(order, rules) && i < j < |order|
    ensures (order[i].V4? && order[j].V6?) || ((order[i].V4? <==> order[j].V4?) && order[i].value < order[j].value)
  {
    assert Less(order[i], order[j]);
  }
}
