/**
 What the filter promises of answers, rules and forgetting, with every field and every
 number spelled out.
 */
module FilterReplies {
  import opened Wrappers
  import opened Packets
  import opened PacketFilter

  const NANOSECONDS := 1_000_000_000

  /** `q` answers `p`: the same protocol between the same two ends, the other way round. */
  predicate Mirrors(q: Parsed, p: Parsed) {
    && q.proto == p.proto
    && q.src == p.dst && q.srcPort == p.dstPort
    && q.dst == p.src && q.dstPort == p.srcPort
  }

  /** How long an answer is awaited: five minutes for TCP, one for anything else. */
  function Window(proto: nat): int {
    (if proto == 6 then 300 else 60) * NANOSECONDS
  }

  lemma MirroredKeys(q: Parsed, p: Parsed)
    ensures ReplyKey(q) == OutKey(p) <==> Mirrors(q, p)
  {
  }

  /** In every history, an answer to something sent passes while it is awaited, whatever
      the rules are and whatever happened in between. */
  lemma AnswersPass(h: seq<Event>, o: nat, q: Parsed, now: int)
    requires Clocked(h) && Past(h, now) && o < |h| && h[o].Sent? && h[o].packet.Some?
    requires Mirrors(q, h[o].packet.value) && now - h[o].at < Window(q.proto)
    ensures Passes(After(h), Some(q), now)
  {
    MirroredKeys(q, h[o].packet.value);
    assert Touch(h, ReplyKey(q), o) && End(h[o]) == h[o].at;
    assert Answered(h, ReplyKey(q), now);
    TableMatchesHistory(h, Some(q), now);
  }

  /** And once the filter is on, a packet that no rule allows passes only as an answer to
      something sent. */
  lemma OnlyAnswersPass(h: seq<Event>, q: Parsed, now: int) returns (o: nat)
    requires Clocked(h) && Past(h, now) && After(h).on
    requires !Allowed(RulesIn(h), q) && Passes(After(h), Some(q), now)
    ensures o < |h| && h[o].Sent? && h[o].packet.Some? && Mirrors(q, h[o].packet.value)
  {
    RulesSpelled(RulesIn(h), q);
    o := OnlyRepliesPass(h, Some(q), now);
    MirroredKeys(q, h[o].packet.value);
  }

  /** Right after something was sent, with no other word on the conversation, the window is
      exact. */
  lemma WindowExactly(t: Table, p: Parsed, at: int, q: Parsed, now: int)
    requires t.on && Mirrors(q, p) && !Allowed(t.rules, q)
    ensures Passes(AfterOutbound(t, Some(p), at), Some(q), now) <==> now - at < Window(q.proto)
  {
    MirroredKeys(q, p);
    RulesSpelled(t.rules, q);
  }

  // ----- on octets ------------------------------------------------------------

  function ProtocolIn(h: Header): nat {
    if h.IPv4? then h.protocol as nat else h.next as nat
  }

  /** The two packets, field by field: addresses and ports exchanged. */
  predicate Exchanged(hq: Header, bq: Body, hp: Header, bp: Body) {
    && (hq.IPv4? <==> hp.IPv4?) && ProtocolIn(hq) == ProtocolIn(hp)
    && hq.source == hp.destination && hq.destination == hp.source
    && (hq.IPv4? ==> hq.offset == 0) && (hp.IPv4? ==> hp.offset == 0)
    && (ProtocolIn(hp) == 6 || ProtocolIn(hp) == 17 ==>
          bp.Segment? && bq.Segment? && bq.srcPort == bp.dstPort && bq.dstPort == bp.srcPort)
  }

  lemma ExchangedMirrors(hq: Header, bq: Body, hp: Header, bp: Body)
    requires WellFormed(hq) && WellFormedBody(bq) && WellFormed(hp) && WellFormedBody(bp) && Exchanged(hq, bq, hp, bp)
    ensures Parse(Emit(hq, bq)).Some? <==> Parse(Emit(hp, bp)).Some?
    ensures Parse(Emit(hp, bp)).Some? ==> Mirrors(Parse(Emit(hq, bq)).value, Parse(Emit(hp, bp)).value)
    ensures Parse(Emit(hp, bp)).Some? ==> Parse(Emit(hp, bp)).value.proto == ProtocolIn(hp)
  {
    ParseReadsTheHeader(hq, bq);
    ParseReadsTheHeader(hp, bp);
  }

  /** The octets of an answer pass for as long as the protocol in the header allows. */
  lemma OctetsAnswered(t: Table, hp: Header, bp: Body, at: int, hq: Header, bq: Body, now: int)
    requires WellFormed(hq) && WellFormedBody(bq) && WellFormed(hp) && WellFormedBody(bp) && Exchanged(hq, bq, hp, bp)
    requires now - at < Window(ProtocolIn(hp))
    ensures Passes(AfterOutbound(t, Parse(Emit(hp, bp)), at), Parse(Emit(hq, bq)), now)
  {
    ExchangedMirrors(hq, bq, hp, bp);
    if Parse(Emit(hp, bp)).Some? {
      MirroredKeys(Parse(Emit(hq, bq)).value, Parse(Emit(hp, bp)).value);
    }
  }

  // ----- rules and forgetting -------------------------------------------------

  predicate InSomeRange(ports: seq<PortRange>, port: int) {
    exists i :: 0 <= i < |ports| && ports[i].from <= port <= ports[i].to
  }

  /** What a rule means, with the protocols by their numbers. */
  predicate Spelled(r: Rule, proto: nat, port: int) {
    || r.protocol == All
    || (r.protocol == ICMP && (proto == 1 || proto == 58))
    || (r.protocol == TCP && proto == 6 && (r.ports == [] || InSomeRange(r.ports, port)))
    || (r.protocol == UDP && proto == 17 && (r.ports == [] || InSomeRange(r.ports, port)))
  }

  ghost predicate Allowed(rules: Rules, p: Parsed) {
    p.src in rules && exists i :: 0 <= i < |rules[p.src]| && Spelled(rules[p.src][i], p.proto, p.dstPort)
  }

  lemma RuleSpelled(r: Rule, proto: nat, port: int)
    ensures Allows(r, proto, port) <==> Spelled(r, proto, port)
  {
    forall i | 0 <= i < |r.ports| ensures Contains(r.ports[i], port) <==> r.ports[i].from <= port <= r.ports[i].to {
    }
  }

  /** A packet may start something exactly when a rule of its source is for it. */
  lemma RulesSpelled(rules: Rules, p: Parsed)
    ensures MayStart(rules, p) <==> Allowed(rules, p)
  {
    if p.src in rules {
      forall i | 0 <= i < |rules[p.src]| ensures Allows(rules[p.src][i], p.proto, p.dstPort) <==> Spelled(rules[p.src][i], p.proto, p.dstPort) {
        RuleSpelled(rules[p.src][i], p.proto, p.dstPort);
      }
    }
  }

  /** Pruning forgets exactly the conversations silent for more than five minutes. */
  lemma PrunesExactly(t: Table, now: int, key: Flow)
    ensures key in AfterPrune(t, now).flows <==> key in t.flows && now - t.flows[key] <= 300 * NANOSECONDS
    ensures key in AfterPrune(t, now).flows ==> AfterPrune(t, now).flows[key] == t.flows[key]
    ensures AfterPrune(t, now).on == t.on && AfterPrune(t, now).rules == t.rules
  {
  }
}
