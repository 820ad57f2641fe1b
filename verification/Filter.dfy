/**
 The stateful packet filter.

 `Table` is what the code keeps: the rules in force and one time stamp per
 conversation, with entries dropped when they expire.  `Answered` is what the
 table is for, told from the whole history of what was sent and received and
 without any table: the two give the same verdict on every packet.
 */
module PacketFilter {
  import opened Wrappers
  import opened Packets

  const SECOND := 1_000_000_000
  const TCP_IDLE := 300 * SECOND
  const OTHER_IDLE := 60 * SECOND

  /** `Unknown` is any protocol name the filter has no case for. */
  datatype Protocol = All | TCP | UDP | ICMP | Unknown

  datatype PortRange = PortRange(from: int, to: int)

  datatype Rule = Rule(protocol: Protocol, ports: seq<PortRange>)

  type Rules = map<Addr, seq<Rule>>

  predicate Contains(p: PortRange, port: int) {
    p.from <= port <= p.to
  }

  predicate SomeContains(ports: seq<PortRange>, port: int) {
    exists i :: 0 <= i < |ports| && Contains(ports[i], port)
  }

  predicate Allows(r: Rule, proto: nat, port: int) {
    match r.protocol
    case All => true
    case ICMP => IsPing(proto)
    case TCP => proto == PROTO_TCP && (r.ports == [] || SomeContains(r.ports, port))
    case UDP => proto == PROTO_UDP && (r.ports == [] || SomeContains(r.ports, port))
    case Unknown => false
  }

  /** What the rules of a source say about a packet from it. */
  predicate MayStart(rules: Rules, p: Parsed) {
    p.src in rules && exists i :: 0 <= i < |rules[p.src]| && Allows(rules[p.src][i], p.proto, p.dstPort)
  }

  /** What `Parse` made of a packet: nothing, or the little the filter needs. */
  type Packet = Option<Parsed>

  /** The two ends of a conversation, this machine's first. */
  datatype Flow = Flow(proto: nat, local: Addr, remote: Addr, localPort: nat, remotePort: nat)

  function OutKey(p: Parsed): Flow { Flow(p.proto, p.src, p.dst, p.srcPort, p.dstPort) }

  function ReplyKey(p: Parsed): Flow { Flow(p.proto, p.dst, p.src, p.dstPort, p.srcPort) }

  function IdleFor(proto: nat): int {
    if proto == PROTO_TCP then TCP_IDLE else OTHER_IDLE
  }

  // ---------------------------------------------------------------------------
  // The table
  // ---------------------------------------------------------------------------

  datatype Table = Table(on: bool, rules: Rules, flows: map<Flow, int>)

  const OPEN := Table(false, map[], map[])

  function AfterOutbound(t: Table, packet: Packet, now: int): Table {
    match packet
    case None => t
    case Some(p) => t.(flows := t.flows[OutKey(p) := now])
  }

  predicate Live(t: Table, key: Flow, now: int) {
    key in t.flows && now - t.flows[key] < IdleFor(key.proto)
  }

  predicate Passes(t: Table, packet: Packet, now: int) {
    !t.on ||
    match packet
    case None => true
    case Some(p) => Live(t, ReplyKey(p), now) || MayStart(t.rules, p)
  }

  /** `now` is the clock when the stamp was compared and `later` the clock when a
      new one was written. */
  function AfterInbound(t: Table, packet: Packet, now: int, later: int): Table {
    if !t.on then t else
    match packet
    case None => t
    case Some(p) =>
      var key := ReplyKey(p);
      if Live(t, key, now) then t.(flows := t.flows[key := later])
      else t.(flows := t.flows - {key})
  }

  function AfterPrune(t: Table, now: int): Table {
    t.(flows := map k | k in t.flows && now - t.flows[k] <= TCP_IDLE :: t.flows[k])
  }

  /** The filter as the code holds it.  Each method is one of the functions
      above. */
  class Filter {
    var on: bool
    var rules: Rules
    var flows: map<Flow, int>

    function State(): Table
      reads this
    {
      Table(on, rules, flows)
    }

    constructor ()
      ensures State() == OPEN
    {
      on, rules, flows := false, map[], map[];
    }

    method SetRules(rules: Rules)
      modifies this`rules, this`on
      ensures State() == Table(true, rules, old(flows))
    {
      this.rules := rules;
      on := true;
    }

    method Outbound(packet: seq<byte>, now: int)
      modifies this`flows
      ensures State() == AfterOutbound(old(State()), Parse(packet), now)
    {
      var parsed := Parse(packet);
      if parsed.None? {
        return;
      }
      flows := flows[OutKey(parsed.value) := now];
    }

    method Inbound(packet: seq<byte>, now: int, later: int) returns (pass: bool)
      modifies this`flows
      ensures pass == Passes(old(State()), Parse(packet), now)
      ensures State() == AfterInbound(old(State()), Parse(packet), now, later)
    {
      if !on {
        return true;
      }
      var parsed := Parse(packet);
      if parsed.None? {
        return true;
      }
      var p := parsed.value;
      var key := ReplyKey(p);
      if key in flows {
        if now - flows[key] < IdleFor(p.proto) {
          flows := flows[key := later];
          return true;
        }
        flows := flows - {key};
      }
      var list := if p.src in rules then rules[p.src] else [];
      for i := 0 to |list|
        invariant forall j :: 0 <= j < i ==> !Allows(list[j], p.proto, p.dstPort)
      {
        if Allows(list[i], p.proto, p.dstPort) {
          return true;
        }
      }
      return false;
    }

    method Prune(now: int)
      modifies this`flows
      ensures State() == AfterPrune(old(State()), now)
    {
      ghost var before := flows;
      var todo := flows.Keys;
      while todo != {}
        invariant todo <= before.Keys
        invariant flows == map k | k in before && (k in todo || now - before[k] <= TCP_IDLE) :: before[k]
        decreases |todo|
      {
        var key :| key in todo;
        todo := todo - {key};
        if now - flows[key] > TCP_IDLE {
          flows := flows - {key};
        }
      }
    }
  }

  // ---------------------------------------------------------------------------
  // Histories
  // ---------------------------------------------------------------------------

  datatype Event =
    | Sent(packet: Packet, at: int)
    | Arrived(packet: Packet, at: int, stamped: int)
    | RulesSet(rules: Rules, at: int)
    | PrunedAt(at: int)

  function End(e: Event): int {
    if e.Arrived? then e.stamped else e.at
  }

  /** The clock never goes back, within an event or between two. */
  ghost predicate Clocked(h: seq<Event>) {
    && (forall i :: 0 <= i < |h| ==> h[i].at <= End(h[i]))
    && (forall i, j :: 0 <= i < j < |h| ==> End(h[i]) <= h[j].at)
  }

  function Step(t: Table, e: Event): Table {
    match e
    case Sent(packet, at) => AfterOutbound(t, packet, at)
    case Arrived(packet, at, stamped) => AfterInbound(t, packet, at, stamped)
    case RulesSet(rules, _) => Table(true, rules, t.flows)
    case PrunedAt(at) => AfterPrune(t, at)
  }

  function After(h: seq<Event>): Table {
    if h == [] then OPEN else Step(After(h[..|h| - 1]), h[|h| - 1])
  }

  /** Rules have been set before event `n`. */
  ghost predicate On(h: seq<Event>, n: nat) {
    exists j :: 0 <= j < n && j < |h| && h[j].RulesSet?
  }

  /** The rules set last. */
  function RulesIn(h: seq<Event>): Rules {
    if h == [] then map[]
    else if h[|h| - 1].RulesSet? then h[|h| - 1].rules
    else RulesIn(h[..|h| - 1])
  }

  /** Event `i` kept the conversation `key` going: this machine said something on
      it, or the other end answered something that was not yet too old. */
  ghost predicate Touch(h: seq<Event>, key: Flow, i: nat) {
    i < |h| &&
    match h[i]
    case Sent(packet, _) => packet.Some? && OutKey(packet.value) == key
    case Arrived(packet, at, _) =>
      && On(h, i)
      && packet.Some? && ReplyKey(packet.value) == key
      && exists j :: 0 <= j < i && Touch(h, key, j) && at - End(h[j]) < IdleFor(key.proto)
    case _ => false
  }

  /** The conversation is one this machine started, and it has not been silent for
      longer than its protocol allows. */
  ghost predicate Answered(h: seq<Event>, key: Flow, now: int) {
    exists i :: 0 <= i < |h| && Touch(h, key, i) && now - End(h[i]) < IdleFor(key.proto)
  }

  /** The verdict, from the history alone. */
  ghost predicate ShouldPass(h: seq<Event>, packet: Packet, now: int) {
    !On(h, |h|) ||
    match packet
    case None => true
    case Some(p) => Answered(h, ReplyKey(p), now) || MayStart(RulesIn(h), p)
  }

  /** When the conversation was last kept going. */
  function LastTouch(h: seq<Event>, key: Flow): Option<int> {
    if h == [] then None
    else
      var before, e := h[..|h| - 1], h[|h| - 1];
      var last := LastTouch(before, key);
      match e
      case Sent(packet, at) =>
        if packet.Some? && OutKey(packet.value) == key then Some(at) else last
      case Arrived(packet, at, stamped) =>
        if After(before).on && packet.Some? && ReplyKey(packet.value) == key
           && last.Some? && at - last.value < IdleFor(key.proto)
        then Some(stamped) else last
      case _ => last
  }

  // ----- the last touch is the latest one -------------------------------------

  lemma TouchOfPrefix(h: seq<Event>, n: nat, key: Flow, i: nat)
    requires n <= |h| && i < n
    ensures Touch(h[..n], key, i) <==> Touch(h, key, i)
    decreases i
  {
    assert h[..n][i] == h[i];
    assert On(h[..n], i) <==> On(h, i) by {
      if j :| 0 <= j < i && j < |h| && h[j].RulesSet? {
        assert h[..n][j].RulesSet?;
      }
    }
    forall j | 0 <= j < i ensures Touch(h[..n], key, j) <==> Touch(h, key, j) {
      TouchOfPrefix(h, n, key, j);
    }
  }

  lemma {:induction false} OnIsOn(h: seq<Event>)
    ensures After(h).on <==> On(h, |h|)
    ensures After(h).rules == RulesIn(h)
    decreases |h|
  {
    if h != [] {
      var k := |h| - 1;
      OnIsOn(h[..k]);
      if After(h[..k]).on {
        var j :| 0 <= j < k && h[..k][j].RulesSet?;
        assert h[j].RulesSet?;
      }
      if j :| 0 <= j < |h| && h[j].RulesSet? {
        assert j < k ==> h[..k][j].RulesSet?;
      }
    }
  }

  /** Every touch is no later than the last one, and the last one is a touch. */
  ghost predicate Latest(h: seq<Event>, key: Flow, last: Option<int>) {
    && (forall i :: 0 <= i < |h| && Touch(h, key, i) ==> last.Some? && End(h[i]) <= last.value)
    && (last.Some? ==> exists i :: 0 <= i < |h| && Touch(h, key, i) && End(h[i]) == last.value)
  }

  lemma OnBefore(h: seq<Event>, k: nat)
    requires k < |h|
    ensures After(h[..k]).on <==> On(h, k)
  {
    OnIsOn(h[..k]);
    if j :| 0 <= j < k && h[j].RulesSet? {
      assert h[..k][j].RulesSet?;
    }
  }

  lemma LatestOfPrefix(h: seq<Event>, key: Flow, last: Option<int>, k: nat)
    requires k + 1 == |h| && Latest(h[..k], key, last)
    ensures forall i :: 0 <= i < k && Touch(h, key, i) ==> last.Some? && End(h[i]) <= last.value
    ensures last.Some? ==> exists i :: 0 <= i < k && Touch(h, key, i) && End(h[i]) == last.value
  {
    forall i | 0 <= i < k ensures Touch(h[..k], key, i) <==> Touch(h, key, i) {
      TouchOfPrefix(h, k, key, i);
    }
    if last.Some? {
      var i :| 0 <= i < k && Touch(h[..k], key, i) && End(h[..k][i]) == last.value;
      assert Touch(h, key, i) && End(h[i]) == last.value;
    }
  }

  lemma LastTouchStep(h: seq<Event>, key: Flow, k: nat)
    requires Clocked(h) && k + 1 == |h| && Latest(h[..k], key, LastTouch(h[..k], key))
    ensures LastTouch(h, key) == if Touch(h, key, k) then Some(End(h[k])) else LastTouch(h[..k], key)
  {
    OnBefore(h, k);
    LatestOfPrefix(h, key, LastTouch(h[..k], key), k);
  }

  lemma {:induction false} LastTouchIsLatest(h: seq<Event>, key: Flow)
    requires Clocked(h)
    ensures Latest(h, key, LastTouch(h, key))
    decreases |h|
  {
    if h != [] {
      var k := |h| - 1;
      var last := LastTouch(h[..k], key);
      LastTouchIsLatest(h[..k], key);
      LastTouchStep(h, key, k);
      LatestOfPrefix(h, key, last, k);
      if last.Some? && !Touch(h, key, k) {
        var i :| 0 <= i < k && Touch(h, key, i) && End(h[i]) == last.value;
      }
    }
  }

  lemma AnsweredIsRecent(h: seq<Event>, key: Flow, now: int)
    requires Clocked(h)
    ensures Answered(h, key, now) <==> LastTouch(h, key).Some? && now - LastTouch(h, key).value < IdleFor(key.proto)
  {
    LastTouchIsLatest(h, key);
  }

  // ----- the table forgets only what is dead ----------------------------------

  /** No event of the history ends after `now`. */
  ghost predicate Past(h: seq<Event>, now: int) {
    forall i :: 0 <= i < |h| ==> End(h[i]) <= now
  }

  /** A conversation in the table has its last touch there, and one that is not in
      it is past saving. */
  ghost predicate Remembers(flows: map<Flow, int>, h: seq<Event>, key: Flow, now: int) {
    if key in flows then LastTouch(h, key) == Some(flows[key])
    else LastTouch(h, key).Some? ==> now - LastTouch(h, key).value >= IdleFor(key.proto)
  }

  lemma {:induction false} TableRemembers(h: seq<Event>, key: Flow, now: int)
    requires Clocked(h) && Past(h, now)
    ensures Remembers(After(h).flows, h, key, now)
    decreases |h|
  {
    if h != [] {
      var k := |h| - 1;
      var e := h[k];
      assert Past(h[..k], e.at);
      assert e.at <= End(e) <= now;
      TableRemembers(h[..k], key, e.at);
    }
  }

  /** For every history of packets, rule changes and prunes, under a clock that
      never goes back, the flow table and the history give the same verdict. */
  lemma TableMatchesHistory(h: seq<Event>, packet: Packet, now: int)
    requires Clocked(h) && Past(h, now)
    ensures Passes(After(h), packet, now) <==> ShouldPass(h, packet, now)
  {
    OnIsOn(h);
    if packet.Some? {
      var key := ReplyKey(packet.value);
      TableRemembers(h, key, now);
      AnsweredIsRecent(h, key, now);
    }
  }

  // ----- what follows ---------------------------------------------------------

  function WithoutPrunes(h: seq<Event>): seq<Event> {
    if h == [] then []
    else WithoutPrunes(h[..|h| - 1]) + if h[|h| - 1].PrunedAt? then [] else [h[|h| - 1]]
  }

  lemma WithoutPrunesStep(h: seq<Event>)
    requires h != []
    ensures var g, e := WithoutPrunes(h[..|h| - 1]), h[|h| - 1];
            if e.PrunedAt? then WithoutPrunes(h) == g
            else WithoutPrunes(h) != [] && WithoutPrunes(h)[..|WithoutPrunes(h)| - 1] == g
                 && WithoutPrunes(h)[|WithoutPrunes(h)| - 1] == e
  {
  }

  lemma StepSets(t: Table, e: Event)
    ensures Step(t, e).on == (e.RulesSet? || t.on)
    ensures Step(t, e).rules == if e.RulesSet? then e.rules else t.rules
  {
  }

  lemma {:induction false} PrunesSetNothing(h: seq<Event>)
    ensures After(WithoutPrunes(h)).on == After(h).on && After(WithoutPrunes(h)).rules == After(h).rules
    decreases |h|
  {
    if h != [] {
      var k := |h| - 1;
      PrunesSetNothing(h[..k]);
      WithoutPrunesStep(h);
      StepSets(After(h[..k]), h[k]);
      StepSets(After(WithoutPrunes(h[..k])), h[k]);
      assert After(h) == Step(After(h[..k]), h[k]);
      assert !h[k].PrunedAt? ==> After(WithoutPrunes(h)) == Step(After(WithoutPrunes(h[..k])), h[k]);
    }
  }

  lemma {:induction false} PrunesTouchNothing(h: seq<Event>, key: Flow)
    ensures LastTouch(WithoutPrunes(h), key) == LastTouch(h, key)
    decreases |h|
  {
    if h != [] {
      PrunesTouchNothing(h[..|h| - 1], key);
      PrunesSetNothing(h[..|h| - 1]);
      WithoutPrunesStep(h);
    }
  }

  lemma {:induction false} PastWithoutPrunes(h: seq<Event>, now: int)
    requires Past(h, now)
    ensures Past(WithoutPrunes(h), now)
    decreases |h|
  {
    if h != [] {
      PastWithoutPrunes(h[..|h| - 1], now);
    }
  }

  lemma ClockedSnoc(h: seq<Event>, e: Event)
    requires Clocked(h) && Past(h, e.at) && e.at <= End(e)
    ensures Clocked(h + [e])
  {
  }

  lemma {:induction false} ClockedWithoutPrunes(h: seq<Event>)
    requires Clocked(h)
    ensures Clocked(WithoutPrunes(h))
    decreases |h|
  {
    if h != [] {
      var k := |h| - 1;
      ClockedWithoutPrunes(h[..k]);
      PastWithoutPrunes(h[..k], h[k].at);
      ClockedSnoc(WithoutPrunes(h[..k]), h[k]);
    }
  }

  /** Pruning, at any moments whatever, changes no later verdict. */
  lemma PruningIsInvisible(h: seq<Event>, packet: Packet, now: int)
    requires Clocked(h) && Past(h, now)
    ensures Passes(After(h), packet, now) <==> Passes(After(WithoutPrunes(h)), packet, now)
  {
    var g := WithoutPrunes(h);
    ClockedWithoutPrunes(h);
    PastWithoutPrunes(h, now);
    var key := if packet.Some? then ReplyKey(packet.value) else Flow(0, V4(0), V4(0), 0, 0);
    PrunesSetNothing(h);
    PrunesTouchNothing(h, key);
    TableRemembers(h, key, now);
    TableRemembers(g, key, now);
  }

  /** A conversation that is kept going was begun by this machine. */
  lemma TouchHasOrigin(h: seq<Event>, key: Flow, i: nat) returns (o: nat)
    requires i < |h| && Touch(h, key, i)
    ensures o <= i && h[o].Sent? && h[o].packet.Some? && OutKey(h[o].packet.value) == key
    decreases i
  {
    if h[i].Sent? {
      return i;
    }
    var j :| 0 <= j < i && Touch(h, key, j) && h[i].at - End(h[j]) < IdleFor(key.proto);
    o := TouchHasOrigin(h, key, j);
  }

  /** "Only one side may start" means something: a packet that no rule of its
      source allows passes only if this machine sent one on the same conversation
      before. */
  lemma OnlyRepliesPass(h: seq<Event>, packet: Packet, now: int) returns (o: nat)
    requires Clocked(h) && Past(h, now) && After(h).on
    requires packet.Some? && !MayStart(RulesIn(h), packet.value)
    requires Passes(After(h), packet, now)
    ensures o < |h| && h[o].Sent? && h[o].packet.Some?
    ensures OutKey(h[o].packet.value) == ReplyKey(packet.value)
  {
    TableMatchesHistory(h, packet, now);
    OnIsOn(h);
    var key := ReplyKey(packet.value);
    var i :| 0 <= i < |h| && Touch(h, key, i) && now - End(h[i]) < IdleFor(key.proto);
    o := TouchHasOrigin(h, key, i);
  }
}
