/**
 The interface between the in-process WireGuard and the operating system, where
 the filter sees every packet.

 `Write` packs the buffers it keeps to the front of the very slice it is reading.
 */
module FilteredTun {
  import opened Wrappers
  import opened Packets
  import opened PacketFilter

  type Buffer = seq<byte>

  /** The two readings of the clock one inbound packet may cost. */
  datatype Reading = Reading(now: int, later: int)

  /** What the filter does with a list of buffers, one after the other: the
      verdict on each, and the state it is left in. */
  datatype Judgement = Judgement(verdicts: seq<bool>, table: Table)

  predicate AllLong(bufs: seq<Buffer>, offset: nat) {
    forall i :: 0 <= i < |bufs| ==> offset <= |bufs[i]|
  }

  /** What the buffers of a write hold. */
  function ReadIn(bufs: seq<Buffer>, offset: nat): (packets: seq<Packet>)
    requires AllLong(bufs, offset)
    ensures |packets| == |bufs| && forall i :: 0 <= i < |bufs| ==> packets[i] == Parse(bufs[i][offset..])
  {
    if bufs == [] then [] else ReadIn(bufs[..|bufs| - 1], offset) + [Parse(bufs[|bufs| - 1][offset..])]
  }

  function Judge(t: Table, packets: seq<Packet>, clock: seq<Reading>): Judgement
    requires |packets| <= |clock|
  {
    if packets == [] then Judgement([], t)
    else
      var k := |packets| - 1;
      Judged(Judge(t, packets[..k], clock), packets[k], clock[k])
  }

  function Judged(j: Judgement, packet: Packet, r: Reading): Judgement {
    Judgement(j.verdicts + [Passes(j.table, packet, r.now)], AfterInbound(j.table, packet, r.now, r.later))
  }

  lemma JudgeGrows(t: Table, packets: seq<Packet>, i: nat, clock: seq<Reading>)
    requires i < |packets| <= |clock|
    ensures Judge(t, packets[..i + 1], clock) == Judged(Judge(t, packets[..i], clock), packets[i], clock[i])
  {
    assert packets[..i + 1][..i] == packets[..i];
  }

  /** The positions that hold true, in order. */
  function Positions(marks: seq<bool>): seq<nat> {
    if marks == [] then []
    else Positions(marks[..|marks| - 1]) + if marks[|marks| - 1] then [|marks| - 1] else []
  }

  lemma {:induction false} PositionsTrue(marks: seq<bool>)
    ensures forall j :: 0 <= j < |Positions(marks)| ==> Positions(marks)[j] < |marks| && marks[Positions(marks)[j]]
    decreases |marks|
  {
    if marks != [] {
      PositionsTrue(marks[..|marks| - 1]);
    }
  }

  lemma {:induction false} PositionsRise(marks: seq<bool>, j: nat, k: nat)
    requires j < k < |Positions(marks)|
    ensures Positions(marks)[j] < Positions(marks)[k]
    decreases |marks|
  {
    var rest := marks[..|marks| - 1];
    PositionsTrue(rest);
    if k < |Positions(rest)| {
      PositionsRise(rest, j, k);
    }
  }

  lemma {:induction false} PositionsAll(marks: seq<bool>, i: nat)
    requires i < |marks| && marks[i]
    ensures i in Positions(marks)
    decreases |marks|
  {
    if i < |marks| - 1 {
      PositionsAll(marks[..|marks| - 1], i);
    }
  }

  /** They are exactly the true ones, each once and rising. */
  lemma PositionsExact(marks: seq<bool>)
    ensures forall j :: 0 <= j < |Positions(marks)| ==> Positions(marks)[j] < |marks| && marks[Positions(marks)[j]]
    ensures forall j, k :: 0 <= j < k < |Positions(marks)| ==> Positions(marks)[j] < Positions(marks)[k]
    ensures forall i :: 0 <= i < |marks| && marks[i] ==> i in Positions(marks)
  {
    PositionsTrue(marks);
    forall j, k | 0 <= j < k < |Positions(marks)| ensures Positions(marks)[j] < Positions(marks)[k] {
      PositionsRise(marks, j, k);
    }
    forall i | 0 <= i < |marks| && marks[i] ensures i in Positions(marks) {
      PositionsAll(marks, i);
    }
  }

  /** The buffers kept so far stand in front, in order, and nothing beyond them
      has been written over. */
  ghost predicate Packed(now: seq<Buffer>, was: seq<Buffer>, kept: seq<nat>) {
    && |kept| <= |now| == |was|
    && (forall j :: 0 <= j < |kept| ==> kept[j] < |was| && now[j] == was[kept[j]])
    && (forall j :: |kept| <= j < |was| ==> now[j] == was[j])
  }

  lemma PositionsStep(marks: seq<bool>)
    ensures Positions(marks + [true]) == Positions(marks) + [|marks|]
    ensures Positions(marks + [false]) == Positions(marks)
  {
    assert (marks + [true])[..|marks|] == marks;
    assert (marks + [false])[..|marks|] == marks;
  }

  /** Moving one more buffer forward keeps them packed. */
  lemma PackedStep(now: seq<Buffer>, was: seq<Buffer>, kept: seq<nat>, i: nat)
    requires |kept| <= i < |was| && Packed(now, was, kept)
    ensures now[i] == was[i] && Packed(now[|kept| := was[i]], was, kept + [i])
  {
    var now', kept' := now[|kept| := was[i]], kept + [i];
    forall j | 0 <= j < |kept'| ensures kept'[j] < |was| && now'[j] == was[kept'[j]] {
      assert j < |kept| ==> kept'[j] == kept[j] && now'[j] == now[j];
    }
  }

  /** One turn, whatever the verdict. */
  lemma PackedTurn(before: seq<Buffer>, now: seq<Buffer>, was: seq<Buffer>, verdicts: seq<bool>, pass: bool)
    requires |Positions(verdicts)| <= |verdicts| < |was| && Packed(before, was, Positions(verdicts))
    requires now == if pass then before[|Positions(verdicts)| := was[|verdicts|]] else before
    ensures Packed(now, was, Positions(verdicts + [pass]))
    ensures |Positions(verdicts + [pass])| == |Positions(verdicts)| + (if pass then 1 else 0)
  {
    PositionsStep(verdicts);
    if pass {
      PackedStep(before, was, Positions(verdicts), |verdicts|);
    }
  }

  /** Where the loop is after `i` buffers: they have been judged, the ones that pass stand
      packed in front, and the table is what judging them left. */
  ghost predicate Compacted(t0: Table, was: seq<Buffer>, packets: seq<Packet>, clock: seq<Reading>, i: nat, now: seq<Buffer>, keep: nat, t: Table) {
    i <= |packets| == |was| <= |clock| &&
    var j := Judge(t0, packets[..i], clock);
    |j.verdicts| == i && keep == |Positions(j.verdicts)| <= i && Packed(now, was, Positions(j.verdicts)) && t == j.table
  }

  /** The next buffer has not been written over. */
  lemma CompactedUnread(t0: Table, was: seq<Buffer>, packets: seq<Packet>, clock: seq<Reading>, i: nat, now: seq<Buffer>, keep: nat, t: Table)
    requires i < |was| && Compacted(t0, was, packets, clock, i, now, keep, t)
    ensures keep <= i < |now| == |was| && now[i] == was[i]
  {
  }

  lemma CompactedTurn(t0: Table, was: seq<Buffer>, packets: seq<Packet>, clock: seq<Reading>, i: nat, now: seq<Buffer>, keep: nat, t: Table,
                      pass: bool, now': seq<Buffer>, t': Table)
    requires i < |was| && Compacted(t0, was, packets, clock, i, now, keep, t) && |now| == |was| && keep <= i
    requires Judgement([pass], t') == Judged(Judgement([], t), packets[i], clock[i])
    requires now' == if pass then now[keep := was[i]] else now
    ensures Compacted(t0, was, packets, clock, i + 1, now', if pass then keep + 1 else keep, t')
  {
    JudgeGrows(t0, packets, i, clock);
    PackedTurn(now, now', was, Judge(t0, packets[..i], clock).verdicts, pass);
  }

  class Device {
    const filter: Filter
    /** What was handed to the interface underneath, call by call. */
    var written: seq<seq<Buffer>>

    constructor (filter: Filter)
      ensures this.filter == filter && written == []
    {
      this.filter := filter;
      written := [];
    }

    /** One turn of the loop: buffer `i` is judged, and moved to place `keep` if
        it passes. */
    method Consider(bufs: array<Buffer>, i: nat, keep: nat, offset: nat, r: Reading) returns (pass: bool)
      requires keep <= i < bufs.Length && offset <= |bufs[i]|
      modifies bufs, filter`flows
      ensures Judgement([pass], filter.State()) == Judged(Judgement([], old(filter.State())), Parse(old(bufs[i])[offset..]), r)
      ensures bufs[..] == if pass then old(bufs[..])[keep := old(bufs[i])] else old(bufs[..])
    {
      var b := bufs[i];
      pass := filter.Inbound(b[offset..], r.now, r.later);
      if pass {
        bufs[keep] := b;
      }
    }

    /** The loop: every buffer is judged once, in order, and the ones that pass
        are moved to the front of the slice being read. */
    method Compact(bufs: array<Buffer>, offset: nat, clock: seq<Reading>) returns (keep: nat)
      requires |clock| >= bufs.Length && AllLong(bufs[..], offset)
      modifies bufs, filter`flows
      ensures var j := Judge(old(filter.State()), ReadIn(old(bufs[..]), offset), clock);
              && keep == |Positions(j.verdicts)|
              && Packed(bufs[..], old(bufs[..]), Positions(j.verdicts))
              && filter.State() == j.table
    {
      ghost var was, t0 := bufs[..], filter.State();
      ghost var packets := ReadIn(was, offset);
      keep := 0;
      for i := 0 to bufs.Length
        invariant Compacted(t0, was, packets, clock, i, bufs[..], keep, filter.State())
      {
        ghost var before, t := bufs[..], filter.State();
        CompactedUnread(t0, was, packets, clock, i, before, keep, t);
        assert bufs[i] == before[i] && offset <= |was[i]|;
        var pass := Consider(bufs, i, keep, offset, clock[i]);
        CompactedTurn(t0, was, packets, clock, i, before, keep, t, pass, bufs[..], filter.State());
        if pass {
          keep := keep + 1;
        }
      }
      assert packets[..bufs.Length] == packets;
    }

    /** `works` is whether the interface underneath takes what it is given.  The
        result is the count the caller is told. */
    method Write(bufs: array<Buffer>, offset: nat, clock: seq<Reading>, works: bool) returns (n: nat)
      requires |clock| >= bufs.Length && AllLong(bufs[..], offset)
      modifies bufs, this`written, filter`flows
      ensures var j := Judge(old(filter.State()), ReadIn(old(bufs[..]), offset), clock);
              var kept := Positions(j.verdicts);
              && filter.State() == j.table
              && Packed(bufs[..], old(bufs[..]), kept)
              && written == (if kept == [] then old(written) else old(written) + [bufs[..|kept|]])
              && n == if kept == [] || works then bufs.Length else 0
    {
      var keep := Compact(bufs, offset, clock);
      if keep == 0 {
        return bufs.Length;
      }
      written := written + [bufs[..keep]];
      n := if works then bufs.Length else 0;
    }

    /** What `Read` adds to a read: every packet on its way out is recorded, and the
        table is otherwise as it was.  `clock` is what the clock says for each. */
    method Record(bufs: seq<Buffer>, sizes: seq<nat>, offset: nat, n: nat, clock: seq<int>)
      requires n <= |bufs| && n <= |sizes| && n <= |clock| && forall i :: 0 <= i < n ==> offset + sizes[i] <= |bufs[i]|
      modifies filter`flows
      ensures filter.State() == Recorded(old(filter.State()), ReadOut(bufs, sizes, offset, n), clock)
    {
      for i := 0 to n
        invariant filter.State() == Recorded(old(filter.State()), ReadOut(bufs, sizes, offset, i), clock)
      {
        ghost var t := filter.State();
        var packet := bufs[i][offset..offset + sizes[i]];
        filter.Outbound(packet, clock[i]);
        RecordedTurn(old(filter.State()), bufs, sizes, offset, i, clock, t, packet, filter.State());
      }
    }
  }

  /** What the first `n` buffers of a read hold. */
  function ReadOut(bufs: seq<Buffer>, sizes: seq<nat>, offset: nat, n: nat): (packets: seq<Packet>)
    requires n <= |bufs| && n <= |sizes| && forall i :: 0 <= i < n ==> offset + sizes[i] <= |bufs[i]|
    ensures |packets| == n
  {
    if n == 0 then [] else ReadOut(bufs, sizes, offset, n - 1) + [Parse(bufs[n - 1][offset..offset + sizes[n - 1]])]
  }

  /** The table after these packets went out. */
  function Recorded(t: Table, packets: seq<Packet>, clock: seq<int>): Table
    requires |packets| <= |clock|
  {
    if packets == [] then t
    else AfterOutbound(Recorded(t, packets[..|packets| - 1], clock), packets[|packets| - 1], clock[|packets| - 1])
  }

  lemma RecordedTurn(t0: Table, bufs: seq<Buffer>, sizes: seq<nat>, offset: nat, i: nat, clock: seq<int>, t: Table, packet: Buffer, t': Table)
    requires i < |bufs| && i < |sizes| && i < |clock| && forall j :: 0 <= j <= i ==> offset + sizes[j] <= |bufs[j]|
    requires packet == bufs[i][offset..offset + sizes[i]]
    requires t == Recorded(t0, ReadOut(bufs, sizes, offset, i), clock) && t' == AfterOutbound(t, Parse(packet), clock[i])
    ensures t' == Recorded(t0, ReadOut(bufs, sizes, offset, i + 1), clock)
  {
    ReadOutGrows(bufs, sizes, offset, i, packet);
    RecordedGrows(t0, ReadOut(bufs, sizes, offset, i), Parse(packet), clock);
  }

  lemma ReadOutGrows(bufs: seq<Buffer>, sizes: seq<nat>, offset: nat, i: nat, packet: Buffer)
    requires i < |bufs| && i < |sizes| && forall j :: 0 <= j <= i ==> offset + sizes[j] <= |bufs[j]|
    requires packet == bufs[i][offset..offset + sizes[i]]
    ensures ReadOut(bufs, sizes, offset, i + 1) == ReadOut(bufs, sizes, offset, i) + [Parse(packet)]
  {
  }

  lemma RecordedGrows(t: Table, packets: seq<Packet>, packet: Packet, clock: seq<int>)
    requires |packets| < |clock|
    ensures Recorded(t, packets + [packet], clock) == AfterOutbound(Recorded(t, packets, clock), packet, clock[|packets|])
  {
    assert (packets + [packet])[..|packets|] == packets;
  }

  predicate Speaks(packet: Packet, key: Flow) {
    packet.Some? && OutKey(packet.value) == key
  }

  /** The last packet on a conversation, if there is one. */
  function LastOn(packets: seq<Packet>, key: Flow): Option<nat> {
    if packets == [] then None
    else if Speaks(packets[|packets| - 1], key) then Some(|packets| - 1)
    else LastOn(packets[..|packets| - 1], key)
  }

  /** Exactly the conversations spoken on are stamped, each with the time of its last
      packet, and no other entry changes, comes or goes. */
  lemma {:induction false} RecordedExactly(t: Table, packets: seq<Packet>, clock: seq<int>, key: Flow)
    requires |packets| <= |clock|
    ensures var t', last := Recorded(t, packets, clock), LastOn(packets, key);
            && t'.on == t.on && t'.rules == t.rules
            && (last.Some? ==> last.value < |clock| && key in t'.flows && t'.flows[key] == clock[last.value])
            && (last.None? ==> (key in t'.flows <==> key in t.flows) && (key in t.flows ==> t'.flows[key] == t.flows[key]))
    decreases |packets|
  {
    if packets != [] {
      RecordedExactly(t, packets[..|packets| - 1], clock, key);
    }
  }

  /** Recording a packet lets its answer in, for as long as its protocol allows
      and whatever the rules. */
  lemma RecordedIsAnswerable(t: Table, sent: Parsed, at: int, reply: Parsed, now: int)
    requires ReplyKey(reply) == OutKey(sent)
    requires now - at < IdleFor(sent.proto)
    ensures Passes(AfterOutbound(t, Some(sent), at), Some(reply), now)
  {
  }

  /** Packets that come in, as events of the filter's history. */
  function Arrivals(packets: seq<Packet>, clock: seq<Reading>): (h: seq<Event>)
    requires |packets| <= |clock|
    ensures |h| == |packets| && forall i :: 0 <= i < |packets| ==> h[i] == Arrived(packets[i], clock[i].now, clock[i].later)
  {
    if packets == [] then []
    else
      var k := |packets| - 1;
      Arrivals(packets[..k], clock) + [Arrived(packets[k], clock[k].now, clock[k].later)]
  }

  lemma AfterSnoc(h: seq<Event>, e: Event)
    ensures After(h + [e]) == Step(After(h), e)
  {
    var all := h + [e];
    assert all[..|all| - 1] == h && all[|all| - 1] == e;
  }

  /** Judging the packets of one write is letting them arrive one after another: the table
      is the one of that history. */
  lemma {:induction false} WriteIsHistory(h: seq<Event>, packets: seq<Packet>, clock: seq<Reading>)
    requires |packets| <= |clock|
    ensures Judge(After(h), packets, clock).table == After(h + Arrivals(packets, clock))
    decreases |packets|
  {
    var es := Arrivals(packets, clock);
    if packets == [] {
      assert h + [] == h;
    } else {
      var k := |packets| - 1;
      WriteIsHistory(h, packets[..k], clock);
      var before := Arrivals(packets[..k], clock);
      assert h + es == (h + before) + [es[k]];
      AfterSnoc(h + before, es[k]);
    }
  }

  /** And each is judged by what came before it. */
  lemma {:induction false} JudgedByHistory(h: seq<Event>, packets: seq<Packet>, clock: seq<Reading>, i: nat)
    requires i < |packets| <= |clock|
    ensures |Judge(After(h), packets, clock).verdicts| == |packets|
    ensures Judge(After(h), packets, clock).verdicts[i] == Passes(After(h + Arrivals(packets[..i], clock)), packets[i], clock[i].now)
    decreases |packets|
  {
    var k := |packets| - 1;
    WriteIsHistory(h, packets[..k], clock);
    if i < k {
      JudgedByHistory(h, packets[..k], clock, i);
      assert packets[..k][..i] == packets[..i];
    } else if k > 0 {
      JudgedByHistory(h, packets[..k], clock, 0);
    }
  }
}
