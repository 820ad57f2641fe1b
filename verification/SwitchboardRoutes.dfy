/**
 Whom the signal server gives an envelope to, told from the events of a run alone:
 who connected under which key, who registered, who unregistered, and what was read.
 */
module SwitchboardRoutes {
  import opened Wrappers
  import opened Switchboard

  // ---------------------------------------------------------------------------
  // What the events say
  // ---------------------------------------------------------------------------

  /** The key each connection said hello with. */
  function KeysOf(es: seq<Event>): seq<Key> {
    if es == [] then []
    else
      var before, e := KeysOf(es[..|es| - 1]), es[|es| - 1];
      if e.Connect? then before + [e.key] else before
  }

  /** The connection that registered last under a key. */
  function LastRegistered(es: seq<Event>, k: Key): Option<Id> {
    if es == [] then None
    else
      var before, e := es[..|es| - 1], es[|es| - 1];
      if e.Register? && e.c < |KeysOf(before)| && KeysOf(before)[e.c] == k then Some(e.c) else LastRegistered(before, k)
  }

  predicate HasLeft(es: seq<Event>, c: Id) {
    es != [] && (es[|es| - 1] == Unregister(c) || HasLeft(es[..|es| - 1], c))
  }

  /** Who has a key: the connection that registered last under it, unless that one has
      left. */
  function Owner(es: seq<Event>, k: Key): Option<Id> {
    match LastRegistered(es, k)
    case None => None
    case Some(c) => if HasLeft(es, c) then None else Some(c)
  }

  /** What a connection was heard to say, as it came. */
  function ReadBy(es: seq<Event>, c: Id): seq<Envelope> {
    if es == [] then []
    else
      var before, e := ReadBy(es[..|es| - 1], c), es[|es| - 1];
      if e.Receive? && e.c == c then before + [e.env] else before
  }

  /** An envelope under its sender's own key. */
  function Stamped(e: Envelope, key: Key): Envelope {
    Envelope(e.kind, key, e.to, e.body)
  }

  /** What its sender is told when nobody is there. */
  function Notice(e: Envelope, key: Key): Envelope {
    Envelope(Offline, e.to, key, "")
  }

  // ---------------------------------------------------------------------------
  // The table is what the events say
  // ---------------------------------------------------------------------------

  ghost predicate KeysTold(es: seq<Event>, s: Server) {
    |KeysOf(es)| == |s.conns| && forall c :: 0 <= c < |s.conns| ==> s.conns[c].key == KeysOf(es)[c]
  }

  ghost predicate LastTold(es: seq<Event>, s: Server) {
    forall k :: LastRegistered(es, k) == if k in s.last then Some(s.last[k]) else None
  }

  ghost predicate GoneTold(es: seq<Event>, s: Server) {
    forall c :: HasLeft(es, c) <==> c in s.gone
  }

  lemma HistoryChanges(s: Server, e: Event)
    requires Enabled(s, e)
    ensures Step(s, e).last == if e.Register? then s.last[s.conns[e.c].key := e.c] else s.last
    ensures Step(s, e).gone == if e.Unregister? then s.gone + {e.c} else s.gone
    ensures |Step(s, e).conns| == |s.conns| + (if e.Connect? then 1 else 0)
    ensures e.Connect? ==> Step(s, e).conns[|s.conns|].key == e.key
  {
  }

  lemma KeysStep(es: seq<Event>, s: Server, e: Event)
    requires Enabled(s, e) && KeysTold(es, s)
    ensures KeysTold(es + [e], Step(s, e))
  {
    assert (es + [e])[..|es|] == es;
    HistoryChanges(s, e);
    KeysNeverChange(s, e);
  }

  lemma LastStep(es: seq<Event>, s: Server, e: Event)
    requires Enabled(s, e) && KeysTold(es, s) && LastTold(es, s)
    ensures LastTold(es + [e], Step(s, e))
  {
    assert (es + [e])[..|es|] == es;
    HistoryChanges(s, e);
  }

  lemma GoneStep(es: seq<Event>, s: Server, e: Event)
    requires Enabled(s, e) && GoneTold(es, s)
    ensures GoneTold(es + [e], Step(s, e))
  {
    assert (es + [e])[..|es|] == es;
    HistoryChanges(s, e);
  }

  lemma {:induction false} EventsTell(es: seq<Event>, s: Server)
    requires Reaches(es, s)
    ensures KeysTold(es, s) && LastTold(es, s) && GoneTold(es, s)
    decreases |es|
  {
    if es != [] {
      var k := |es| - 1;
      var r :| Reaches(es[..k], r) && Enabled(r, es[k]) && s == Step(r, es[k]);
      EventsTell(es[..k], r);
      KeysStep(es[..k], r, es[k]);
      LastStep(es[..k], r, es[k]);
      GoneStep(es[..k], r, es[k]);
      assert es[..k] + [es[k]] == es;
    }
  }

  /** In every run the table has exactly the owners the events name. */
  lemma EntryIsOwner(es: seq<Event>, s: Server, k: Key)
    requires Reaches(es, s)
    ensures Owner(es, k) == if k in s.peers then Some(s.peers[k]) else None
    ensures Owner(es, k).Some? ==> Owner(es, k).value < |s.conns| && s.conns[Owner(es, k).value].key == k
  {
    EventsTell(es, s);
    EntryIsLastRegistered(es, s);
  }

  // ---------------------------------------------------------------------------
  // Whom an envelope goes to
  // ---------------------------------------------------------------------------

  /** An envelope that was read goes to the owner of the key it is addressed to, and to
      nobody else; only if there is no owner is it found to have nowhere to go. */
  lemma GoesToTheOwner(es: seq<Event>, s: Server, c: Id)
    requires Reaches(es, s) && Enabled(s, Lookup(c))
    ensures var env := s.conns[c].reader.env;
            Step(s, Lookup(c)).conns[c].reader ==
            match Owner(es, env.to)
            case Some(d) => Delivering(d, env)
            case None => Missing(env)
  {
    EntryIsOwner(es, s, s.conns[c].reader.env.to);
  }

  /** And then the owner of its sender's key is told so, if there is one. */
  lemma SenderIsTold(es: seq<Event>, s: Server, c: Id)
    requires Reaches(es, s) && Enabled(s, LookupSource(c))
    ensures var env := s.conns[c].reader.env;
            Step(s, LookupSource(c)).conns[c].reader ==
            match Owner(es, env.from)
            case Some(d) => Delivering(d, Envelope(Offline, env.to, env.from, ""))
            case None => Reading
  {
    EntryIsOwner(es, s, s.conns[c].reader.env.from);
  }

  /** What a reader is about to deliver is addressed to where it takes it. */
  predicate ReaderAddressed(s: Server, r: Reader) {
    r.Delivering? || r.Blocked? ==> r.dest < |s.conns| && r.env.to == s.conns[r.dest].key
  }

  ghost predicate ReadersAddressed(s: Server) {
    forall c :: 0 <= c < |s.conns| ==> ReaderAddressed(s, s.conns[c].reader)
  }

  predicate AllTo(items: seq<Item>, key: Key) {
    forall i :: 0 <= i < |items| ==> items[i].env.to == key
  }

  ghost predicate HeldAddressed(s: Server) {
    forall b :: 0 <= b < |s.conns| ==> AllTo(Held(s.conns[b]), s.conns[b].key)
  }

  lemma ReaderAddressedLasts(s: Server, s': Server, r: Reader)
    requires ReaderAddressed(s, r) && KeysKept(s, s')
    ensures ReaderAddressed(s', r)
  {
  }

  lemma EntryHasItsKey(s: Server, k: Key)
    requires Table(s) && k in s.peers
    ensures s.peers[k] < |s.conns| && s.conns[s.peers[k]].key == k
  {
  }

  lemma LookupAddresses(s: Server, e: Event)
    requires Table(s) && Enabled(s, e) && (e.Lookup? || e.LookupSource?)
    ensures ReaderAddressed(s, Step(s, e).conns[e.c].reader)
  {
    var env := s.conns[e.c].reader.env;
    var k := if e.Lookup? then env.to else env.from;
    if k in s.peers {
      EntryHasItsKey(s, k);
    }
  }

  lemma OwnReaderAddressed(s: Server, e: Event)
    requires ReadersAddressed(s) && Enabled(s, e) && !e.Connect? && !e.Lookup? && !e.LookupSource?
    ensures e.c < |Step(s, e).conns| && ReaderAddressed(s, Step(s, e).conns[e.c].reader)
  {
    assert ReaderAddressed(s, s.conns[e.c].reader);
  }

  lemma ReadersStep(s: Server, e: Event)
    requires Table(s) && ReadersAddressed(s) && Enabled(s, e)
    ensures ReadersAddressed(Step(s, e))
  {
    var s' := Step(s, e);
    KeysNeverChange(s, e);
    forall c | 0 <= c < |s'.conns| ensures ReaderAddressed(s', s'.conns[c].reader) {
      if c < |s.conns| {
        if e.Connect? || e.c != c {
          OthersKeepReading(s, e, c);
        } else if e.Lookup? || e.LookupSource? {
          LookupAddresses(s, e);
        } else {
          OwnReaderAddressed(s, e);
        }
        ReaderAddressedLasts(s, s', s'.conns[c].reader);
      }
    }
  }

  lemma HeldStep(s: Server, e: Event)
    requires ReadersAddressed(s) && HeldAddressed(s) && Enabled(s, e)
    ensures HeldAddressed(Step(s, e))
  {
    var s' := Step(s, e);
    KeysNeverChange(s, e);
    forall b | 0 <= b < |s'.conns| ensures AllTo(Held(s'.conns[b]), s'.conns[b].key) {
      HeldChanges(s, e, b);
      if b < |s.conns| && Finishes(e) {
        FinishedTraffic(s, e, b);
        assert ReaderAddressed(s, s.conns[e.c].reader);
      }
    }
  }

  /** In every run, everything a connection has been given, holds or has written, and
      everything on its way to it, is addressed to its own key. */
  lemma {:induction false} OnlyItsOwn(es: seq<Event>, s: Server)
    requires Reaches(es, s)
    ensures ReadersAddressed(s) && HeldAddressed(s)
    decreases |es|
  {
    if es != [] {
      var k := |es| - 1;
      var r :| Reaches(es[..k], r) && Enabled(r, es[k]) && s == Step(r, es[k]);
      OnlyItsOwn(es[..k], r);
      EntryIsLastRegistered(es[..k], r);
      ReadersStep(r, es[k]);
      HeldStep(r, es[k]);
    }
  }

  // ---------------------------------------------------------------------------
  // Nothing that was read is forgotten
  // ---------------------------------------------------------------------------

  /** What became of an envelope: it was sent on under its sender's key, or its sender was
      told that nobody was there, or there was nobody to tell either. */
  predicate Fate(f: Option<Routed>, e: Envelope, key: Key) {
    f.Some? ==> f.value.env == Stamped(e, key) || f.value.env == Notice(e, key)
  }

  /** The envelope in a reader's hand, if any, is the one it read last. */
  predicate InHand(r: Reader, read: seq<Envelope>, n: nat, key: Key) {
    match r
    case Routing(env) => |read| == n + 1 && env == Stamped(read[n], key)
    case Missing(env) => |read| == n + 1 && env == Stamped(read[n], key)
    case Delivering(_, env) => |read| == n + 1 && Fate(Some(Routed(0, env)), read[n], key)
    case Blocked(_, env) => |read| == n + 1 && Fate(Some(Routed(0, env)), read[n], key)
    case _ => |read| == n
  }

  function SentOn(fates: seq<Option<Routed>>): seq<Routed> {
    if fates == [] then []
    else SentOn(fates[..|fates| - 1]) + if fates[|fates| - 1].Some? then [fates[|fates| - 1].value] else []
  }

  ghost predicate Fated(fates: seq<Option<Routed>>, read: seq<Envelope>, key: Key) {
    |fates| <= |read| && forall i :: 0 <= i < |fates| ==> Fate(fates[i], read[i], key)
  }

  /** Every envelope read so far has had its fate, in order, or is in hand; and what was
      routed is what those fates say. */
  ghost predicate Accounted(c: Conn, read: seq<Envelope>) {
    InHand(c.reader, read, |c.fates|, c.key) && Fated(c.fates, read, c.key) && c.routed == SentOn(c.fates)
  }

  lemma SentOnSnoc(fates: seq<Option<Routed>>, f: Option<Routed>)
    ensures SentOn(fates + [f]) == SentOn(fates) + if f.Some? then [f.value] else []
  {
    assert (fates + [f])[..|fates|] == fates;
  }

  /** The reader of `c` is done with the envelope in its hand. */
  lemma FateAdded(c: Conn, c': Conn, read: seq<Envelope>, f: Option<Routed>)
    requires Accounted(c, read) && c'.key == c.key && c'.reader.Reading?
    requires |read| == |c.fates| + 1 && Fate(f, read[|c.fates|], c.key)
    requires c'.fates == c.fates + [f] && c'.routed == if f.Some? then c.routed + [f.value] else c.routed
    ensures Accounted(c', read)
  {
    SentOnSnoc(c.fates, f);
  }

  /** What one step does to a connection's reader and its fates. */
  ghost predicate Untouched(c: Conn, c': Conn) {
    c'.reader == c.reader && c'.key == c.key && c'.fates == c.fates && c'.routed == c.routed
  }

  lemma OthersUntouched(s: Server, e: Event, i: Id)
    requires Enabled(s, e) && i < |s.conns| && (e.Connect? || e.c != i)
    ensures i < |Step(s, e).conns| && Untouched(s.conns[i], Step(s, e).conns[i])
  {
  }

  lemma FinishAccounts(s: Server, e: Event, read: seq<Envelope>)
    requires Enabled(s, e) && Finishes(e) && Accounted(s.conns[e.c], read)
    ensures Accounted(Step(s, e).conns[e.c], read)
  {
    var r := s.conns[e.c].reader;
    FateAdded(s.conns[e.c], Step(s, e).conns[e.c], read, Some(Routed(r.dest, r.env)));
  }

  lemma ReceiveAccounts(c: Conn, read: seq<Envelope>, env: Envelope)
    requires Accounted(c, read) && c.reader.Reading?
    ensures Accounted(c.(reader := Routing(env.(from := c.key))), read + [env])
  {
    var now := read + [env];
    forall i | 0 <= i < |c.fates| ensures Fate(c.fates[i], now[i], c.key) {
      assert now[i] == read[i];
    }
  }

  lemma SourceAccounts(s: Server, c: Id, read: seq<Envelope>)
    requires Enabled(s, LookupSource(c)) && Accounted(s.conns[c], read)
    ensures Accounted(Step(s, LookupSource(c)).conns[c], read)
  {
    if s.conns[c].reader.env.from !in s.peers {
      FateAdded(s.conns[c], Step(s, LookupSource(c)).conns[c], read, None);
    }
  }

  lemma QuietAccounts(s: Server, e: Event, read: seq<Envelope>)
    requires Enabled(s, e) && !e.Connect? && !Finishes(e) && !e.Receive? && !e.LookupSource? && Accounted(s.conns[e.c], read)
    ensures e.c < |Step(s, e).conns| && Accounted(Step(s, e).conns[e.c], read)
  {
  }

  lemma StepAccounts(s: Server, e: Event, i: Id, read: seq<Envelope>)
    requires Enabled(s, e) && i < |s.conns| && Accounted(s.conns[i], read)
    ensures i < |Step(s, e).conns|
    ensures Accounted(Step(s, e).conns[i], if e.Receive? && e.c == i then read + [e.env] else read)
  {
    if e.Connect? || e.c != i {
      OthersUntouched(s, e, i);
    } else if Finishes(e) {
      FinishAccounts(s, e, read);
    } else if e.Receive? {
      ReceiveAccounts(s.conns[i], read, e.env);
    } else if e.LookupSource? {
      SourceAccounts(s, i, read);
    } else {
      QuietAccounts(s, e, read);
    }
  }

  lemma {:induction false} NobodyReadYet(es: seq<Event>, s: Server, c: Id)
    requires Reaches(es, s) && c >= |s.conns|
    ensures ReadBy(es, c) == []
    decreases |es|
  {
    if es != [] {
      var k := |es| - 1;
      var r :| Reaches(es[..k], r) && Enabled(r, es[k]) && s == Step(r, es[k]);
      KeysNeverChange(r, es[k]);
      NobodyReadYet(es[..k], r, c);
    }
  }

  /** In every run, what a connection was heard to say is accounted for envelope by
      envelope: sent on, answered with a notice, or, when the sender's own key has no
      owner either, nothing; one at a time and in order. */
  lemma {:induction false} NothingReadIsForgotten(es: seq<Event>, s: Server, c: Id)
    requires Reaches(es, s) && c < |s.conns|
    ensures Accounted(s.conns[c], ReadBy(es, c))
    decreases |es|
  {
    var k := |es| - 1;
    var r :| Reaches(es[..k], r) && Enabled(r, es[k]) && s == Step(r, es[k]);
    if c < |r.conns| {
      NothingReadIsForgotten(es[..k], r, c);
      StepAccounts(r, es[k], c, ReadBy(es[..k], c));
    } else {
      HistoryChanges(r, es[k]);
      NobodyReadYet(es[..k], r, c);
      assert s.conns[c] == Fresh(es[k].key);
    }
  }

  // ---------------------------------------------------------------------------
  // A socket that was replaced is closed
  // ---------------------------------------------------------------------------

  /** It has registered, has not left, and is not the last under its key. */
  predicate WasReplaced(s: Server, c: Id) {
    c < |s.conns| && !s.conns[c].reader.Registering? && c !in s.gone && s.conns[c].key in s.last && s.last[s.conns[c].key] != c
  }

  ghost predicate BeingClosed(s: Server, c: Id)
    requires c < |s.conns|
  {
    s.conns[c].closed || exists d :: 0 <= d < |s.conns| && s.conns[d].reader == Replacing(c)
  }

  /** Whoever registered is in the table's history. */
  ghost predicate Entered(s: Server) {
    forall c :: 0 <= c < |s.conns| && !s.conns[c].reader.Registering? ==> s.conns[c].key in s.last
  }

  ghost predicate ReplacedClosing(s: Server) {
    forall c: Id :: WasReplaced(s, c) ==> BeingClosed(s, c)
  }

  lemma EnteredStep(s: Server, e: Event)
    requires Entered(s) && Enabled(s, e)
    ensures Entered(Step(s, e))
  {
    HistoryChanges(s, e);
    KeysNeverChange(s, e);
    forall c | 0 <= c < |Step(s, e).conns| && !Step(s, e).conns[c].reader.Registering? ensures Step(s, e).conns[c].key in Step(s, e).last {
      if c < |s.conns| && (e.Connect? || e.c != c) {
        OthersUntouched(s, e, c);
      }
    }
  }

  lemma ClosedStays(s: Server, e: Event, c: Id)
    requires Enabled(s, e) && c < |s.conns| && s.conns[c].closed
    ensures c < |Step(s, e).conns| && Step(s, e).conns[c].closed
  {
  }

  /** Being closed goes on until closed. */
  lemma ClosingStep(s: Server, e: Event, c: Id)
    requires Enabled(s, e) && c < |s.conns| && BeingClosed(s, c)
    ensures c < |Step(s, e).conns| && BeingClosed(Step(s, e), c)
  {
    if s.conns[c].closed {
      ClosedStays(s, e, c);
    } else {
      var d :| 0 <= d < |s.conns| && s.conns[d].reader == Replacing(c);
      if e == CloseOld(d) {
        assert Step(s, e).conns[c].closed;
      } else {
        KeysNeverChange(s, e);
        if e.Connect? || e.c != d {
          OthersUntouched(s, e, d);
        }
        assert Step(s, e).conns[d].reader == Replacing(c);
      }
    }
  }

  lemma RegisterReplaces(s: Server, d: Id, c: Id)
    requires Table(s) && Enabled(s, Register(d)) && c < |s.conns| && c != d && c !in s.gone
    requires s.conns[c].key in s.last && s.last[s.conns[c].key] == c && s.conns[c].key == s.conns[d].key
    ensures Step(s, Register(d)).conns[d].reader == Replacing(c)
  {
  }

  lemma ReplacedStep(s: Server, e: Event)
    requires Table(s) && Entered(s) && ReplacedClosing(s) && Enabled(s, e)
    ensures ReplacedClosing(Step(s, e))
  {
    var s' := Step(s, e);
    HistoryChanges(s, e);
    KeysNeverChange(s, e);
    forall c: Id | WasReplaced(s', c) ensures BeingClosed(s', c) {
      if c < |s.conns| {
        if !e.Connect? && e.c == c {
          assert !e.Register?;
        } else {
          OthersUntouched(s, e, c);
        }
        assert !s.conns[c].reader.Registering?;
        if WasReplaced(s, c) {
          ClosingStep(s, e, c);
        } else {
          RegisterReplaces(s, e.c, c);
        }
      }
    }
  }

  /** In every run, a socket that another has replaced under its key is closed, or the one
      that replaced it is about to close it. */
  lemma {:induction false} ReplacedIsClosed(es: seq<Event>, s: Server)
    requires Reaches(es, s)
    ensures Entered(s) && ReplacedClosing(s)
    decreases |es|
  {
    if es != [] {
      var k := |es| - 1;
      var r :| Reaches(es[..k], r) && Enabled(r, es[k]) && s == Step(r, es[k]);
      ReplacedIsClosed(es[..k], r);
      EntryIsLastRegistered(es[..k], r);
      EnteredStep(r, es[k]);
      ReplacedStep(r, es[k]);
    }
  }

  // ---------------------------------------------------------------------------
  // Nobody is ever stuck
  // ---------------------------------------------------------------------------

  /** In every run a reader that is not done, and is not just waiting for its socket to say
      something, has a next step of its own. */
  lemma ReaderCanGoOn(es: seq<Event>, s: Server, c: Id) returns (e: Event)
    requires Reaches(es, s) && c < |s.conns| && !s.conns[c].reader.Reading? && !s.conns[c].reader.Done?
    ensures Enabled(s, e) && !e.Connect? && e.c == c && !e.Pop? && !e.Write? && !e.Break?
  {
    QueuesBoundedAndHonest(es, s, c);
    assert AimedReader(s, s.conns[c]);
    match s.conns[c].reader
    case Registering => e := Register(c);
    case Replacing(_) => e := CloseOld(c);
    case Routing(_) => e := Lookup(c);
    case Missing(_) => e := LookupSource(c);
    case Delivering(d, _) =>
      e := if |s.conns[d].queue| < SEND_QUEUE then Enqueue(c) else if s.conns[d].closed then Skip(c) else Block(c);
    case Blocked(_, _) => e := TimeOut(c);
    case Unregistering => e := Unregister(c);
    case Closing => e := CloseSelf(c);
  }

  /** What a connection was given and has not written, oldest first. */
  function Unwritten(c: Conn): seq<Item> {
    c.holding + c.queue
  }

  /** Of an open connection the oldest of it can be written next, in two steps at most, and
      then it is written and the rest is as it was. */
  lemma WriterCanGoOn(s: Server, b: Id) returns (s': Server)
    requires b < |s.conns| && !s.conns[b].closed && Unwritten(s.conns[b]) != [] && |s.conns[b].holding| <= 1
    ensures s' == s || (Enabled(s, Pop(b)) && s' == Step(s, Pop(b)))
    ensures b < |s'.conns| && Enabled(s', Write(b))
    ensures var c := Step(s', Write(b)).conns[b];
            c.written == s.conns[b].written + [Unwritten(s.conns[b])[0]] && Unwritten(c) == Unwritten(s.conns[b])[1..]
  {
    var me := s.conns[b];
    if me.holding == [] {
      assert [] + me.queue == me.queue;
      s' := Step(s, Pop(b));
      assert [] + me.queue[1..] == me.queue[1..];
    } else {
      s' := s;
      assert me.holding == [me.holding[0]];
      assert (me.holding + me.queue)[1..] == me.queue == [] + me.queue;
    }
  }

  lemma {:induction false} HoldsOneAtMost(es: seq<Event>, s: Server, b: Id)
    requires Reaches(es, s) && b < |s.conns|
    ensures |s.conns[b].holding| <= 1
    decreases |es|
  {
    var k := |es| - 1;
    var r :| Reaches(es[..k], r) && Enabled(r, es[k]) && s == Step(r, es[k]);
    if b < |r.conns| {
      HoldsOneAtMost(es[..k], r, b);
      HoldingStep(r, es[k], b);
    } else {
      HistoryChanges(r, es[k]);
    }
  }

  lemma HoldingStep(s: Server, e: Event, b: Id)
    requires Enabled(s, e) && b < |s.conns| && |s.conns[b].holding| <= 1
    ensures b < |Step(s, e).conns| && |Step(s, e).conns[b].holding| <= 1
  {
  }

  // ----- and something does arrive --------------------------------------------

  /** No event leads out of these states. */
  ghost predicate ClosedUnder(R: Server -> bool) {
    forall s, e :: R(s) && Enabled(s, e) ==> R(Step(s, e))
  }

  lemma OneJoins(R: Server -> bool, s: Server, key: Key) returns (t: Server)
    requires ClosedUnder(R) && R(s) && key !in s.peers
    ensures R(t)
    ensures t == Server(s.peers[key := |s.conns|], s.conns + [Fresh(key).(reader := Reading)], s.last[key := |s.conns|], s.gone)
  {
    var c := |s.conns|;
    var r := Step(s, Connect(key));
    assert r == s.(conns := s.conns + [Fresh(key)]);
    t := Step(r, Register(c));
    assert r.conns[c := Fresh(key).(reader := Reading)] == s.conns + [Fresh(key).(reader := Reading)];
  }

  lemma OneSpeaks(R: Server -> bool, s: Server, c: Id, d: Id, env: Envelope) returns (t: Server)
    requires ClosedUnder(R) && R(s) && c < |s.conns| && s.conns[c].reader.Reading? && env.to in s.peers && s.peers[env.to] == d
    ensures R(t) && t == Put(s, c, s.conns[c].(reader := Delivering(d, Stamped(env, s.conns[c].key))))
  {
    var r := Step(s, Receive(c, env));
    assert R(r) && Enabled(r, Lookup(c));
    t := Step(r, Lookup(c));
  }

  lemma ItIsQueued(R: Server -> bool, s: Server, c: Id, d: Id, env: Envelope) returns (t: Server)
    requires ClosedUnder(R) && R(s) && c < |s.conns| && d < |s.conns| && c != d
    requires s.conns[c].reader == Delivering(d, env) && s.conns[d].queue == []
    ensures R(t) && |t.conns| == |s.conns| && t.conns[d] == s.conns[d].(queue := [Item(env, c)])
  {
    assert Enabled(s, Enqueue(c));
    t := Step(s, Enqueue(c));
  }

  lemma ItIsWritten(R: Server -> bool, s: Server, d: Id, item: Item) returns (t: Server)
    requires ClosedUnder(R) && R(s) && d < |s.conns| && !s.conns[d].closed
    requires s.conns[d].queue == [item] && s.conns[d].holding == [] && s.conns[d].written == []
    ensures R(t) && |t.conns| == |s.conns| && t.conns[d].written == [item] && t.conns[d].key == s.conns[d].key
  {
    var r := Step(s, Pop(d));
    assert R(r) && Enabled(r, Write(d));
    t := Step(r, Write(d));
  }

  lemma SomethingArrivesIn(R: Server -> bool, a: Key, b: Key, env: Envelope) returns (s: Server)
    requires ClosedUnder(R) && R(EMPTY) && a != b && env.to == b
    ensures R(s) && |s.conns| == 2 && s.conns[1].key == b && s.conns[1].written == [Item(Stamped(env, a), 0)]
  {
    s := OneJoins(R, EMPTY, a);
    s := OneJoins(R, s, b);
    s := OneSpeaks(R, s, 0, 1, env);
    s := ItIsQueued(R, s, 0, 1, Stamped(env, a));
    s := ItIsWritten(R, s, 1, Item(Stamped(env, a), 0));
  }

  ghost predicate Reachable(s: Server) {
    exists es :: Reaches(es, s)
  }

  lemma ReachableIsClosed()
    ensures ClosedUnder(s => Reachable(s)) && Reachable(EMPTY)
  {
    assert Reaches([], EMPTY);
    forall s, e | Reachable(s) && Enabled(s, e) ensures Reachable(Step(s, e)) {
      var es :| Reaches(es, s);
      assert (es + [e])[..|es|] == es;
      assert Reaches(es + [e], Step(s, e));
    }
  }

  /** For any two keys there is a run in which what one says to the other is written to
      it. */
  lemma SomethingArrives(a: Key, b: Key, env: Envelope) returns (es: seq<Event>, s: Server)
    requires a != b && env.to == b
    ensures Reaches(es, s) && |s.conns| == 2 && s.conns[1].key == b && s.conns[1].written == [Item(Stamped(env, a), 0)]
  {
    ReachableIsClosed();
    s := SomethingArrivesIn(r => Reachable(r), a, b, env);
    es :| Reaches(es, s);
  }
}
