/**
 The signal server: a routing table from keys to sockets, and for every socket a
 bounded queue that may be closed but must not lose what it was given.

 Every connection runs a reader and a writer.  An event below is one section of
 one of them: a lock held, a channel operation, or the closing of a socket.  A run
 is any interleaving.
 */
module Switchboard {
  import opened Wrappers

  const SEND_QUEUE := 1024

  type Key = string
  type Id = nat

  datatype Kind = Offline | Other(name: string)

  datatype Envelope = Envelope(kind: Kind, from: Key, to: Key, body: string)

  /** An envelope on its way, and the connection whose reader sent it on. */
  datatype Item = Item(env: Envelope, source: Id)

  /** What became of an envelope: the connection it was given to, and itself. */
  datatype Routed = Routed(dest: Id, env: Envelope)

  datatype Reader =
    | Registering
    | Replacing(prior: Id)
    | Reading
    | Routing(env: Envelope)
    | Missing(env: Envelope)
    | Delivering(dest: Id, env: Envelope)
    | Blocked(dest: Id, env: Envelope)
    | Unregistering
    | Closing
    | Done

  /** `holding` is what the writer took off the queue and has not yet written;
      `written`, `routed` and `fates` are history: what was written, what the reader sent
      on, and what became of every envelope it read, none being one that nobody could even
      be told about. */
  datatype Conn = Conn(
    key: Key,
    reader: Reader,
    queue: seq<Item>,
    holding: seq<Item>,
    closed: bool,
    written: seq<Item>,
    routed: seq<Routed>,
    fates: seq<Option<Routed>>)

  /** `last` and `gone` are history: who registered last under each key, and who
      has unregistered. */
  datatype Server = Server(peers: map<Key, Id>, conns: seq<Conn>, last: map<Key, Id>, gone: set<Id>)

  const EMPTY := Server(map[], [], map[], {})

  datatype Event =
    | Connect(key: Key)
    | Register(c: Id)
    | CloseOld(c: Id)
    | Receive(c: Id, env: Envelope)
    | Lookup(c: Id)
    | LookupSource(c: Id)
    | Enqueue(c: Id)
    | Skip(c: Id)
    | Block(c: Id)
    | TimeOut(c: Id)
    | Pop(c: Id)
    | Write(c: Id)
    | Break(c: Id)
    | HangUp(c: Id)
    | Unregister(c: Id)
    | CloseSelf(c: Id)

  function Put(s: Server, c: Id, to: Conn): Server
    requires c < |s.conns|
  {
    s.(conns := s.conns[c := to])
  }

  function Closed(s: Server, c: Id): Server
    requires c < |s.conns|
  {
    Put(s, c, s.conns[c].(closed := true))
  }

  /** The reader of `c` is done with what it was delivering. */
  function Delivered(s: Server, c: Id): Server
    requires c < |s.conns| && (s.conns[c].reader.Delivering? || s.conns[c].reader.Blocked?)
  {
    var r := s.conns[c].reader;
    Put(s, c, s.conns[c].(reader := Reading, routed := s.conns[c].routed + [Routed(r.dest, r.env)],
                          fates := s.conns[c].fates + [Some(Routed(r.dest, r.env))]))
  }

  predicate Sending(s: Server, c: Id) {
    c < |s.conns| && (s.conns[c].reader.Delivering? || s.conns[c].reader.Blocked?) && s.conns[c].reader.dest < |s.conns|
  }

  predicate Enabled(s: Server, e: Event) {
    match e
    case Connect(_) => true
    case Register(c) => c < |s.conns| && s.conns[c].reader.Registering?
    case CloseOld(c) => c < |s.conns| && s.conns[c].reader.Replacing? && s.conns[c].reader.prior < |s.conns|
    case Receive(c, _) => c < |s.conns| && s.conns[c].reader.Reading?
    case Lookup(c) => c < |s.conns| && s.conns[c].reader.Routing?
    case LookupSource(c) => c < |s.conns| && s.conns[c].reader.Missing?
    case Enqueue(c) => Sending(s, c) && |s.conns[s.conns[c].reader.dest].queue| < SEND_QUEUE
    case Skip(c) => Sending(s, c) && s.conns[s.conns[c].reader.dest].closed
    case Block(c) =>
      && Sending(s, c) && s.conns[c].reader.Delivering?
      && |s.conns[s.conns[c].reader.dest].queue| >= SEND_QUEUE && !s.conns[s.conns[c].reader.dest].closed
    case TimeOut(c) => Sending(s, c) && s.conns[c].reader.Blocked?
    case Pop(c) => c < |s.conns| && s.conns[c].queue != [] && s.conns[c].holding == []
    case Write(c) => c < |s.conns| && s.conns[c].holding != [] && !s.conns[c].closed
    case Break(c) => c < |s.conns|
    case HangUp(c) => c < |s.conns| && s.conns[c].reader.Reading?
    case Unregister(c) => c < |s.conns| && s.conns[c].reader.Unregistering?
    case CloseSelf(c) => c < |s.conns| && s.conns[c].reader.Closing?
  }

  /** A connection that has just said hello. */
  function Fresh(key: Key): Conn {
    Conn(key, Registering, [], [], false, [], [], [])
  }

  function OfflineNotice(e: Envelope): Envelope {
    Envelope(Offline, e.to, e.from, "")
  }

  function Step(s: Server, e: Event): Server
    requires Enabled(s, e)
  {
    match e
    case Connect(key) => s.(conns := s.conns + [Fresh(key)])
    case Register(c) => Registered(s, c)
    case CloseOld(c) => Replaced(s, c)
    case Receive(c, env) => Put(s, c, s.conns[c].(reader := Routing(env.(from := s.conns[c].key))))
    case Lookup(c) =>
      var env := s.conns[c].reader.env;
      Put(s, c, s.conns[c].(reader := if env.to in s.peers then Delivering(s.peers[env.to], env) else Missing(env)))
    case LookupSource(c) =>
      var env := s.conns[c].reader.env;
      if env.from in s.peers then Put(s, c, s.conns[c].(reader := Delivering(s.peers[env.from], OfflineNotice(env))))
      else Put(s, c, s.conns[c].(reader := Reading, fates := s.conns[c].fates + [None]))
    case Enqueue(c) => Queued(s, c)
    case Skip(c) => Delivered(s, c)
    case Block(c) => Put(s, c, s.conns[c].(reader := Blocked(s.conns[c].reader.dest, s.conns[c].reader.env)))
    case TimeOut(c) => Delivered(Closed(s, s.conns[c].reader.dest), c)
    case Pop(c) => Put(s, c, s.conns[c].(holding := [s.conns[c].queue[0]], queue := s.conns[c].queue[1..]))
    case Write(c) => Put(s, c, s.conns[c].(holding := [], written := s.conns[c].written + s.conns[c].holding))
    case Break(c) => Closed(s, c)
    case HangUp(c) => Put(s, c, s.conns[c].(reader := Unregistering))
    case Unregister(c) => Unregistered(s, c)
    case CloseSelf(c) => Left(s, c)
  }

  /** The envelope in the reader's hand goes to the end of its queue. */
  function Queued(s: Server, c: Id): Server
    requires Sending(s, c)
  {
    var r := s.conns[c].reader;
    Delivered(Put(s, r.dest, s.conns[r.dest].(queue := s.conns[r.dest].queue + [Item(r.env, c)])), c)
  }

  /** The socket that was replaced is closed by the one that replaced it. */
  function Replaced(s: Server, c: Id): Server
    requires c < |s.conns| && s.conns[c].reader.Replacing? && s.conns[c].reader.prior < |s.conns|
  {
    var s' := Closed(s, s.conns[c].reader.prior);
    Put(s', c, s'.conns[c].(reader := Reading))
  }

  function Left(s: Server, c: Id): Server
    requires c < |s.conns|
  {
    Put(s, c, s.conns[c].(reader := Done, closed := true))
  }

  /** The new socket wins its key, and remembers whom it replaced. */
  function Registered(s: Server, c: Id): Server
    requires c < |s.conns|
  {
    var key := s.conns[c].key;
    var next := if key in s.peers then Replacing(s.peers[key]) else Reading;
    Put(s, c, s.conns[c].(reader := next)).(peers := s.peers[key := c], last := s.last[key := c])
  }

  /** The entry goes only if it is still this socket's. */
  function Unregistered(s: Server, c: Id): Server
    requires c < |s.conns|
  {
    var key := s.conns[c].key;
    var peers := if key in s.peers && s.peers[key] == c then s.peers - {key} else s.peers;
    Put(s, c, s.conns[c].(reader := Closing)).(peers := peers, gone := s.gone + {c})
  }

  ghost predicate Reaches(es: seq<Event>, s: Server)
    decreases |es|
  {
    if es == [] then s == EMPTY
    else
      var k := |es| - 1;
      exists r :: Reaches(es[..k], r) && Enabled(r, es[k]) && s == Step(r, es[k])
  }

  // ---------------------------------------------------------------------------
  // The routing table
  // ---------------------------------------------------------------------------

  /** Every connection numbered anywhere exists; what is registered was registered
      under its own key; nobody is gone who still has to unregister. */
  ghost predicate Tidy(s: Server) {
    && (forall k :: k in s.last ==> s.last[k] < |s.conns| && s.conns[s.last[k]].key == k && !s.conns[s.last[k]].reader.Registering?)
    && (forall c :: c in s.gone ==> c < |s.conns| && (s.conns[c].reader.Closing? || s.conns[c].reader.Done?))
    && (forall c :: 0 <= c < |s.conns| && (s.conns[c].reader.Closing? || s.conns[c].reader.Done?) ==> c in s.gone)
  }

  /** The entry for a key is the connection registered last under it, unless that
      one has unregistered. */
  ghost predicate Current(s: Server) {
    forall k :: if k in s.last && s.last[k] !in s.gone then k in s.peers && s.peers[k] == s.last[k] else k !in s.peers
  }

  /** What a connection's reader is about to do concerns connections that exist. */
  ghost predicate Aimed(s: Server) {
    forall c :: 0 <= c < |s.conns| ==> AimedReader(s, s.conns[c])
  }

  predicate AimedReader(s: Server, c: Conn) {
    match c.reader
    case Replacing(prior) => prior < |s.conns|
    case Routing(env) => env.from == c.key
    case Missing(env) => env.from == c.key
    case Delivering(dest, env) => dest < |s.conns| && Honest(c.key, env)
    case Blocked(dest, env) => dest < |s.conns| && Honest(c.key, env)
    case _ => true
  }

  /** An envelope carries its sender's own key, or is the server's notice to the
      sender that nobody is there. */
  predicate Honest(key: Key, env: Envelope) {
    env.from == key || (env.kind == Offline && env.to == key)
  }

  ghost predicate Table(s: Server) {
    Tidy(s) && Current(s)
  }

  predicate Ending(r: Reader) {
    r.Closing? || r.Done?
  }

  /** Nothing the table depends on has changed. */
  ghost predicate Quiet(s: Server, s': Server) {
    && |s'.conns| == |s.conns| && s'.peers == s.peers && s'.last == s.last && s'.gone == s.gone
    && forall i :: 0 <= i < |s.conns| ==>
         s'.conns[i].key == s.conns[i].key
         && s'.conns[i].reader.Registering? == s.conns[i].reader.Registering?
         && Ending(s'.conns[i].reader) == Ending(s.conns[i].reader)
  }

  lemma QuietKeepsTable(s: Server, s': Server)
    requires Table(s) && Quiet(s, s')
    ensures Table(s')
  {
  }

  predicate Loud(e: Event) {
    e.Connect? || e.Register? || e.Unregister? || e.CloseSelf?
  }

  /** A change at one place that keeps the key and the stage is quiet. */
  lemma PutIsQuiet(s: Server, c: Id, to: Conn)
    requires c < |s.conns|
    requires to.key == s.conns[c].key && to.reader.Registering? == s.conns[c].reader.Registering?
    requires Ending(to.reader) == Ending(s.conns[c].reader)
    ensures Quiet(s, Put(s, c, to))
  {
  }

  lemma ReaderStepsAreQuiet(s: Server, e: Event)
    requires Enabled(s, e)
    requires e.Receive? || e.Lookup? || e.LookupSource? || e.Block? || e.HangUp? || e.CloseOld?
    ensures Quiet(s, Step(s, e))
  {
  }

  lemma DeliveredIsQuiet(s: Server, c: Id)
    requires c < |s.conns| && (s.conns[c].reader.Delivering? || s.conns[c].reader.Blocked?)
    ensures Quiet(s, Delivered(s, c))
  {
    PutIsQuiet(s, c, Delivered(s, c).conns[c]);
  }

  lemma QuietTwice(r: Server, s: Server, t: Server)
    requires Quiet(r, s) && Quiet(s, t)
    ensures Quiet(r, t)
  {
  }

  lemma QueuedIsQuiet(s: Server, c: Id)
    requires Sending(s, c)
    ensures Quiet(s, Queued(s, c))
  {
    var r := s.conns[c].reader;
    var s' := Put(s, r.dest, s.conns[r.dest].(queue := s.conns[r.dest].queue + [Item(r.env, c)]));
    PutIsQuiet(s, r.dest, s'.conns[r.dest]);
    DeliveredIsQuiet(s', c);
    QuietTwice(s, s', Delivered(s', c));
  }

  lemma TimedOutIsQuiet(s: Server, c: Id)
    requires Sending(s, c)
    ensures Quiet(s, Delivered(Closed(s, s.conns[c].reader.dest), c))
  {
    var d := s.conns[c].reader.dest;
    var s' := Closed(s, d);
    PutIsQuiet(s, d, s'.conns[d]);
    DeliveredIsQuiet(s', c);
    QuietTwice(s, s', Delivered(s', c));
  }

  lemma MostStepsAreQuiet(s: Server, e: Event)
    requires Enabled(s, e) && !Loud(e)
    ensures Quiet(s, Step(s, e))
  {
    match e
    case Pop(c) => PutIsQuiet(s, c, Step(s, e).conns[c]);
    case Write(c) => PutIsQuiet(s, c, Step(s, e).conns[c]);
    case Break(c) => PutIsQuiet(s, c, Step(s, e).conns[c]);
    case Enqueue(c) => QueuedIsQuiet(s, c);
    case Skip(c) => DeliveredIsQuiet(s, c);
    case TimeOut(c) => TimedOutIsQuiet(s, c);
    case _ => ReaderStepsAreQuiet(s, e);
  }

  lemma ConnectKeepsTable(s: Server, key: Key)
    requires Table(s)
    ensures Table(s.(conns := s.conns + [Fresh(key)]))
  {
  }

  lemma LeftKeepsTable(s: Server, c: Id)
    requires Table(s) && c < |s.conns| && s.conns[c].reader.Closing?
    ensures Table(Left(s, c))
  {
  }

  lemma RegisterKeepsTable(s: Server, c: Id)
    requires Table(s) && c < |s.conns| && s.conns[c].reader.Registering?
    ensures Table(Registered(s, c))
  {
    assert c !in s.gone;
  }

  lemma UnregisterKeepsTable(s: Server, c: Id)
    requires Table(s) && c < |s.conns| && s.conns[c].reader.Unregistering?
    ensures Table(Unregistered(s, c))
  {
  }

  lemma StepKeepsTable(s: Server, e: Event)
    requires Table(s) && Enabled(s, e)
    ensures Table(Step(s, e))
  {
    match e
    case Register(c) => RegisterKeepsTable(s, c);
    case Unregister(c) => UnregisterKeepsTable(s, c);
    case Connect(key) => ConnectKeepsTable(s, key);
    case CloseSelf(c) => LeftKeepsTable(s, c);
    case _ => QuietStepKeepsTable(s, e);
  }

  lemma QuietStepKeepsTable(s: Server, e: Event)
    requires Table(s) && Enabled(s, e) && !Loud(e)
    ensures Table(Step(s, e))
  {
    MostStepsAreQuiet(s, e);
    QuietKeepsTable(s, Step(s, e));
  }

  /** In every run, the entry for a key is the socket registered last under it,
      unless that one has unregistered; so a socket that was replaced can never
      take its successor's entry away. */
  lemma {:induction false} EntryIsLastRegistered(es: seq<Event>, s: Server)
    requires Reaches(es, s)
    ensures Table(s)
    decreases |es|
  {
    if es != [] {
      var k := |es| - 1;
      var r :| Reaches(es[..k], r) && Enabled(r, es[k]) && s == Step(r, es[k]);
      EntryIsLastRegistered(es[..k], r);
      StepKeepsTable(r, es[k]);
    }
  }

  /** A stale unregistration evicts nobody. */
  lemma StaleUnregisterEvictsNobody(es: seq<Event>, s: Server, c: Id)
    requires Reaches(es, s) && Enabled(s, Unregister(c))
    requires s.conns[c].key in s.last && s.last[s.conns[c].key] != c
    ensures Step(s, Unregister(c)).peers == s.peers
  {
    EntryIsLastRegistered(es, s);
  }

  // ---------------------------------------------------------------------------
  // The queues
  // ---------------------------------------------------------------------------

  /** Everything a connection has been given and has not lost, oldest first. */
  function Held(c: Conn): seq<Item> {
    c.written + c.holding + c.queue
  }

  /** What one source sent, of a list. */
  function Of(items: seq<Item>, source: Id): seq<Envelope> {
    if items == [] then []
    else
      var rest := Of(items[..|items| - 1], source);
      if items[|items| - 1].source == source then rest + [items[|items| - 1].env] else rest
  }

  /** What one source routed to one connection, in order. */
  function To(routed: seq<Routed>, dest: Id): seq<Envelope> {
    if routed == [] then []
    else
      var rest := To(routed[..|routed| - 1], dest);
      if routed[|routed| - 1].dest == dest then rest + [routed[|routed| - 1].env] else rest
  }

  /** A connection, or one that has not said hello yet. */
  function At(s: Server, i: Id): Conn {
    if i < |s.conns| then s.conns[i] else Fresh("")
  }

  /** From socket `a` to socket `b`: until `b` is closed it holds everything `a`
      routed to it, in order and without gaps; and what `b` has written is at all
      times a beginning of that. */
  ghost predicate Faithful(a: Conn, b: Conn, ida: Id, idb: Id) {
    && (!b.closed ==> Of(Held(b), ida) == To(a.routed, idb))
    && Of(b.written, ida) <= To(a.routed, idb)
  }

  lemma OfSnoc(items: seq<Item>, i: Item, source: Id)
    ensures Of(items + [i], source) == Of(items, source) + if i.source == source then [i.env] else []
  {
    assert (items + [i])[..|items|] == items;
  }

  lemma ToSnoc(routed: seq<Routed>, r: Routed, dest: Id)
    ensures To(routed + [r], dest) == To(routed, dest) + if r.dest == dest then [r.env] else []
  {
    assert (routed + [r])[..|routed|] == routed;
  }

  lemma {:induction false} OfPrefix(items: seq<Item>, more: seq<Item>, source: Id)
    ensures Of(items, source) <= Of(items + more, source)
    decreases |more|
  {
    if more == [] {
      assert items + more == items;
    } else {
      var k := |more| - 1;
      OfPrefix(items, more[..k], source);
      assert items + more == (items + more[..k]) + [more[k]];
      OfSnoc(items + more[..k], more[k], source);
    }
  }

  /** A step that routes nothing: `b` has what it had, or has closed. */
  lemma StillFaithful(a: Conn, b: Conn, a': Conn, b': Conn, ida: Id, idb: Id)
    requires Faithful(a, b, ida, idb)
    requires a'.routed == a.routed && Held(b') == Held(b) && b'.written == b.written && (b.closed ==> b'.closed)
    ensures Faithful(a', b', ida, idb)
  {
  }

  lemma WriteIsFaithful(a: Conn, b: Conn, b': Conn, ida: Id, idb: Id)
    requires Faithful(a, b, ida, idb) && !b.closed
    requires b' == b.(holding := [], written := b.written + b.holding)
    ensures Faithful(a, b', ida, idb) && Held(b') == Held(b)
  {
    assert Held(b') == Held(b);
    OfPrefix(b.written + b.holding, b.queue, ida);
  }

  /** `c` finishes delivering to `d`, which takes the envelope or is closed. */
  lemma RouteIsFaithful(a: Conn, b: Conn, a': Conn, b': Conn, ida: Id, idb: Id, c: Id, d: Id, env: Envelope)
    requires Faithful(a, b, ida, idb)
    requires a'.routed == if c == ida then a.routed + [Routed(d, env)] else a.routed
    requires b'.written == b.written && (b.closed ==> b'.closed)
    requires Held(b') == (if d == idb then Held(b) + [Item(env, c)] else Held(b)) || (d == idb && b'.closed)
    ensures Faithful(a', b', ida, idb)
  {
    OfSnoc(Held(b), Item(env, c), ida);
    ToSnoc(a.routed, Routed(d, env), idb);
  }

  predicate Finishes(e: Event) {
    e.Enqueue? || e.Skip? || e.TimeOut?
  }

  /** What a connection was given, routed and wrote is as before, and closed stays closed. */
  predicate SameTraffic(c: Conn, c': Conn) {
    c'.routed == c.routed && Held(c') == Held(c) && c'.written == c.written && (c.closed ==> c'.closed)
  }

  lemma PutTraffic(s: Server, c: Id, to: Conn, i: Id)
    requires c < |s.conns| && SameTraffic(s.conns[c], to)
    ensures SameTraffic(At(s, i), At(Put(s, c, to), i))
  {
  }

  lemma ReaderTraffic(s: Server, e: Event, i: Id)
    requires Enabled(s, e) && (e.Receive? || e.Lookup? || e.LookupSource? || e.Block? || e.HangUp?)
    ensures SameTraffic(At(s, i), At(Step(s, e), i))
  {
    PutTraffic(s, e.c, Step(s, e).conns[e.c], i);
  }

  lemma ReplacedTraffic(s: Server, c: Id, i: Id)
    requires Enabled(s, CloseOld(c))
    ensures SameTraffic(At(s, i), At(Replaced(s, c), i))
  {
    var prior := s.conns[c].reader.prior;
    PutTraffic(s, prior, s.conns[prior].(closed := true), i);
    var s' := Closed(s, prior);
    PutTraffic(s', c, s'.conns[c].(reader := Reading), i);
  }

  lemma PopTraffic(s: Server, c: Id, i: Id)
    requires Enabled(s, Pop(c))
    ensures SameTraffic(At(s, i), At(Step(s, Pop(c)), i))
  {
    var me := s.conns[c];
    assert me.queue == [me.queue[0]] + me.queue[1..];
    assert me.written + [me.queue[0]] + me.queue[1..] == me.written + [] + me.queue;
    PutTraffic(s, c, me.(holding := [me.queue[0]], queue := me.queue[1..]), i);
  }

  lemma TableTraffic(s: Server, e: Event, i: Id)
    requires Enabled(s, e) && (e.Connect? || e.Register? || e.Unregister? || e.CloseSelf? || e.Break?)
    ensures SameTraffic(At(s, i), At(Step(s, e), i))
  {
  }

  lemma QuietTraffic(s: Server, e: Event, i: Id)
    requires Enabled(s, e) && !Finishes(e) && !e.Write?
    ensures SameTraffic(At(s, i), At(Step(s, e), i))
  {
    if e.CloseOld? {
      ReplacedTraffic(s, e.c, i);
    } else if e.Pop? {
      PopTraffic(s, e.c, i);
    } else if e.Connect? || e.Register? || e.Unregister? || e.CloseSelf? || e.Break? {
      TableTraffic(s, e, i);
    } else {
      ReaderTraffic(s, e, i);
    }
  }

  /** `c` finishes delivering what was in its hand: `d` takes it, or is closed. */
  predicate Finished(s: Server, s': Server, c: Id, i: Id)
    requires Sending(s, c)
  {
    var a, b, r := At(s, i), At(s', i), s.conns[c].reader;
    && b.routed == (if c == i then a.routed + [Routed(r.dest, r.env)] else a.routed)
    && b.written == a.written && (a.closed ==> b.closed)
    && (Held(b) == (if r.dest == i then Held(a) + [Item(r.env, c)] else Held(a)) || (r.dest == i && b.closed))
    && (Held(b) == Held(a) || Held(b) == Held(a) + [Item(r.env, c)])
  }

  lemma QueuedTraffic(s: Server, c: Id, i: Id)
    requires Sending(s, c)
    ensures Finished(s, Queued(s, c), c, i)
  {
    var r := s.conns[c].reader;
    var d := s.conns[r.dest];
    assert d.written + d.holding + (d.queue + [Item(r.env, c)]) == Held(d) + [Item(r.env, c)];
  }

  lemma FinishedTraffic(s: Server, e: Event, i: Id)
    requires Enabled(s, e) && Finishes(e)
    ensures Finished(s, Step(s, e), e.c, i)
  {
    if e.Enqueue? {
      QueuedTraffic(s, e.c, i);
    }
  }

  lemma StepIsFaithful(s: Server, e: Event, a: Id, b: Id)
    requires Enabled(s, e) && Faithful(At(s, a), At(s, b), a, b)
    ensures Faithful(At(Step(s, e), a), At(Step(s, e), b), a, b)
  {
    var s' := Step(s, e);
    if Finishes(e) {
      FinishedTraffic(s, e, a);
      FinishedTraffic(s, e, b);
      var r := s.conns[e.c].reader;
      RouteIsFaithful(At(s, a), At(s, b), At(s', a), At(s', b), a, b, e.c, r.dest, r.env);
    } else if e.Write? {
      assert At(s', a).routed == At(s, a).routed;
      if e.c == b {
        WriteIsFaithful(At(s, a), At(s, b), At(s', b), a, b);
      }
    } else {
      QuietTraffic(s, e, a);
      QuietTraffic(s, e, b);
      StillFaithful(At(s, a), At(s, b), At(s', a), At(s', b), a, b);
    }
  }

  /** In every run, from any socket to any socket: nothing is dropped, repeated or
      reordered until the destination is closed, and what was written by then is a
      beginning of what was routed. */
  lemma {:induction false} NothingLostUntilClosed(es: seq<Event>, s: Server, a: Id, b: Id)
    requires Reaches(es, s)
    ensures Faithful(At(s, a), At(s, b), a, b)
    decreases |es|
  {
    if es != [] {
      var k := |es| - 1;
      var r :| Reaches(es[..k], r) && Enabled(r, es[k]) && s == Step(r, es[k]);
      NothingLostUntilClosed(es[..k], r, a, b);
      StepIsFaithful(r, es[k], a, b);
    }
  }

  // ----- what a queue may hold ------------------------------------------------

  ghost predicate HonestItems(s: Server, items: seq<Item>) {
    forall i :: 0 <= i < |items| ==> items[i].source < |s.conns| && Honest(s.conns[items[i].source].key, items[i].env)
  }

  ghost predicate HonestQueues(s: Server, b: Id) {
    HonestItems(s, Held(At(s, b))) && |At(s, b).queue| <= SEND_QUEUE
  }

  lemma KeysNeverChange(s: Server, e: Event)
    requires Enabled(s, e)
    ensures |s.conns| <= |Step(s, e).conns|
    ensures forall i :: 0 <= i < |s.conns| ==> Step(s, e).conns[i].key == s.conns[i].key
  {
  }

  lemma StepAims(s: Server, e: Event)
    requires Table(s) && Aimed(s) && Enabled(s, e)
    ensures Aimed(Step(s, e))
  {
    var s' := Step(s, e);
    KeysNeverChange(s, e);
    forall c | 0 <= c < |s'.conns| ensures AimedReader(s', s'.conns[c]) {
      StepAimsOne(s, e, c);
    }
  }

  lemma StepAimsOne(s: Server, e: Event, c: Id)
    requires Table(s) && Aimed(s) && Enabled(s, e) && c < |Step(s, e).conns|
    requires |s.conns| <= |Step(s, e).conns|
    ensures AimedReader(Step(s, e), Step(s, e).conns[c])
  {
    if c < |s.conns| {
      assert AimedReader(s, s.conns[c]);
      if e.Connect? || e.c != c {
        OthersKeepReading(s, e, c);
      }
    }
  }

  lemma OthersKeepReading(s: Server, e: Event, c: Id)
    requires Enabled(s, e) && c < |s.conns| && (e.Connect? || e.c != c)
    ensures c < |Step(s, e).conns| && Step(s, e).conns[c].reader == s.conns[c].reader && Step(s, e).conns[c].key == s.conns[c].key
  {
  }

  ghost predicate KeysKept(s: Server, s': Server) {
    |s.conns| <= |s'.conns| && forall i :: 0 <= i < |s.conns| ==> s'.conns[i].key == s.conns[i].key
  }

  lemma HonestyLasts(s: Server, s': Server, items: seq<Item>, i: Item)
    requires HonestItems(s, items) && KeysKept(s, s')
    ensures HonestItems(s', items)
    ensures i.source < |s.conns| && Honest(s.conns[i.source].key, i.env) ==> HonestItems(s', items + [i])
  {
  }

  lemma HeldChanges(s: Server, e: Event, b: Id)
    requires Enabled(s, e)
    ensures Finishes(e) ==>
              var r := s.conns[e.c].reader;
              Held(At(Step(s, e), b)) == Held(At(s, b)) || Held(At(Step(s, e), b)) == Held(At(s, b)) + [Item(r.env, e.c)]
    ensures !Finishes(e) ==> Held(At(Step(s, e), b)) == Held(At(s, b))
  {
    if Finishes(e) {
      FinishedTraffic(s, e, b);
    } else if !e.Write? {
      QuietTraffic(s, e, b);
    } else if e.c == b {
      var c := s.conns[b];
      assert c.written + c.holding + [] + c.queue == c.written + c.holding + c.queue;
    }
  }

  lemma StepIsHonest(s: Server, e: Event, b: Id)
    requires Aimed(s) && Enabled(s, e) && HonestQueues(s, b)
    ensures HonestQueues(Step(s, e), b)
  {
    KeysNeverChange(s, e);
    QueueBounded(s, e, b);
    HeldChanges(s, e, b);
    if Finishes(e) {
      assert AimedReader(s, s.conns[e.c]);
      HonestyLasts(s, Step(s, e), Held(At(s, b)), Item(s.conns[e.c].reader.env, e.c));
    } else {
      HonestyLasts(s, Step(s, e), Held(At(s, b)), Item(Envelope(Offline, "", "", ""), 0));
    }
  }

  lemma QueueBounded(s: Server, e: Event, b: Id)
    requires Enabled(s, e) && |At(s, b).queue| <= SEND_QUEUE
    ensures |At(Step(s, e), b).queue| <= SEND_QUEUE
  {
  }

  /** In every run no queue holds more than its bound, and everything in one
      carries the key of the socket it came from or is the notice that nobody is
      there. */
  lemma {:induction false} QueuesBoundedAndHonest(es: seq<Event>, s: Server, b: Id)
    requires Reaches(es, s)
    ensures HonestQueues(s, b) && Aimed(s)
    decreases |es|
  {
    if es != [] {
      var k := |es| - 1;
      var r :| Reaches(es[..k], r) && Enabled(r, es[k]) && s == Step(r, es[k]);
      QueuesBoundedAndHonest(es[..k], r, b);
      EntryIsLastRegistered(es[..k], r);
      StepIsHonest(r, es[k], b);
      StepAims(r, es[k]);
    }
  }

  // ---------------------------------------------------------------------------
  // The server as the code holds it
  // ---------------------------------------------------------------------------

  /** The fields change in place.  A method is the code's function of that name,
      run without interruption: the sections it is made of, one after another. */
  class Board {
    var peers: map<Key, Id>
    var conns: seq<Conn>
    ghost var last: map<Key, Id>
    ghost var gone: set<Id>

    ghost function State(): Server
      reads this
    {
      Server(peers, conns, last, gone)
    }

    constructor ()
      ensures State() == EMPTY
    {
      peers, conns, last, gone := map[], [], map[], {};
    }

    /** `conn.close`. */
    method Close(c: Id)
      requires c < |conns|
      modifies this`conns
      ensures State() == Closed(old(State()), c)
    {
      conns := conns[c := conns[c].(closed := true)];
    }

    method Register(c: Id)
      requires Table(State()) && Enabled(State(), Event.Register(c))
      modifies this
      ensures var s := Registered(old(State()), c);
              State() == if Enabled(s, CloseOld(c)) then Replaced(s, c) else s
    {
      var key := conns[c].key;
      var existed := key in peers;
      var prior := if existed then peers[key] else c;
      assert existed ==> prior == last[key];
      peers := peers[key := c];
      last := last[key := c];
      if existed {
        conns := conns[c := conns[c].(reader := Replacing(prior))];
        Close(prior);
      }
      conns := conns[c := conns[c].(reader := Reading)];
    }

    method Unregister(c: Id)
      requires Enabled(State(), Event.Unregister(c))
      modifies this
      ensures State() == Left(Unregistered(old(State()), c), c)
    {
      var key := conns[c].key;
      if key in peers && peers[key] == c {
        peers := peers - {key};
      }
      gone := gone + {c};
      Close(c);
      conns := conns[c := conns[c].(reader := Done)];
    }

    /** The two lookups of `route`. */
    method Route(c: Id)
      requires Enabled(State(), Lookup(c))
      modifies this`conns
      ensures var s := Step(old(State()), Lookup(c));
              State() == if Enabled(s, LookupSource(c)) then Step(s, LookupSource(c)) else s
    {
      var e := conns[c].reader.env;
      if e.to in peers {
        conns := conns[c := conns[c].(reader := Delivering(peers[e.to], e))];
      } else if e.from in peers {
        conns := conns[c := conns[c].(reader := Delivering(peers[e.from], OfflineNotice(e)))];
      } else {
        conns := conns[c := conns[c].(reader := Reading, fates := conns[c].fates + [None])];
      }
    }

    /** The first select of `enqueue`.  With room in a closed socket's queue either case
        may be taken: `room` is the choice.  With neither, the reader waits. */
    method Enqueue(c: Id, room: bool)
      requires Sending(State(), c) && conns[c].reader.Delivering?
      modifies this`conns
      ensures var s, dest := old(State()), old(conns)[old(conns[c].reader.dest)];
              State() == if |dest.queue| < SEND_QUEUE && (room || !dest.closed) then Step(s, Event.Enqueue(c))
                         else if dest.closed then Step(s, Skip(c))
                         else Step(s, Block(c))
    {
      var r := conns[c].reader;
      if |conns[r.dest].queue| < SEND_QUEUE && (room || !conns[r.dest].closed) {
        Accept(c);
      } else if conns[r.dest].closed {
        Finish(c);
      } else {
        conns := conns[c := conns[c].(reader := Blocked(r.dest, r.env))];
      }
    }

    /** The second select, once one of its cases is ready: the queue has room again, the
        socket was closed, or the wait ran out, and then the socket is closed rather than
        the envelope dropped from one that stays open. */
    method EndWait(c: Id, room: bool, expired: bool)
      requires Sending(State(), c) && conns[c].reader.Blocked?
      requires |conns[conns[c].reader.dest].queue| < SEND_QUEUE || conns[conns[c].reader.dest].closed || expired
      modifies this`conns
      ensures var s, dest := old(State()), old(conns)[old(conns[c].reader.dest)];
              State() == if |dest.queue| < SEND_QUEUE && (room || (!dest.closed && !expired)) then Step(s, Event.Enqueue(c))
                         else if dest.closed && !expired then Step(s, Skip(c))
                         else Step(s, TimeOut(c))
    {
      var d := conns[c].reader.dest;
      if |conns[d].queue| < SEND_QUEUE && (room || (!conns[d].closed && !expired)) {
        Accept(c);
      } else if conns[d].closed && !expired {
        Finish(c);
      } else {
        Close(d);
        Finish(c);
      }
    }

    method Accept(c: Id)
      requires Sending(State(), c)
      modifies this`conns
      ensures State() == Queued(old(State()), c)
    {
      var r := conns[c].reader;
      conns := conns[r.dest := conns[r.dest].(queue := conns[r.dest].queue + [Item(r.env, c)])];
      Finish(c);
    }

    method Finish(c: Id)
      requires c < |conns| && (conns[c].reader.Delivering? || conns[c].reader.Blocked?)
      modifies this`conns
      ensures State() == Delivered(old(State()), c)
    {
      var r := conns[c].reader;
      conns := conns[c := conns[c].(reader := Reading, routed := conns[c].routed + [Routed(r.dest, r.env)],
                                    fates := conns[c].fates + [Some(Routed(r.dest, r.env))])];
    }

    /** `writeLoop` over what is queued, when `works` writes succeed before one fails: those
        are written, in order.  If one fails, the envelope it was writing is lost, the
        socket is closed, and the rest stays behind. */
    method Drain(c: Id, works: nat)
      requires c < |conns| && conns[c].holding == [] && !conns[c].closed
      modifies this`conns
      ensures |conns| == |old(conns)| && forall i :: 0 <= i < |conns| && i != c ==> conns[i] == old(conns)[i]
      ensures var was := old(conns)[c];
              conns[c] == if works >= |was.queue| then was.(queue := [], written := was.written + was.queue)
                          else was.(queue := was.queue[works + 1..], holding := [was.queue[works]],
                                    written := was.written + was.queue[..works], closed := true)
    {
      ghost var was := conns[c];
      var done := 0;
      while done < works && conns[c].queue != []
        invariant done <= works && done <= |was.queue|
        invariant |conns| == |old(conns)| && forall i :: 0 <= i < |conns| && i != c ==> conns[i] == old(conns)[i]
        invariant conns[c] == was.(queue := was.queue[done..], written := was.written + was.queue[..done])
        decreases works - done
      {
        var me := conns[c];
        assert was.queue[..done + 1] == was.queue[..done] + [me.queue[0]];
        conns := conns[c := me.(queue := me.queue[1..], written := me.written + [me.queue[0]])];
        done := done + 1;
      }
      if conns[c].queue != [] {
        var me := conns[c];
        conns := conns[c := me.(queue := me.queue[1..], holding := [me.queue[0]])];
        Close(c);
      } else {
        assert was.queue[..done] == was.queue;
      }
    }
  }
}
