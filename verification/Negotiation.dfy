/**
 The negotiation between two machines, at the grain of the code's own mutex
 sections.

 Each machine runs, for its peer, one retry loop (`keepPeerConnected` and
 `connectOnce`) and one dispatcher (`dispatch`, called on the signalling reader).
 The two machines are joined by one lossy FIFO queue in each direction.  Every
 event below is one mutex section or one channel operation, and a run is any
 interleaving of them.

 An attempt is named by its position among the attempts its own machine has
 started, counting from one: ICE user names are fresh for every attempt, so the
 number stands for the credentials.
 */
module Negotiation {
  import opened Wrappers
  import opened Common

  /** The early buffer holds this many messages and no more. */
  const EARLY_MESSAGES := 32

  /** Offers and answers are one case here, as they are in `dispatch`: what each
      carries is the sender's credentials. */
  datatype Msg = Creds(attempt: nat) | Candidate(raw: string) | Bye | Offline

  /** One attempt: the credentials it is bound to, and whether its context was
      cancelled.  `born` is a history variable: the newest credentials the
      dispatcher had taken off the queue when this session was installed. */
  datatype Session = Session(bound: Option<nat>, cancelled: bool, born: nat)

  /** Where the retry loop stands.  `Returning` lies between the end of an
      attempt and the wait; `Starting` between the wait and the installation of
      the next session. */
  datatype Loop = Waiting | Starting | Feeding(rest: seq<Msg>) | Live | Returning

  /** Where the dispatcher stands with the message it has in hand. */
  datatype Dispatcher =
    | Idle
    | Asking(msg: Msg, session: nat)
    | Refused(attempt: nat, session: nat)
    | Cancelling(target: nat, attempt: nat, session: nat)
    | Leaving
    | Ending(target: nat)
    | Placing

  /** Where the relay supervisor stands with this link: it reads the cancel function of
      the latest attempt, if there ever was one, then calls it, then places a token. */
  datatype Escape = Resting | Cutting(target: Option<nat>) | Prodding

  /** A session abandoned because the peer restarted.  It is stray when the
      session that was cancelled is not the one that refused the credentials. */
  datatype Abandonment = Abandonment(session: nat, trigger: nat, stray: bool)

  /** Everything one machine holds for its peer.  The last three fields are
      history: the newest credentials taken, what was said while there was no
      session, and the sessions abandoned as "the peer restarted". */
  datatype Link = Link(
    controlling: bool,
    sessions: seq<Session>,
    session: Option<nat>,
    early: seq<Msg>,
    wake: bool,
    loop: Loop,
    hand: Dispatcher,
    escape: Escape,
    taken: nat,
    heard: seq<Msg>,
    abandoned: seq<Abandonment>)

  datatype Event =
    | Woken | TimedOut | Install | Feed | Begin | Announce | Trickle(raw: string) | Farewell
    | Finish | Rest
    | Take | Hand | Read | Cancel | Place
    | Nudge | Choose | Cut | Prod

  function Fresh(controlling: bool): Link {
    Link(controlling, [], None, [], false, Starting, Idle, Resting, 0, [], [])
  }

  predicate IsCreds(m: Msg) { m.Creds? }

  /** What `dispatch` does to the buffer: credentials start it over, and a full
      buffer takes no more. */
  function Held(early: seq<Msg>, m: Msg): seq<Msg> {
    var kept := if IsCreds(m) then [] else early;
    if |kept| < EARLY_MESSAGES then kept + [m] else kept
  }

  /** `SetRemoteCredentials`: the first credentials bind, the same ones again are
      a duplicate, and any others are refused. */
  function Bind(s: Session, attempt: nat): Session {
    if s.bound.None? then s.(bound := Some(attempt)) else s
  }

  predicate Accepts(s: Session, attempt: nat) {
    s.bound.None? || s.bound.value == attempt
  }

  predicate Enabled(l: Link, inbox: seq<Msg>, e: Event) {
    match e
    case Woken => l.loop.Waiting? && l.wake
    case TimedOut => l.loop.Waiting?
    case Install => l.loop.Starting?
    case Feed => l.loop.Feeding? && l.loop.rest != [] && l.sessions != []
    case Begin => l.loop == Feeding([])
    case Announce => l.loop.Live?
    case Trickle(_) => l.loop.Live?
    case Farewell => true
    case Finish => l.loop.Live?
    case Rest => l.loop.Returning?
    case Take => l.hand.Idle? && inbox != []
    case Hand => l.hand.Asking? && l.hand.session < |l.sessions|
    case Read => (l.hand.Refused? || l.hand.Leaving?) && l.sessions != []
    case Cancel => (l.hand.Cancelling? || l.hand.Ending?) && l.hand.target < |l.sessions|
    case Place => l.hand.Placing?
    case Nudge => true
    case Choose => l.escape.Resting?
    case Cut => l.escape.Cutting? && (l.escape.target.Some? ==> l.escape.target.value < |l.sessions|)
    case Prod => l.escape.Prodding?
  }

  /** One step of one machine. */
  function Step(l: Link, inbox: seq<Msg>, e: Event): Link
    requires Enabled(l, inbox, e)
  {
    match e
    case Woken => l.(wake := false, loop := Starting)
    case TimedOut => l.(loop := Starting)
    case Install => Installed(l)
    case Feed => Fed(l)
    case Begin => l.(loop := Live)
    case Announce => l
    case Trickle(_) => l
    case Farewell => l
    case Finish => l.(session := None, early := [], heard := [], loop := Returning)
    case Rest => l.(loop := Waiting)
    case Take => Taken(l, inbox[0])
    case Hand => Handed(l)
    case Read => Targeted(l)
    case Cancel => Cancelled(l)
    case Place => l.(wake := true, hand := Idle)
    case Nudge => l.(wake := true)
    case Choose => l.(escape := Cutting(if l.sessions == [] then None else Some(|l.sessions| - 1)))
    case Cut => CutOff(l)
    case Prod => l.(wake := true, escape := Resting)
  }

  /** The section that puts a fresh session in place and takes what was held. */
  function Installed(l: Link): Link {
    l.(sessions := l.sessions + [Session(None, false, l.taken)],
       session := Some(|l.sessions|), loop := Feeding(l.early), early := [], heard := [])
  }

  /** The section that reads the cancel function: it belongs to whichever attempt
      was installed last. */
  function Targeted(l: Link): Link
    requires (l.hand.Refused? || l.hand.Leaving?) && l.sessions != []
  {
    var latest := |l.sessions| - 1;
    if l.hand.Leaving? then l.(hand := Ending(latest))
    else l.(hand := Cancelling(latest, l.hand.attempt, l.hand.session))
  }

  function Ended(ss: seq<Session>, i: nat): seq<Session>
    requires i < |ss|
  {
    ss[i := ss[i].(cancelled := true)]
  }

  /** `feed`: the answer of `SetRemoteCredentials` is ignored here. */
  function Fed(l: Link): Link
    requires l.loop.Feeding? && l.loop.rest != [] && l.sessions != []
  {
    var m, i := l.loop.rest[0], |l.sessions| - 1;
    var l' := l.(loop := Feeding(l.loop.rest[1..]));
    if IsCreds(m) then l'.(sessions := l.sessions[i := Bind(l.sessions[i], m.attempt)]) else l'
  }

  /** The first section of `dispatch`: with no session the message is held, and
      otherwise it is kept in hand for the session found. */
  function Taken(l: Link, m: Msg): Link {
    var l' := if IsCreds(m) then l.(taken := m.attempt) else l;
    match l.session
    case None => l'.(early := Held(l.early, m), heard := l.heard + [m], hand := Placing)
    case Some(s) => l'.(hand := Asking(m, s))
  }

  function Handed(l: Link): Link
    requires l.hand.Asking? && l.hand.session < |l.sessions|
  {
    var i := l.hand.session;
    match l.hand.msg
    case Creds(n) =>
      if Accepts(l.sessions[i], n) then
        l.(sessions := l.sessions[i := Bind(l.sessions[i], n)], hand := Idle)
      else if l.controlling then
        l.(hand := Idle)
      else
        l.(hand := Refused(n, i))
    case Candidate(_) => l.(hand := Idle)
    case Bye => l.(hand := Leaving)
    case Offline => l.(hand := Idle)
  }

  /** The call of the cancel function read a section earlier.  Cancelling an
      attempt that is over, or was cancelled before, changes nothing. */
  function Cancelled(l: Link): Link
    requires (l.hand.Cancelling? || l.hand.Ending?) && l.hand.target < |l.sessions|
  {
    var t := l.hand.target;
    var l' := l.(sessions := Ended(l.sessions, t));
    match l.hand
    case Cancelling(_, n, s) =>
      var log := if l.session == Some(t) && !l.sessions[t].cancelled
        then l.abandoned + [Abandonment(t, n, t != s)] else l.abandoned;
      l'.(hand := Placing, abandoned := log)
    case _ => l'.(hand := Idle)
  }

  /** The supervisor's call of the cancel function it read a section earlier. */
  function CutOff(l: Link): Link
    requires l.escape.Cutting? && (l.escape.target.Some? ==> l.escape.target.value < |l.sessions|)
  {
    var l' := l.(escape := Prodding);
    if l.escape.target.Some? then l'.(sessions := Ended(l.sessions, l.escape.target.value)) else l'
  }

  /** What a step puts on the queue to the other machine. */
  function Sent(l: Link, e: Event): seq<Msg> {
    match e
    case Announce => [Creds(|l.sessions|)]
    case Trickle(raw) => [Candidate(raw)]
    case Farewell => [Bye]
    case _ => []
  }

  // ---------------------------------------------------------------------------
  // Two machines
  // ---------------------------------------------------------------------------

  datatype World = World(offering: Link, answering: Link, toOffering: seq<Msg>, toAnswering: seq<Msg>)

  datatype Act =
    | Offerer(e: Event)
    | Answerer(e: Event)
    /** The queue loses the message at a position, or the server says "offline". */
    | LoseToOfferer(at: nat)
    | LoseToAnswerer(at: nat)
    | NoticeToOfferer
    | NoticeToAnswerer

  const START: World := World(Fresh(true), Fresh(false), [], [])

  predicate Can(w: World, a: Act) {
    match a
    case Offerer(e) => Enabled(w.offering, w.toOffering, e)
    case Answerer(e) => Enabled(w.answering, w.toAnswering, e)
    case LoseToOfferer(at) => at < |w.toOffering|
    case LoseToAnswerer(at) => at < |w.toAnswering|
    case NoticeToOfferer => true
    case NoticeToAnswerer => true
  }

  function Left(inbox: seq<Msg>, e: Event): seq<Msg> {
    if e.Take? && inbox != [] then inbox[1..] else inbox
  }

  function Do(w: World, a: Act): World
    requires Can(w, a)
  {
    match a
    case Offerer(e) =>
      World(Step(w.offering, w.toOffering, e), w.answering,
            Left(w.toOffering, e), w.toAnswering + Sent(w.offering, e))
    case Answerer(e) =>
      World(w.offering, Step(w.answering, w.toAnswering, e),
            w.toOffering + Sent(w.answering, e), Left(w.toAnswering, e))
    case LoseToOfferer(at) => w.(toOffering := Without(w.toOffering, at))
    case LoseToAnswerer(at) => w.(toAnswering := Without(w.toAnswering, at))
    case NoticeToOfferer => w.(toOffering := w.toOffering + [Offline])
    case NoticeToAnswerer => w.(toAnswering := w.toAnswering + [Offline])
  }

  /** `w` is where some interleaving of `acts`, taken from the start, leads. */
  ghost predicate Reaches(acts: seq<Act>, w: World)
    decreases |acts|
  {
    if acts == [] then w == START
    else
      var k := |acts| - 1;
      exists v :: Reaches(acts[..k], v) && Can(v, acts[k]) && w == Do(v, acts[k])
  }

  // ---------------------------------------------------------------------------
  // What every step of a machine keeps
  // ---------------------------------------------------------------------------

  /** The queue brings credentials in the order they were made: none older than
      what was taken, none newer than what the peer has started. */
  ghost predicate Ordered(inbox: seq<Msg>, low: nat, high: nat) {
    if inbox == [] then low <= high
    else if inbox[0].Creds? then low <= inbox[0].attempt && 1 <= inbox[0].attempt && Ordered(inbox[1..], inbox[0].attempt, high)
    else Ordered(inbox[1..], low, high)
  }

  /** A session never holds credentials older than the ones already taken when
      it was installed. */
  ghost predicate Aged(ss: seq<Session>, taken: nat) {
    forall i :: 0 <= i < |ss| ==>
      ss[i].born <= taken && (ss[i].bound.Some? ==> ss[i].born <= ss[i].bound.value <= taken && 1 <= ss[i].bound.value)
  }

  /** The loop and the session pointer agree, and a message buffer never
      coexists with a session. */
  ghost predicate Shaped(l: Link) {
    && (l.session.Some? <==> l.loop.Feeding? || l.loop.Live?)
    && (l.session.Some? ==> l.sessions != [] && l.session.value == |l.sessions| - 1)
    && (l.session.Some? ==> l.early == [] && l.heard == [])
    && l.early == Tail(l.heard)
    && (l.escape.Cutting? && l.escape.target.Some? ==> l.escape.target.value < |l.sessions|)
  }

  /** From the most recent offer or answer onward, or all of it. */
  function SinceCreds(h: seq<Msg>): seq<Msg> {
    if h == [] then []
    else if IsCreds(h[|h| - 1]) then [h[|h| - 1]]
    else SinceCreds(h[..|h| - 1]) + [h[|h| - 1]]
  }

  function Tail(h: seq<Msg>): seq<Msg> {
    var s := SinceCreds(h);
    if |s| <= EARLY_MESSAGES then s else s[..EARLY_MESSAGES]
  }

  /** Credentials stand only in first place, and lie between the bounds. */
  ghost predicate Leads(ms: seq<Msg>, low: nat, high: nat) {
    && |ms| <= EARLY_MESSAGES
    && (forall i :: 1 <= i < |ms| ==> !ms[i].Creds?)
    && (ms != [] && ms[0].Creds? ==> low <= ms[0].attempt <= high && 1 <= ms[0].attempt)
  }

  ghost predicate Buffers(l: Link) {
    && Leads(l.early, l.taken, l.taken)
    && (l.loop.Feeding? && l.sessions != [] ==> Leads(l.loop.rest, l.sessions[|l.sessions| - 1].born, l.taken))
  }

  /** A message in hand was the last taken, and every session after the one that
      was found was installed later still. */
  ghost predicate InHand(l: Link) {
    match l.hand
    case Asking(m, s) =>
      && s < |l.sessions|
      && (m.Creds? ==> m.attempt == l.taken && 1 <= m.attempt && Found(l, s))
    case Refused(n, s) => Answered(l, n, s)
    case Cancelling(t, n, s) => s <= t < |l.sessions| && Answered(l, n, s)
    case Ending(t) => t < |l.sessions|
    case Leaving => l.sessions != []
    case _ => true
  }

  ghost predicate Found(l: Link, s: nat) {
    && (forall i :: s < i < |l.sessions| ==> l.taken <= l.sessions[i].born)
    && (l.abandoned != [] ==> Last(l.abandoned).session <= s)
  }

  ghost predicate Answered(l: Link, n: nat, s: nat) {
    && !l.controlling
    && s < |l.sessions|
    && n == l.taken && Found(l, s)
    && l.sessions[s].born < n && 2 <= n
  }

  function Last(log: seq<Abandonment>): Abandonment
    requires log != []
  {
    log[|log| - 1]
  }

  /** The abandonment log climbs, and no later session can repeat its last
      entry. */
  ghost predicate Logged(l: Link) {
    && (l.controlling ==> l.abandoned == [])
    && Climbs(l.abandoned)
    && (l.abandoned != [] ==> Entry(l.sessions, l.taken, Last(l.abandoned)))
  }

  ghost predicate Entry(ss: seq<Session>, taken: nat, a: Abandonment) {
    && a.trigger <= taken
    && a.session < |ss|
    && ss[a.session].cancelled
    && (forall i :: a.session < i < |ss| ==> a.trigger <= ss[i].born)
    && (a.stray ==> a.trigger <= ss[a.session].born)
  }

  /** Triggers rise, except that a stray may repeat the trigger of a follow. */
  ghost predicate Precedes(a: Abandonment, b: Abandonment) {
    && a.session < b.session
    && (a.trigger < b.trigger || (a.trigger == b.trigger && !a.stray && b.stray))
  }

  ghost predicate Climbs(log: seq<Abandonment>) {
    log != [] ==>
      && 2 <= Last(log).trigger
      && Climbs(log[..|log| - 1])
      && (|log| > 1 ==> Precedes(log[|log| - 2], Last(log)))
  }

  /** No wake-up is lost. */
  ghost predicate Attended(l: Link) {
    (l.loop.Waiting? || l.loop.Returning?) && l.early != [] ==> l.wake || l.hand.Placing?
  }

  ghost predicate Sound(l: Link) {
    && Aged(l.sessions, l.taken)
    && Shaped(l)
    && Buffers(l)
    && InHand(l)
    && Attended(l)
    && Logged(l)
  }

  ghost predicate Inv(l: Link, inbox: seq<Msg>, started: nat) {
    Sound(l) && Ordered(inbox, l.taken, started)
  }

  lemma TailSnoc(h: seq<Msg>, m: Msg)
    ensures Tail(h + [m]) == Held(Tail(h), m)
  {
    assert (h + [m])[..|h|] == h;
  }

  /** Sessions change only by being bound or cancelled, and new ones are younger
      than everything taken. */
  ghost predicate Grown(ss: seq<Session>, ss': seq<Session>, taken: nat) {
    && |ss| <= |ss'|
    && (forall i :: 0 <= i < |ss| ==> ss'[i].born == ss[i].born && (ss[i].cancelled ==> ss'[i].cancelled))
    && (forall i :: |ss| <= i < |ss'| ==> taken <= ss'[i].born)
  }

  lemma BindKeepsAges(ss: seq<Session>, i: nat, n: nat, taken: nat)
    requires i < |ss| && Aged(ss, taken)
    requires ss[i].born <= n <= taken && 1 <= n
    ensures Aged(ss[i := Bind(ss[i], n)], taken) && Grown(ss, ss[i := Bind(ss[i], n)], taken)
  {
  }

  lemma EndKeepsAges(ss: seq<Session>, i: nat, taken: nat)
    requires i < |ss| && Aged(ss, taken)
    ensures Aged(Ended(ss, i), taken) && Grown(ss, Ended(ss, i), taken)
  {
  }

  lemma LogSurvives(l: Link, l': Link)
    requires Logged(l)
    requires Grown(l.sessions, l'.sessions, l.taken)
    requires l'.abandoned == l.abandoned && l'.controlling == l.controlling && l.taken <= l'.taken
    ensures Logged(l')
  {
  }

  /** What the dispatcher has in hand stays true while sessions grow. */
  lemma HandSurvives(l: Link, l': Link)
    requires InHand(l)
    requires Grown(l.sessions, l'.sessions, l.taken)
    requires l'.hand == l.hand && l'.abandoned == l.abandoned && l'.controlling == l.controlling && l.taken == l'.taken
    ensures InHand(l')
  {
    match l.hand
    case Asking(_, s) => assert Found(l, s) ==> Found(l', s);
    case Refused(_, s) => assert Found(l', s);
    case Cancelling(_, _, s) => assert Found(l', s);
    case _ =>
  }

  lemma LoopKeeps(l: Link, inbox: seq<Msg>, e: Event)
    requires Sound(l) && Enabled(l, inbox, e)
    requires e.Woken? || e.TimedOut? || e.Begin? || e.Announce? || e.Trickle? || e.Farewell? || e.Finish? || e.Rest? || e.Nudge? || e.Choose? || e.Prod?
    ensures Sound(Step(l, inbox, e))
  {
    HandSurvives(l, Step(l, inbox, e));
  }

  lemma InstallKeeps(l: Link)
    requires Sound(l) && l.loop.Starting?
    ensures Sound(Installed(l))
  {
    LogSurvives(l, Installed(l));
    HandSurvives(l, Installed(l));
  }

  lemma FeedKeeps(l: Link)
    requires Sound(l) && l.loop.Feeding? && l.loop.rest != [] && l.sessions != []
    ensures Sound(Fed(l))
  {
    var m, i := l.loop.rest[0], |l.sessions| - 1;
    if IsCreds(m) {
      BindKeepsAges(l.sessions, i, m.attempt, l.taken);
    }
    LogSurvives(l, Fed(l));
    HandSurvives(l, Fed(l));
  }

  lemma HeldLeads(early: seq<Msg>, m: Msg, low: nat)
    requires Leads(early, low, low) && (m.Creds? ==> low <= m.attempt && 1 <= m.attempt)
    ensures var now := if m.Creds? then m.attempt else low; Leads(Held(early, m), now, now)
  {
  }

  lemma TakeShape(l: Link, m: Msg)
    requires Shaped(l)
    ensures Shaped(Taken(l, m))
  {
    TailSnoc(l.heard, m);
  }

  lemma TakeBuffers(l: Link, m: Msg)
    requires Aged(l.sessions, l.taken) && Shaped(l) && Buffers(l)
    requires m.Creds? ==> l.taken <= m.attempt && 1 <= m.attempt
    ensures Aged(l.sessions, Taken(l, m).taken) && Shaped(Taken(l, m)) && Buffers(Taken(l, m))
  {
    TakeShape(l, m);
    HeldLeads(l.early, m, l.taken);
  }

  lemma TakeKeeps(l: Link, m: Msg)
    requires Sound(l) && l.hand.Idle?
    requires m.Creds? ==> l.taken <= m.attempt && 1 <= m.attempt
    ensures Sound(Taken(l, m))
  {
    TakeBuffers(l, m);
    LogSurvives(l, Taken(l, m));
  }

  /** Refused credentials are newer than the ones held. */
  lemma RefusalIsNewer(l: Link)
    requires Aged(l.sessions, l.taken) && InHand(l)
    requires l.hand.Asking? && l.hand.msg.Creds? && !l.controlling
    requires !Accepts(l.sessions[l.hand.session], l.hand.msg.attempt)
    ensures Answered(l, l.hand.msg.attempt, l.hand.session)
  {
  }

  lemma AcceptKeeps(l: Link)
    requires Sound(l) && l.hand.Asking? && l.hand.msg.Creds?
    requires Accepts(l.sessions[l.hand.session], l.hand.msg.attempt)
    ensures Sound(Handed(l))
  {
    BindKeepsAges(l.sessions, l.hand.session, l.hand.msg.attempt, l.taken);
    LogSurvives(l, Handed(l));
  }

  /** A step of the dispatcher that only changes what it has in hand. */
  lemma HandMoves(l: Link, h: Dispatcher)
    requires Sound(l) && !l.hand.Placing?
    requires InHand(l.(hand := h))
    ensures Sound(l.(hand := h))
  {
  }

  lemma RefuseKeeps(l: Link)
    requires Sound(l) && l.hand.Asking?
    requires l.hand.msg.Creds? ==> !Accepts(l.sessions[l.hand.session], l.hand.msg.attempt)
    ensures Sound(Handed(l))
  {
    if l.hand.msg.Creds? && !l.controlling {
      RefusalIsNewer(l);
    }
    HandMoves(l, Handed(l).hand);
  }

  /** A new entry rises above the last one. */
  lemma LogGrows(l: Link)
    requires Logged(l) && InHand(l) && Shaped(l)
    requires l.hand.Cancelling?
    requires l.session == Some(l.hand.target) && !l.sessions[l.hand.target].cancelled
    ensures Logged(Cancelled(l))
  {
    var l' := Cancelled(l);
    var Cancelling(t, n, s) := l.hand;
    assert l'.abandoned[..|l.abandoned|] == l.abandoned;
    if l.abandoned != [] {
      assert Precedes(Last(l.abandoned), Last(l'.abandoned)) by {
        assert Entry(l.sessions, l.taken, Last(l.abandoned));
      }
    }
  }

  lemma CancelKeeps(l: Link)
    requires Sound(l) && (l.hand.Cancelling? || l.hand.Ending?)
    ensures Sound(Cancelled(l))
  {
    var l' := Cancelled(l);
    EndKeepsAges(l.sessions, l.hand.target, l.taken);
    if l'.abandoned == l.abandoned {
      LogSurvives(l, l');
    } else {
      LogGrows(l);
    }
  }

  lemma ReadKeeps(l: Link)
    requires Sound(l) && (l.hand.Refused? || l.hand.Leaving?)
    ensures l.sessions != [] && Sound(Targeted(l))
  {
    HandMoves(l, Targeted(l).hand);
  }

  lemma CutKeeps(l: Link)
    requires Sound(l) && l.escape.Cutting?
    ensures Sound(CutOff(l))
  {
    if l.escape.target.Some? {
      EndKeepsAges(l.sessions, l.escape.target.value, l.taken);
    }
    LogSurvives(l, CutOff(l));
    HandSurvives(l, CutOff(l));
  }

  lemma DispatchKeeps(l: Link, inbox: seq<Msg>, e: Event)
    requires Sound(l) && Enabled(l, inbox, e)
    requires e.Hand? || e.Read? || e.Cancel? || e.Place?
    ensures Sound(Step(l, inbox, e))
  {
    if e.Hand? {
      if l.hand.msg.Creds? && Accepts(l.sessions[l.hand.session], l.hand.msg.attempt) {
        AcceptKeeps(l);
      } else {
        RefuseKeeps(l);
      }
    } else if e.Read? {
      ReadKeeps(l);
    } else if e.Cancel? {
      CancelKeeps(l);
    } else {
      LogSurvives(l, Step(l, inbox, e));
    }
  }

  lemma SessionKeeps(l: Link, inbox: seq<Msg>, e: Event)
    requires Sound(l) && Enabled(l, inbox, e)
    requires e.Install? || e.Feed? || e.Cut?
    ensures Sound(Step(l, inbox, e))
  {
    if e.Install? {
      InstallKeeps(l);
    } else if e.Feed? {
      FeedKeeps(l);
    } else {
      CutKeeps(l);
    }
  }

  lemma QueueKeeps(l: Link, inbox: seq<Msg>, e: Event, started: nat)
    requires Ordered(inbox, l.taken, started) && Enabled(l, inbox, e)
    ensures Ordered(Left(inbox, e), Step(l, inbox, e).taken, started)
  {
    if !e.Take? {
      assert Step(l, inbox, e).taken == l.taken;
    }
  }

  /** Every step of a machine keeps its invariant. */
  lemma StepKeeps(l: Link, inbox: seq<Msg>, e: Event, started: nat)
    requires Inv(l, inbox, started) && Enabled(l, inbox, e)
    ensures Inv(Step(l, inbox, e), Left(inbox, e), started)
  {
    QueueKeeps(l, inbox, e, started);
    if e.Take? {
      TakeKeeps(l, inbox[0]);
    } else if e.Hand? || e.Read? || e.Cancel? || e.Place? {
      DispatchKeeps(l, inbox, e);
    } else if e.Install? || e.Feed? || e.Cut? {
      SessionKeeps(l, inbox, e);
    } else {
      LoopKeeps(l, inbox, e);
    }
  }

  // ---------------------------------------------------------------------------
  // What holds in every reachable world
  // ---------------------------------------------------------------------------

  ghost predicate WorldInv(w: World) {
    && w.offering.controlling && !w.answering.controlling
    && Inv(w.offering, w.toOffering, |w.answering.sessions|)
    && Inv(w.answering, w.toAnswering, |w.offering.sessions|)
  }

  lemma {:induction false} AppendInOrder(inbox: seq<Msg>, m: Msg, low: nat, high: nat, high': nat)
    requires Ordered(inbox, low, high) && high <= high'
    requires m.Creds? ==> m.attempt == high' && 1 <= high'
    ensures Ordered(inbox + [m], low, high') && Ordered(inbox, low, high')
  {
    if inbox != [] {
      assert (inbox + [m])[1..] == inbox[1..] + [m];
      AppendInOrder(inbox[1..], m, if inbox[0].Creds? then inbox[0].attempt else low, high, high');
    } else {
      assert ([] + [m])[1..] == [];
    }
  }

  /** A step sends only its own newest credentials, so the queue stays ordered
      while the sender moves on. */
  lemma SentInOrder(inbox: seq<Msg>, low: nat, peer: Link, peerInbox: seq<Msg>, e: Event)
    requires Ordered(inbox, low, |peer.sessions|)
    requires Shaped(peer) && Enabled(peer, peerInbox, e)
    ensures Ordered(inbox + Sent(peer, e), low, |Step(peer, peerInbox, e).sessions|)
  {
    var n, n' := |peer.sessions|, |Step(peer, peerInbox, e).sessions|;
    if Sent(peer, e) == [] {
      assert inbox + [] == inbox;
      AppendInOrder(inbox, Bye, low, n, n');
    } else {
      AppendInOrder(inbox, Sent(peer, e)[0], low, n, n');
    }
  }

  lemma {:induction false} OrderedWeakens(inbox: seq<Msg>, low: nat, low': nat, high: nat)
    requires Ordered(inbox, low, high) && low' <= low
    ensures Ordered(inbox, low', high)
  {
    if inbox != [] && !inbox[0].Creds? {
      OrderedWeakens(inbox[1..], low, low', high);
    }
  }

  lemma {:induction false} LossInOrder(inbox: seq<Msg>, at: nat, low: nat, high: nat)
    requires Ordered(inbox, low, high) && at < |inbox|
    ensures Ordered(Without(inbox, at), low, high)
  {
    var next := if inbox[0].Creds? then inbox[0].attempt else low;
    if at == 0 {
      assert Without(inbox, at) == inbox[1..];
      OrderedWeakens(inbox[1..], next, low, high);
    } else {
      LossInOrder(inbox[1..], at - 1, next, high);
      assert Without(inbox, at)[1..] == Without(inbox[1..], at - 1);
    }
  }

  lemma PeerSends(l: Link, inbox: seq<Msg>, peer: Link, peerInbox: seq<Msg>, e: Event)
    requires Inv(l, inbox, |peer.sessions|) && Sound(peer) && Enabled(peer, peerInbox, e)
    ensures Inv(l, inbox + Sent(peer, e), |Step(peer, peerInbox, e).sessions|)
  {
    SentInOrder(inbox, l.taken, peer, peerInbox, e);
  }

  lemma StepsOnly(l: Link, inbox: seq<Msg>, e: Event)
    requires Enabled(l, inbox, e)
    ensures Step(l, inbox, e).controlling == l.controlling
  {
  }

  lemma DoKeeps(w: World, a: Act)
    requires WorldInv(w) && Can(w, a)
    ensures WorldInv(Do(w, a))
  {
    match a
    case Offerer(e) =>
      StepsOnly(w.offering, w.toOffering, e);
      StepKeeps(w.offering, w.toOffering, e, |w.answering.sessions|);
      PeerSends(w.answering, w.toAnswering, w.offering, w.toOffering, e);
    case Answerer(e) =>
      StepsOnly(w.answering, w.toAnswering, e);
      StepKeeps(w.answering, w.toAnswering, e, |w.offering.sessions|);
      PeerSends(w.offering, w.toOffering, w.answering, w.toAnswering, e);
    case LoseToOfferer(at) =>
      LossInOrder(w.toOffering, at, w.offering.taken, |w.answering.sessions|);
    case LoseToAnswerer(at) =>
      LossInOrder(w.toAnswering, at, w.answering.taken, |w.offering.sessions|);
    case NoticeToOfferer =>
      AppendInOrder(w.toOffering, Offline, w.offering.taken, |w.answering.sessions|, |w.answering.sessions|);
    case NoticeToAnswerer =>
      AppendInOrder(w.toAnswering, Offline, w.answering.taken, |w.offering.sessions|, |w.offering.sessions|);
  }

  lemma {:induction false} ReachableInv(acts: seq<Act>, w: World)
    requires Reaches(acts, w)
    ensures WorldInv(w)
    decreases |acts|
  {
    if acts != [] {
      var k := |acts| - 1;
      var v :| Reaches(acts[..k], v) && Can(v, acts[k]) && w == Do(v, acts[k]);
      ReachableInv(acts[..k], v);
      DoKeeps(v, acts[k]);
    }
  }

  /** The abandonments of one kind, in order. */
  function OfKind(log: seq<Abandonment>, stray: bool): seq<Abandonment> {
    if log == [] then []
    else
      var rest := OfKind(log[..|log| - 1], stray);
      if log[|log| - 1].stray == stray then rest + [log[|log| - 1]] else rest
  }

  /** In a climbing log, the entries of one kind have distinct triggers, the
      smallest of them at least two. */
  lemma {:induction false} KindBounded(log: seq<Abandonment>, stray: bool)
    requires Climbs(log) && log != []
    ensures |OfKind(log, stray)| <= Last(log).trigger - (if stray == Last(log).stray || !stray then 1 else 2)
    decreases |log|
  {
    var k := |log| - 1;
    if k == 0 {
      assert OfKind(log[..0], stray) == [];
    } else {
      KindBounded(log[..k], stray);
    }
  }

  lemma {:induction false} KindsPartition(log: seq<Abandonment>)
    ensures |OfKind(log, false)| + |OfKind(log, true)| == |log|
    decreases |log|
  {
    if log != [] {
      KindsPartition(log[..|log| - 1]);
    }
  }

  /** Climbing from one entry to the next is climbing from any to any later. */
  lemma {:induction false} ClimbsThroughout(log: seq<Abandonment>, j: nat, k: nat)
    requires Climbs(log) && j < k < |log|
    ensures Precedes(log[j], log[k]) && 2 <= log[j].trigger
    decreases |log|
  {
    var n := |log| - 1;
    if k < n {
      ClimbsThroughout(log[..n], j, k);
    } else if j < n - 1 {
      ClimbsThroughout(log[..n], j, n - 1);
    }
  }

  /** Attempt `i` was not cancelled, and now is. */
  predicate Ends(l: Link, l': Link, i: nat) {
    i < |l.sessions| && i < |l'.sessions| && !l.sessions[i].cancelled && l'.sessions[i].cancelled
  }

  /** A machine that offers is never moved by an offer or an answer. */
  lemma HoldsStill(l: Link, inbox: seq<Msg>, e: Event, i: nat)
    requires l.controlling && InHand(l) && Enabled(l, inbox, e)
    requires Ends(l, Step(l, inbox, e), i)
    ensures e.Cut? || (e.Cancel? && l.hand.Ending?)
  {
  }

  lemma OthersLeaveOffering(w: World, a: Act)
    requires Can(w, a) && !a.Offerer?
    ensures Do(w, a).offering == w.offering
  {
  }

  /** The tie-break holds: no offer or answer ever ends an attempt of the
      controlling side, whatever the interleaving. */
  lemma OfferingSideHolds(acts: seq<Act>, w: World, a: Act, i: nat)
    requires Reaches(acts, w) && Can(w, a)
    ensures w.offering.abandoned == []
    ensures Ends(w.offering, Do(w, a).offering, i) ==> a == Offerer(Cut) || (a == Offerer(Cancel) && w.offering.hand.Ending?)
  {
    ReachableInv(acts, w);
    if a.Offerer? {
      if Ends(w.offering, Step(w.offering, w.toOffering, a.e), i) {
        HoldsStill(w.offering, w.toOffering, a.e, i);
      }
    } else {
      OthersLeaveOffering(w, a);
    }
  }

  /** Abandonments cannot feed each other: the answering side follows the
      controlling side fewer times than the controlling side has started, the
      credentials that make it follow rise every time, and the same bound holds
      for the sessions caught by a cancellation meant for an earlier one.  Where
      no session was caught that way, the bound is on all of them together. */
  lemma AbandonmentsBounded(acts: seq<Act>, w: World)
    requires Reaches(acts, w)
    ensures var n, log := |w.offering.sessions|, w.answering.abandoned;
            && (log != [] ==> |OfKind(log, false)| < n && |OfKind(log, true)| < n && |log| <= 2 * (n - 1))
            && (log != [] && OfKind(log, true) == [] ==> |log| < n)
            && (forall j, k :: 0 <= j < k < |log| ==> Precedes(log[j], log[k]))
  {
    ReachableInv(acts, w);
    var n, log := |w.offering.sessions|, w.answering.abandoned;
    if log != [] {
      assert Last(log).trigger <= n by {
        TakenIsStarted(w.toAnswering, w.answering.taken, n);
      }
      KindBounded(log, false);
      KindBounded(log, true);
      KindsPartition(log);
    }
    forall j, k | 0 <= j < k < |log| ensures Precedes(log[j], log[k]) {
      ClimbsThroughout(log, j, k);
    }
  }

  lemma {:induction false} TakenIsStarted(inbox: seq<Msg>, low: nat, high: nat)
    requires Ordered(inbox, low, high)
    ensures low <= high
  {
    if inbox != [] {
      TakenIsStarted(inbox[1..], if inbox[0].Creds? then inbox[0].attempt else low, high);
    }
  }

  /** No wake-up is lost, on either machine. */
  lemma NoLostWake(acts: seq<Act>, w: World, l: Link)
    requires Reaches(acts, w) && (l == w.offering || l == w.answering)
    ensures l.loop.Waiting? && l.early != [] ==> l.wake || l.hand.Placing?
    ensures l.session.Some? ==> l.early == []
  {
    ReachableInv(acts, w);
  }

  /** The early buffer is exactly the first thirty-two messages since the last
      session ended, taken from the most recent offer or answer onward; and what
      a new session is fed holds at most one set of credentials, in first place,
      the newest that was received. */
  lemma EarlyBufferExact(acts: seq<Act>, w: World, l: Link)
    requires Reaches(acts, w) && (l == w.offering || l == w.answering)
    ensures l.early == Tail(l.heard) && |l.early| <= EARLY_MESSAGES
    ensures forall i :: 0 <= i < |l.early| && l.early[i].Creds? ==> i == 0 && l.early[i].attempt == l.taken
    ensures l.loop.Starting? ==>
              var l' := Step(l, [], Install);
              l'.loop.rest == Tail(l.heard) && l'.sessions[|l.sessions|].bound.None?
  {
    ReachableInv(acts, w);
  }
}
