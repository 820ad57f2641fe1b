/**
 Runs that reach the bound on abandonments, for every number of restarts.

 The dispatcher asks one session, and then cancels whichever attempt was installed
 last.  When the session that refused is replaced between the two sections, the
 cancellation lands on its successor, so one restart of the controlling side can cost
 the answering side two sessions, and so can the next one, and every one after it:
 "fewer abandonments than attempts" holds of the follows and of the strays, and not of
 their sum.

 The lemmas speak of any set of worlds that no act leaves; the reachable ones are such
 a set.
 */
module NegotiationRace {
  import opened Wrappers
  import opened Negotiation

  /** No act leads out of these worlds. */
  ghost predicate Closed(R: World -> bool) {
    forall v, a :: R(v) && Can(v, a) ==> R(Do(v, a))
  }

  /** The answering side takes a step and says nothing. */
  lemma Answers(R: World -> bool, v: World, e: Event, l: Link) returns (w: World)
    requires Closed(R) && R(v)
    requires Enabled(v.answering, v.toAnswering, e) && l == Step(v.answering, v.toAnswering, e)
    requires Sent(v.answering, e) == []
    ensures R(w) && w == World(v.offering, l, v.toOffering, Left(v.toAnswering, e))
  {
    w := Do(v, Answerer(e));
    assert v.toOffering + [] == v.toOffering;
  }

  lemma Offers(R: World -> bool, v: World, e: Event, l: Link) returns (w: World)
    requires Closed(R) && R(v) && !e.Take?
    requires Enabled(v.offering, v.toOffering, e) && l == Step(v.offering, v.toOffering, e)
    ensures R(w) && w == World(l, v.answering, v.toOffering, v.toAnswering + Sent(v.offering, e))
  {
    w := Do(v, Offerer(e));
  }

  // ----- what the two sides do ------------------------------------------------

  /** The answering side has nothing in hand or held, and is at `loop` with `session`. */
  predicate At(l: Link, loop: Loop, session: Option<nat>) {
    !l.controlling && l.hand.Idle? && l.early == [] && l.loop == loop && l.session == session
  }

  predicate InPlace(l: Link, loop: Loop) {
    l.sessions != [] && At(l, loop, Some(|l.sessions| - 1))
  }

  function Newest(l: Link): Session
    requires l.sessions != []
  {
    l.sessions[|l.sessions| - 1]
  }

  /** A fresh attempt of the offering side, announced. */
  lemma OfferingStarts(R: World -> bool, v: World) returns (w: World)
    requires Closed(R) && R(v) && v.offering.loop.Starting?
    ensures R(w) && w.answering == v.answering && w.toAnswering == v.toAnswering
    ensures |w.offering.sessions| == |v.offering.sessions| + 1 && w.offering.loop == Feeding(v.offering.early)
  {
    w := Offers(R, v, Install, Installed(v.offering));
    assert v.toAnswering + [] == v.toAnswering;
  }

  lemma OfferingBegins(R: World -> bool, v: World) returns (w: World)
    requires Closed(R) && R(v) && v.offering.loop == Feeding([])
    ensures R(w) && w.answering == v.answering && w.toAnswering == v.toAnswering
    ensures w.offering == v.offering.(loop := Live)
  {
    w := Offers(R, v, Begin, v.offering.(loop := Live));
    assert v.toAnswering + [] == v.toAnswering;
  }

  lemma OfferingAnnounces(R: World -> bool, v: World) returns (w: World)
    requires Closed(R) && R(v) && v.offering.loop.Live?
    ensures R(w) && w == v.(toAnswering := v.toAnswering + [Creds(|v.offering.sessions|)])
  {
    w := Offers(R, v, Announce, v.offering);
  }

  lemma OfferingStops(R: World -> bool, v: World) returns (w: World)
    requires Closed(R) && R(v) && v.offering.loop.Live?
    ensures R(w) && w.answering == v.answering && w.toAnswering == v.toAnswering
    ensures w.offering.sessions == v.offering.sessions && w.offering.loop.Starting? && w.offering.early == []
  {
    var l := v.offering.(session := None, early := [], heard := [], loop := Returning);
    w := Offers(R, v, Finish, l);
    w := Offers(R, w, Rest, l.(loop := Waiting));
    w := Offers(R, w, TimedOut, l.(loop := Starting));
    assert v.toAnswering + [] + [] + [] == v.toAnswering;
  }

  /** The answering side takes credentials that its session refuses. */
  lemma AnsweringRefuses(R: World -> bool, v: World, n: nat) returns (w: World)
    requires Closed(R) && R(v) && InPlace(v.answering, Live) && !Accepts(Newest(v.answering), n)
    requires v.toAnswering != [] && v.toAnswering[0] == Creds(n)
    ensures R(w)
    ensures w == World(v.offering, v.answering.(taken := n, hand := Refused(n, |v.answering.sessions| - 1)), v.toOffering, v.toAnswering[1..])
  {
    var s := |v.answering.sessions| - 1;
    w := AnsweringTakes(R, v, n, s);
    w := Answers(R, w, Hand, w.answering.(hand := Refused(n, s)));
  }

  lemma AnsweringTakes(R: World -> bool, v: World, n: nat, s: nat) returns (w: World)
    requires Closed(R) && R(v) && v.answering.hand.Idle? && v.answering.session == Some(s)
    requires v.toAnswering != [] && v.toAnswering[0] == Creds(n)
    ensures R(w)
    ensures w == World(v.offering, v.answering.(taken := n, hand := Asking(Creds(n), s)), v.toOffering, v.toAnswering[1..])
  {
    w := Answers(R, v, Take, v.answering.(taken := n, hand := Asking(Creds(n), s)));
  }

  lemma AnsweringAccepts(R: World -> bool, v: World, n: nat, s: nat) returns (w: World)
    requires Closed(R) && R(v) && v.answering.hand == Asking(Creds(n), s) && s < |v.answering.sessions|
    requires v.answering.sessions[s].bound.None?
    ensures R(w)
    ensures w == v.(answering := v.answering.(hand := Idle, sessions := v.answering.sessions[s := v.answering.sessions[s].(bound := Some(n))]))
  {
    w := Answers(R, v, Hand, Handed(v.answering));
  }

  /** And credentials that its session is bound by. */
  lemma AnsweringBinds(R: World -> bool, v: World, n: nat) returns (w: World)
    requires Closed(R) && R(v) && InPlace(v.answering, Live) && Newest(v.answering).bound.None?
    requires v.toAnswering == [Creds(n)]
    ensures R(w) && w.offering == v.offering && w.toAnswering == []
    ensures InPlace(w.answering, Live) && Newest(w.answering) == Newest(v.answering).(bound := Some(n))
    ensures |w.answering.sessions| == |v.answering.sessions| && w.answering.abandoned == v.answering.abandoned
  {
    w := AnsweringTakes(R, v, n, |v.answering.sessions| - 1);
    w := AnsweringAccepts(R, w, n, |v.answering.sessions| - 1);
  }

  /** The refused credentials cut off whichever attempt is in place by now. */
  lemma AnsweringCuts(R: World -> bool, v: World, n: nat, s: nat) returns (w: World)
    requires Closed(R) && R(v) && v.answering.hand == Refused(n, s)
    requires v.answering.sessions != [] && v.answering.session == Some(|v.answering.sessions| - 1) && !Newest(v.answering).cancelled
    requires !v.answering.controlling && v.answering.early == []
    ensures R(w) && w.offering == v.offering && w.toAnswering == v.toAnswering
    ensures w.answering.sessions == Ended(v.answering.sessions, |v.answering.sessions| - 1)
    ensures InPlace(w.answering, v.answering.loop) && w.answering.wake
    ensures |w.answering.abandoned| == |v.answering.abandoned| + 1
  {
    var l, t := v.answering, |v.answering.sessions| - 1;
    var l1 := l.(hand := Cancelling(t, n, s));
    w := Answers(R, v, Read, l1);
    w := Answers(R, w, Cancel, Cancelled(l1));
    w := Answers(R, w, Place, Cancelled(l1).(wake := true, hand := Idle));
  }

  /** An attempt of the answering side ends and the next one is installed, with whatever
      the dispatcher has in hand. */
  lemma AnsweringReplaces(R: World -> bool, v: World) returns (w: World)
    requires Closed(R) && R(v) && v.answering.loop.Live?
    ensures R(w) && w.offering == v.offering && w.toAnswering == v.toAnswering
    ensures w.answering.sessions == v.answering.sessions + [Session(None, false, v.answering.taken)]
    ensures w.answering.session == Some(|v.answering.sessions|) && w.answering.loop == Feeding([]) && w.answering.early == []
    ensures w.answering.hand == v.answering.hand && w.answering.abandoned == v.answering.abandoned
    ensures w.answering.controlling == v.answering.controlling
  {
    var l := v.answering.(session := None, early := [], heard := [], loop := Returning);
    w := Answers(R, v, Finish, l);
    w := Answers(R, w, Rest, l.(loop := Waiting));
    w := Answers(R, w, TimedOut, l.(loop := Starting));
    w := Answers(R, w, Install, Installed(l.(loop := Starting)));
  }

  lemma AnsweringBegins(R: World -> bool, v: World) returns (w: World)
    requires Closed(R) && R(v) && v.answering.loop == Feeding([])
    ensures R(w) && w == v.(answering := v.answering.(loop := Live))
  {
    w := Answers(R, v, Begin, v.answering.(loop := Live));
  }

  // ----- one restart ----------------------------------------------------------

  /** Both sides are in an attempt, the answering one bound to the other's, and every
      restart so far has cost two sessions. */
  predicate Poised(w: World, n: nat) {
    && |w.offering.sessions| == n >= 1 && w.offering.loop.Live?
    && w.toAnswering == []
    && InPlace(w.answering, Live)
    && Newest(w.answering).bound == Some(n) && !Newest(w.answering).cancelled
    && |w.answering.abandoned| == 2 * (n - 1)
  }

  lemma OfferingStartsOver(R: World -> bool, v: World) returns (w: World)
    requires Closed(R) && R(v) && v.offering.loop.Live?
    ensures R(w) && w.answering == v.answering && w.toAnswering == v.toAnswering
    ensures |w.offering.sessions| == |v.offering.sessions| + 1 && w.offering.loop.Live?
  {
    w := OfferingStops(R, v);
    w := OfferingStarts(R, w);
    w := OfferingBegins(R, w);
  }

  /** The offering side starts over, and announces itself twice. */
  lemma OfferingRestarts(R: World -> bool, v: World, n: nat) returns (w: World)
    requires Closed(R) && R(v) && Poised(v, n)
    ensures R(w) && w.answering == v.answering
    ensures |w.offering.sessions| == n + 1 && w.offering.loop.Live? && w.toAnswering == [Creds(n + 1), Creds(n + 1)]
  {
    w := OfferingStartsOver(R, v);
    w := OfferingAnnounces(R, w);
    w := OfferingAnnounces(R, w);
    assert [] + [Creds(n + 1)] + [Creds(n + 1)] == [Creds(n + 1), Creds(n + 1)];
  }

  /** The first announcement makes the answering side follow. */
  lemma FirstCut(R: World -> bool, v: World, n: nat) returns (w: World)
    requires Closed(R) && R(v) && InPlace(v.answering, Live) && v.toAnswering == [Creds(n + 1), Creds(n + 1)]
    requires Newest(v.answering).bound == Some(n) && !Newest(v.answering).cancelled
    ensures R(w) && w.offering == v.offering && w.toAnswering == [Creds(n + 1)]
    ensures InPlace(w.answering, Live) && Newest(w.answering).bound == Some(n)
    ensures |w.answering.abandoned| == |v.answering.abandoned| + 1
  {
    var u := AnsweringRefuses(R, v, n + 1);
    w := AnsweringCuts(R, u, n + 1, |v.answering.sessions| - 1);
  }

  lemma ReplacedThenCut(R: World -> bool, v: World, n: nat, s: nat) returns (w: World)
    requires Closed(R) && R(v) && v.answering.loop.Live? && v.answering.hand == Refused(n, s) && !v.answering.controlling
    ensures R(w) && w.offering == v.offering && w.toAnswering == v.toAnswering
    ensures InPlace(w.answering, Feeding([])) && |w.answering.abandoned| == |v.answering.abandoned| + 1
  {
    var u := AnsweringReplaces(R, v);
    w := AnsweringCuts(R, u, n, s);
  }

  /** The second is refused by the same session, which is replaced before the cancel
      function is read. */
  lemma SecondCut(R: World -> bool, v: World, n: nat) returns (w: World)
    requires Closed(R) && R(v) && InPlace(v.answering, Live) && v.toAnswering == [Creds(n + 1)]
    requires Newest(v.answering).bound == Some(n)
    ensures R(w) && w.offering == v.offering && w.toAnswering == []
    ensures InPlace(w.answering, Feeding([])) && |w.answering.abandoned| == |v.answering.abandoned| + 1
  {
    var u := AnsweringRefuses(R, v, n + 1);
    w := ReplacedThenCut(R, u, n + 1, |v.answering.sessions| - 1);
  }

  lemma AnsweringStartsOver(R: World -> bool, v: World) returns (w: World)
    requires Closed(R) && R(v) && InPlace(v.answering, Feeding([]))
    ensures R(w) && w.offering == v.offering && w.toAnswering == v.toAnswering
    ensures InPlace(w.answering, Live) && Newest(w.answering).bound.None? && !Newest(w.answering).cancelled
    ensures w.answering.abandoned == v.answering.abandoned
  {
    w := AnsweringBegins(R, v);
    w := AnsweringReplaces(R, w);
    w := AnsweringBegins(R, w);
  }

  /** The two meet again. */
  lemma Meet(R: World -> bool, v: World, n: nat) returns (w: World)
    requires Closed(R) && R(v) && InPlace(v.answering, Feeding([])) && v.toAnswering == []
    requires |v.offering.sessions| == n && v.offering.loop.Live?
    ensures R(w) && w.offering == v.offering && w.toAnswering == []
    ensures InPlace(w.answering, Live) && Newest(w.answering).bound == Some(n) && !Newest(w.answering).cancelled
    ensures w.answering.abandoned == v.answering.abandoned
  {
    w := AnsweringStartsOver(R, v);
    w := OfferingAnnounces(R, w);
    assert [] + [Creds(n)] == [Creds(n)];
    w := AnsweringBinds(R, w, n);
  }

  lemma OneRestartCostsTwo(R: World -> bool, v: World, n: nat) returns (w: World)
    requires Closed(R) && R(v) && Poised(v, n)
    ensures R(w) && Poised(w, n + 1)
  {
    w := OfferingRestarts(R, v, n);
    w := FirstCut(R, w, n);
    w := SecondCut(R, w, n);
    w := Meet(R, w, n + 1);
  }

  lemma FirstMeeting(R: World -> bool) returns (w: World)
    requires Closed(R) && R(START)
    ensures R(w) && Poised(w, 1)
  {
    w := OfferingStarts(R, START);
    w := OfferingBegins(R, w);
    w := Answers(R, w, Install, Installed(START.answering));
    w := Meet(R, w, 1);
  }

  lemma {:induction false} BoundIsReachedIn(R: World -> bool, n: nat) returns (w: World)
    requires Closed(R) && R(START) && n >= 1
    ensures R(w) && Poised(w, n)
    decreases n
  {
    if n == 1 {
      w := FirstMeeting(R);
    } else {
      var v := BoundIsReachedIn(R, n - 1);
      w := OneRestartCostsTwo(R, v, n - 1);
    }
  }

  ghost predicate Reachable(w: World) {
    exists acts :: Reaches(acts, w)
  }

  lemma ReachableIsClosed()
    ensures Closed(w => Reachable(w)) && Reachable(START)
  {
    assert Reaches([], START);
    forall v, a | Reachable(v) && Can(v, a) ensures Reachable(Do(v, a)) {
      var acts :| Reaches(acts, v);
      assert (acts + [a])[..|acts|] == acts;
      assert Reaches(acts + [a], Do(v, a));
    }
  }

  /** For every number of attempts of the controlling side there is a run in which the
      answering side loses two sessions to each of its restarts. */
  lemma BoundIsReached(n: nat) returns (acts: seq<Act>, w: World)
    requires n >= 1
    ensures Reaches(acts, w) && |w.offering.sessions| == n && |w.answering.abandoned| == 2 * (n - 1)
  {
    ReachableIsClosed();
    w := BoundIsReachedIn(v => Reachable(v), n);
    acts :| Reaches(acts, w);
  }
}
