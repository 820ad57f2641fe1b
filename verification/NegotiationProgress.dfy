/**
 What keeps the negotiation going: no goroutine is ever without a next step, and a token
 wakes the loop once.
 */
module NegotiationProgress {
  import opened Wrappers
  import opened Common
  import opened Negotiation

  predicate OfLoop(e: Event) {
    e.Woken? || e.TimedOut? || e.Install? || e.Feed? || e.Begin? || e.Finish? || e.Rest?
  }

  predicate OfDispatcher(e: Event) {
    e.Hand? || e.Read? || e.Cancel? || e.Place?
  }

  predicate OfSupervisor(e: Event) {
    e.Choose? || e.Cut? || e.Prod?
  }

  /** The retry loop, the supervisor and, with a message in hand or waiting, the dispatcher
      always have a next step; and a machine may say goodbye or be nudged at any time. */
  lemma NobodyIsStuck(l: Link, inbox: seq<Msg>) returns (loop: Event, hand: Event, escape: Event)
    requires Sound(l)
    ensures OfLoop(loop) && Enabled(l, inbox, loop)
    ensures !l.hand.Idle? ==> OfDispatcher(hand) && Enabled(l, inbox, hand)
    ensures l.hand.Idle? && inbox != [] ==> Enabled(l, inbox, Take)
    ensures OfSupervisor(escape) && Enabled(l, inbox, escape)
    ensures Enabled(l, inbox, Farewell) && Enabled(l, inbox, Nudge)
  {
    loop := match l.loop
      case Waiting => TimedOut
      case Starting => Install
      case Feeding(rest) => if rest == [] then Begin else Feed
      case Live => Finish
      case Returning => Rest;
    hand := match l.hand
      case Idle => Place
      case Asking(_, _) => Hand
      case Refused(_, _) => Read
      case Cancelling(_, _, _) => Cancel
      case Leaving => Read
      case Ending(_) => Cancel
      case Placing => Place;
    escape := match l.escape
      case Resting => Choose
      case Cutting(_) => Cut
      case Prodding => Prod;
  }

  /** So in every reachable world. */
  lemma NobodyIsStuckInARun(acts: seq<Act>, w: World) returns (loop: Event, hand: Event, escape: Event)
    requires Reaches(acts, w)
    ensures Can(w, Answerer(loop)) && OfLoop(loop) && Can(w, Answerer(escape)) && OfSupervisor(escape)
    ensures !w.answering.hand.Idle? ==> Can(w, Answerer(hand)) && OfDispatcher(hand)
  {
    ReachableInv(acts, w);
    loop, hand, escape := NobodyIsStuck(w.answering, w.toAnswering);
  }

  // ----- tokens ---------------------------------------------------------------

  predicate Places(e: Event) {
    e.Place? || e.Nudge? || e.Prod?
  }

  /** How often one side did something of a kind. */
  function Count(acts: seq<Act>, answering: bool, kind: Event -> bool): nat {
    if acts == [] then 0
    else
      var a := acts[|acts| - 1];
      Count(acts[..|acts| - 1], answering, kind)
      + One(if answering then a.Answerer? && kind(a.e) else a.Offerer? && kind(a.e))
  }

  function Side(w: World, answering: bool): Link {
    if answering then w.answering else w.offering
  }

  lemma TokenStep(l: Link, inbox: seq<Msg>, e: Event)
    requires Enabled(l, inbox, e)
    ensures Places(e) ==> Step(l, inbox, e).wake
    ensures e.Woken? ==> l.wake && !Step(l, inbox, e).wake
    ensures !Places(e) && !e.Woken? ==> Step(l, inbox, e).wake == l.wake
  {
  }

  lemma ActOfSide(w: World, a: Act, answering: bool)
    requires Can(w, a)
    ensures var mine := if answering then a.Answerer? else a.Offerer?;
            if mine then Side(Do(w, a), answering) == Step(Side(w, answering), if answering then w.toAnswering else w.toOffering, a.e)
            else Side(Do(w, a), answering) == Side(w, answering)
  {
  }

  /** A token wakes the loop once: on either side the loop is never woken more often than
      tokens were placed, and one that is left over is there to be taken. */
  lemma {:induction false} TokensAreSpent(acts: seq<Act>, w: World, answering: bool)
    requires Reaches(acts, w)
    ensures Count(acts, answering, (e: Event) => e.Woken?) + One(Side(w, answering).wake) <= Count(acts, answering, Places)
    ensures Count(acts, answering, Places) > 0 && Count(acts, answering, (e: Event) => e.Woken?) == 0 ==> Side(w, answering).wake
    decreases |acts|
  {
    if acts != [] {
      var k := |acts| - 1;
      var v :| Reaches(acts[..k], v) && Can(v, acts[k]) && w == Do(v, acts[k]);
      TokensAreSpent(acts[..k], v, answering);
      ActOfSide(v, acts[k], answering);
      if answering && acts[k].Answerer? {
        TokenStep(v.answering, v.toAnswering, acts[k].e);
      } else if !answering && acts[k].Offerer? {
        TokenStep(v.offering, v.toOffering, acts[k].e);
      }
    }
  }
}
