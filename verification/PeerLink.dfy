/**
 The link object itself, its fields changed in place.

 The first methods are the sections that hold its lock or work its wake channel, each
 proved to be the protocol's step.  `Dispatch`, `ConnectOnce` and `Wait` are the code's
 functions made of them; they keep the protocol's invariant and say what a caller
 relies on.
 */
module PeerLinks {
  import opened Wrappers
  import opened Negotiation

  /** What a whole `dispatch` comes to, with nothing in between: a message is held, or
      handed to the session in place, and that session is ended by a goodbye, or by
      credentials it refuses unless this side offers. */
  function Dispatched(l: Link, m: Msg): Link
    requires Shaped(l)
  {
    var l' := if m.Creds? then l.(taken := m.attempt) else l;
    if l.session.None? then l'.(early := Held(l.early, m), heard := l.heard + [m], wake := true)
    else
      var s := l.session.value;
      match m
      case Creds(n) =>
        if Accepts(l.sessions[s], n) then l'.(sessions := l.sessions[s := Bind(l.sessions[s], n)])
        else if l.controlling then l'
        else l'.(sessions := Ended(l.sessions, s), wake := true,
                 abandoned := if l.sessions[s].cancelled then l.abandoned else l.abandoned + [Abandonment(s, n, false)])
      case Bye => l'.(sessions := Ended(l.sessions, s))
      case _ => l'
  }

  /** Ending the attempt in place, section by section. */
  function Abandoned(l: Link): Link
    requires (l.hand.Refused? || l.hand.Leaving?) && l.sessions != []
  {
    var l' := Cancelled(Targeted(l));
    if l'.hand.Placing? then Step(l', [], Place) else l'
  }

  /** `dispatch`, section by section. */
  function BySections(l: Link, m: Msg): Link
    requires Shaped(l)
  {
    var l' := Taken(l, m);
    if l'.hand.Placing? then Step(l', [], Place)
    else if Handed(l').hand.Idle? then Handed(l')
    else Abandoned(Handed(l'))
  }

  /** The credentials a list begins with, if it does. */
  function Leading(ms: seq<Msg>): Option<nat> {
    if ms != [] && ms[0].Creds? then Some(ms[0].attempt) else None
  }

  /** The sessions after the latest has been fed these messages. */
  function FedAll(ss: seq<Session>, ms: seq<Msg>): seq<Session>
    requires ss != []
    decreases |ms|
  {
    if ms == [] then ss
    else if ms[0].Creds? then FedAll(ss[|ss| - 1 := Bind(ss[|ss| - 1], ms[0].attempt)], ms[1..])
    else FedAll(ss, ms[1..])
  }

  /** The link once an attempt has begun: one session more, bound to the credentials that
      were waiting for it, if any were. */
  function Begun(l: Link): Link {
    l.(sessions := l.sessions + [Session(Leading(l.early), false, l.taken)],
       session := Some(|l.sessions|), loop := Live, early := [], heard := [])
  }

  class PeerLink {
    const controlling: bool
    var sessions: seq<Session>
    var session: Option<nat>
    var early: seq<Msg>
    var wake: bool
    var loop: Loop
    var hand: Dispatcher
    var escape: Escape
    /** History: the newest credentials taken off the queue. */
    var taken: nat
    ghost var heard: seq<Msg>
    ghost var abandoned: seq<Abandonment>

    ghost function View(): Link
      reads this
    {
      Link(controlling, sessions, session, early, wake, loop, hand, escape, taken, heard, abandoned)
    }

    ghost predicate Valid()
      reads this
    {
      Sound(View())
    }

    constructor (controlling: bool)
      ensures View() == Fresh(controlling) && Valid()
    {
      this.controlling := controlling;
      sessions, session, early, wake, loop, hand, escape := [], None, [], false, Starting, Idle, Resting;
      taken, heard, abandoned := 0, [], [];
    }

    // ----- sections -----------------------------------------------------------

    /** The section of `dispatch` that finds the session or holds the message. */
    method Arrive(m: Msg)
      requires hand.Idle?
      modifies this
      ensures View() == Taken(old(View()), m)
    {
      if m.Creds? {
        taken := m.attempt;
      }
      if session.None? {
        if m.Creds? {
          early := [];
        }
        if |early| < EARLY_MESSAGES {
          early := early + [m];
        }
        heard := heard + [m];
        hand := Placing;
      } else {
        hand := Asking(m, session.value);
      }
    }

    /** Handing the message to the session it was found for. */
    method Deliver()
      requires hand.Asking? && hand.session < |sessions|
      modifies this
      ensures View() == Handed(old(View()))
    {
      var i := hand.session;
      match hand.msg {
        case Creds(n) =>
          var s := sessions[i];
          if s.bound.None? || s.bound.value == n {
            sessions := sessions[i := Bind(s, n)];
            hand := Idle;
          } else if controlling {
            hand := Idle;
          } else {
            hand := Refused(n, i);
          }
        case Candidate(_) => hand := Idle;
        case Bye => hand := Leaving;
        case Offline => hand := Idle;
      }
    }

    /** Reading the cancel function of whichever attempt is the latest. */
    method ReadCancel()
      requires (hand.Refused? || hand.Leaving?) && sessions != []
      modifies this`hand
      ensures View() == Targeted(old(View()))
    {
      var latest := |sessions| - 1;
      hand := if hand.Leaving? then Ending(latest) else Cancelling(latest, hand.attempt, hand.session);
    }

    /** Calling it. */
    method CallCancel()
      requires (hand.Cancelling? || hand.Ending?) && hand.target < |sessions|
      modifies this
      ensures View() == Cancelled(old(View()))
    {
      var t := hand.target;
      if hand.Cancelling? && session == Some(t) && !sessions[t].cancelled {
        abandoned := abandoned + [Abandonment(t, hand.attempt, t != hand.session)];
      }
      sessions := sessions[t := sessions[t].(cancelled := true)];
      hand := if hand.Cancelling? then Placing else Idle;
    }

    /** The send that does nothing when the token is there already. */
    method PlaceToken()
      requires hand.Placing?
      modifies this`wake, this`hand
      ensures View() == Step(old(View()), [], Place)
    {
      wake := true;
      hand := Idle;
    }

    /** The section of `connectOnce` that puts its session in place. */
    method InstallSession()
      modifies this
      ensures View() == Installed(old(View()))
    {
      session := Some(|sessions|);
      sessions := sessions + [Session(None, false, taken)];
      loop := Feeding(early);
      early := [];
      heard := [];
    }

    /** One message of what was held. */
    method FeedNext()
      requires loop.Feeding? && loop.rest != [] && sessions != []
      modifies this`sessions, this`loop
      ensures View() == Fed(old(View()))
    {
      var m, i := loop.rest[0], |sessions| - 1;
      if m.Creds? {
        sessions := sessions[i := Bind(sessions[i], m.attempt)];
      }
      loop := Feeding(loop.rest[1..]);
    }

    /** The deferred section that forgets the session and whatever was held. */
    method EndAttempt()
      requires loop.Live?
      modifies this
      ensures View() == Step(old(View()), [], Finish)
    {
      early := [];
      session := None;
      heard := [];
      loop := Returning;
    }

    /** The loop that replays what was held. */
    method FeedEverything()
      requires loop.Feeding? && sessions != []
      modifies this`sessions, this`loop
      ensures loop == Feeding([]) && sessions == FedAll(old(sessions), old(loop.rest))
    {
      while loop.rest != []
        invariant loop.Feeding? && sessions != []
        invariant FedAll(sessions, loop.rest) == FedAll(old(sessions), old(loop.rest))
        decreases |loop.rest|
      {
        FeedNext();
      }
    }

    // ----- the functions made of them -----------------------------------------

    /** Ending the attempt in place, on behalf of the peer. */
    method Abandon()
      requires (hand.Refused? || hand.Leaving?) && sessions != []
      modifies this
      ensures View() == Abandoned(old(View()))
    {
      ReadCancel();
      CallCancel();
      if hand.Placing? {
        PlaceToken();
      }
    }

    method RunSections(m: Msg)
      requires Shaped(View()) && hand.Idle?
      modifies this
      ensures View() == BySections(old(View()), m)
    {
      Arrive(m);
      if hand.Placing? {
        PlaceToken();
      } else {
        Deliver();
        if !hand.Idle? {
          Abandon();
        }
      }
    }

    /** `dispatch`, run without interruption. */
    method Dispatch(m: Msg)
      requires Valid() && hand.Idle?
      requires m.Creds? ==> taken <= m.attempt && 1 <= m.attempt
      modifies this
      ensures Valid()
      ensures View() == Dispatched(old(View()), m)
    {
      SectionsKeep(View(), m);
      SectionsMean(View(), m);
      RunSections(m);
    }

    /** `connectOnce` up to the start of the session: it is fed at most one set of
        credentials, and is bound to it. */
    method BeginAttempt()
      requires Valid() && loop.Starting?
      modifies this
      ensures Valid() && View() == Begun(old(View()))
    {
      ghost var l := View();
      BeginKeeps(l);
      InstallSession();
      FeedEverything();
      loop := Live;
    }

    /** All of it, with nothing arriving meanwhile: one attempt more, no session and
        nothing held. */
    method ConnectOnce()
      requires Valid() && loop.Starting?
      modifies this
      ensures Valid()
      ensures View() == Begun(old(View())).(session := None, loop := Returning)
    {
      BeginAttempt();
      LoopKeeps(View(), [], Finish);
      EndAttempt();
    }

    /** The wait between two attempts.  With a token and the timer both ready either may
        be taken, and the token stays when the timer is; and it never waits for the timer
        alone while messages are held, unless the dispatcher is just placing the token. */
    method Wait(takesToken: bool)
      requires Valid() && loop.Returning? && (takesToken ==> wake)
      modifies this`loop, this`wake
      ensures Valid()
      ensures View() == old(View()).(loop := Starting, wake := old(wake) && !takesToken)
      ensures View() == Step(Step(old(View()), [], Rest), [], if takesToken then Woken else TimedOut)
      ensures old(early) != [] && !old(wake) ==> old(hand).Placing?
    {
      WaitKeeps(View(), takesToken);
      loop := Waiting;
      if takesToken {
        wake := false;
      }
      loop := Starting;
    }
  }

  lemma WaitKeeps(l: Link, takesToken: bool)
    requires Sound(l) && l.loop.Returning? && (takesToken ==> l.wake)
    ensures Sound(l.(loop := Starting, wake := l.wake && !takesToken))
  {
    LoopKeeps(l, [], Rest);
    LoopKeeps(l.(loop := Waiting), [], if takesToken then Woken else TimedOut);
  }

  lemma {:induction false} FedNoCreds(ss: seq<Session>, ms: seq<Msg>)
    requires ss != [] && forall i :: 0 <= i < |ms| ==> !ms[i].Creds?
    ensures FedAll(ss, ms) == ss
    decreases |ms|
  {
    if ms != [] {
      FedNoCreds(ss, ms[1..]);
    }
  }

  /** What a fresh session makes of a buffer that holds credentials only in first place. */
  lemma FreshIsFed(ss: seq<Session>, born: nat, ms: seq<Msg>)
    requires forall i :: 1 <= i < |ms| ==> !ms[i].Creds?
    ensures FedAll(ss + [Session(None, false, born)], ms) == ss + [Session(Leading(ms), false, born)]
  {
    if ms != [] {
      var now := ss + [Session(Leading(ms), false, born)];
      assert (ss + [Session(None, false, born)])[|ss| := Session(Leading(ms), false, born)] == now;
      FedNoCreds(now, ms[1..]);
    }
  }

  lemma {:induction false} FeedingKeeps(l: Link)
    requires Sound(l) && l.loop.Feeding? && l.sessions != []
    ensures Sound(l.(loop := Feeding([]), sessions := FedAll(l.sessions, l.loop.rest)))
    decreases |l.loop.rest|
  {
    if l.loop.rest == [] {
      assert l.(loop := Feeding([]), sessions := FedAll(l.sessions, l.loop.rest)) == l;
    } else {
      FeedKeeps(l);
      FeedingKeeps(Fed(l));
    }
  }

  lemma BeginKeeps(l: Link)
    requires Sound(l) && l.loop.Starting?
    ensures Sound(Begun(l)) && FedAll(Installed(l).sessions, l.early) == Begun(l).sessions
  {
    InstallKeeps(l);
    var l1 := Installed(l);
    FeedingKeeps(l1);
    FreshIsFed(l.sessions, l.taken, l.early);
    LoopKeeps(l1.(loop := Feeding([]), sessions := FedAll(l1.sessions, l1.loop.rest)), [], Begin);
  }

  lemma AbandonKeeps(l: Link)
    requires Sound(l) && (l.hand.Refused? || l.hand.Leaving?)
    ensures l.sessions != [] && Sound(Abandoned(l))
  {
    ReadKeeps(l);
    var l1 := Targeted(l);
    CancelKeeps(l1);
    var l2 := Cancelled(l1);
    if l2.hand.Placing? {
      DispatchKeeps(l2, [], Place);
    }
  }

  lemma HandKeeps(l: Link)
    requires Sound(l) && l.hand.Asking?
    ensures Sound(Handed(l))
  {
    if l.hand.msg.Creds? && Accepts(l.sessions[l.hand.session], l.hand.msg.attempt) {
      AcceptKeeps(l);
    } else {
      RefuseKeeps(l);
    }
  }

  lemma HandLeaves(l: Link)
    requires l.hand.Asking? && l.hand.session < |l.sessions|
    ensures Handed(l).hand.Idle? || Handed(l).hand.Refused? || Handed(l).hand.Leaving?
  {
  }

  lemma SectionsKeep(l: Link, m: Msg)
    requires Sound(l) && l.hand.Idle?
    requires m.Creds? ==> l.taken <= m.attempt && 1 <= m.attempt
    ensures Sound(BySections(l, m))
  {
    TakeKeeps(l, m);
    var l1 := Taken(l, m);
    if l1.hand.Placing? {
      DispatchKeeps(l1, [], Place);
    } else {
      HandKeeps(l1);
      HandLeaves(l1);
      if !Handed(l1).hand.Idle? {
        AbandonKeeps(Handed(l1));
      }
    }
  }

  lemma SectionsMean(l: Link, m: Msg)
    requires Shaped(l) && l.hand.Idle?
    ensures BySections(l, m) == Dispatched(l, m)
  {
  }
}
