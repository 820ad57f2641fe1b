/**
 Which schedules make a cancellation land on the wrong session.

 The dispatcher finds a session when it takes a message, and reads the cancel function
 of whichever attempt is the latest when that session has refused.  Whether the two are
 one session is decided by the schedule alone: by whether a new session was installed
 between the take and the read.
 */
module NegotiationStrays {
  import opened Wrappers
  import opened Common
  import opened Negotiation

  /** The answering side's dispatcher has read a cancel function since it last took a
      message. */
  predicate HasRead(acts: seq<Act>) {
    acts != [] &&
    var a := acts[|acts| - 1];
    if a == Answerer(Take) then false else a == Answerer(Read) || HasRead(acts[..|acts| - 1])
  }

  /** The answering side installed a session between its last take and the read that
      followed it, or, if there was none yet, between that take and now. */
  predicate Raced(acts: seq<Act>) {
    acts != [] &&
    var before, a := acts[..|acts| - 1], acts[|acts| - 1];
    if a == Answerer(Take) then false
    else Raced(before) || (a == Answerer(Install) && !HasRead(before))
  }

  /** What the race means: the session asked is not the latest, or not the one that
      was read. */
  ghost predicate Tells(l: Link, raced: bool, read: bool) {
    match l.hand
    case Asking(_, s) => !read && s < |l.sessions| && (raced <==> s < |l.sessions| - 1)
    case Refused(_, s) => !read && s < |l.sessions| && (raced <==> s < |l.sessions| - 1)
    case Leaving => !read
    case Cancelling(t, _, s) => read && (raced <==> t != s)
    case _ => true
  }

  lemma StepTells(l: Link, inbox: seq<Msg>, e: Event, raced: bool, read: bool)
    requires Shaped(l) && Tells(l, raced, read) && Enabled(l, inbox, e)
    ensures Tells(Step(l, inbox, e),
                  if e.Take? then false else raced || (e.Install? && !read),
                  if e.Take? then false else e.Read? || read)
  {
  }

  lemma OthersTell(w: World, a: Act)
    requires Can(w, a) && !a.Answerer?
    ensures Do(w, a).answering == w.answering
  {
  }

  lemma ActTells(acts: seq<Act>, w: World, a: Act)
    requires WorldInv(w) && Can(w, a) && Tells(w.answering, Raced(acts), HasRead(acts))
    ensures Tells(Do(w, a).answering, Raced(acts + [a]), HasRead(acts + [a]))
  {
    assert (acts + [a])[..|acts|] == acts;
    if a.Answerer? {
      StepTells(w.answering, w.toAnswering, a.e, Raced(acts), HasRead(acts));
    } else {
      OthersTell(w, a);
    }
  }

  lemma {:induction false} ScheduleTells(acts: seq<Act>, w: World)
    requires Reaches(acts, w)
    ensures Tells(w.answering, Raced(acts), HasRead(acts))
    decreases |acts|
  {
    if acts != [] {
      var k := |acts| - 1;
      var v :| Reaches(acts[..k], v) && Can(v, acts[k]) && w == Do(v, acts[k]);
      ReachableInv(acts[..k], v);
      ScheduleTells(acts[..k], v);
      ActTells(acts[..k], v, acts[k]);
      assert acts[..k] + [acts[k]] == acts;
    }
  }

  /** A schedule leads to one world. */
  lemma {:induction false} OneWorld(acts: seq<Act>, v: World, w: World)
    requires Reaches(acts, v) && Reaches(acts, w)
    ensures v == w
    decreases |acts|
  {
    if acts != [] {
      var k := |acts| - 1;
      var v' :| Reaches(acts[..k], v') && Can(v', acts[k]) && v == Do(v', acts[k]);
      var w' :| Reaches(acts[..k], w') && Can(w', acts[k]) && w == Do(w', acts[k]);
      OneWorld(acts[..k], v', w');
    }
  }

  // ---------------------------------------------------------------------------
  // Counting
  // ---------------------------------------------------------------------------

  /** The attempt about to be cancelled is the one in place, and nobody has cancelled
      it yet. */
  predicate Running(l: Link) {
    l.hand.Cancelling? && l.hand.target < |l.sessions| && l.session == Some(l.hand.target) && !l.sessions[l.hand.target].cancelled
  }

  /** The last act of the schedule cancels a running attempt of the answering side. */
  ghost predicate CutsOff(acts: seq<Act>) {
    acts != [] && acts[|acts| - 1] == Answerer(Cancel) && exists v :: Reaches(acts[..|acts| - 1], v) && Running(v.answering)
  }

  /** Cancellations of a running attempt after a race, or after none. */
  ghost function Cuts(acts: seq<Act>, raced: bool): nat {
    if acts == [] then 0
    else Cuts(acts[..|acts| - 1], raced) + One(CutsOff(acts) && Raced(acts[..|acts| - 1]) == raced)
  }

  lemma KindSnoc(log: seq<Abandonment>, a: Abandonment, stray: bool)
    ensures OfKind(log + [a], stray) == OfKind(log, stray) + if a.stray == stray then [a] else []
  {
    assert (log + [a])[..|log|] == log;
  }

  lemma LogOnlyByCancel(l: Link, inbox: seq<Msg>, e: Event)
    requires Enabled(l, inbox, e)
    ensures Step(l, inbox, e).abandoned ==
            if e.Cancel? && Running(l) then l.abandoned + [Abandonment(l.hand.target, l.hand.attempt, l.hand.target != l.hand.session)]
            else l.abandoned
  {
  }

  lemma ActLogs(acts: seq<Act>, v: World, a: Act, stray: bool)
    requires Reaches(acts, v) && Can(v, a)
    ensures |OfKind(Do(v, a).answering.abandoned, stray)| ==
            |OfKind(v.answering.abandoned, stray)| + One(a == Answerer(Cancel) && Running(v.answering) && Raced(acts) == stray)
  {
    var l := v.answering;
    if a.Answerer? {
      ScheduleTells(acts, v);
      LogOnlyByCancel(l, v.toAnswering, a.e);
      if a.e.Cancel? && Running(l) {
        KindSnoc(l.abandoned, Abandonment(l.hand.target, l.hand.attempt, l.hand.target != l.hand.session), stray);
      }
    } else {
      OthersTell(v, a);
    }
  }

  lemma CutsOffHere(acts: seq<Act>, v: World)
    requires acts != [] && Reaches(acts[..|acts| - 1], v)
    ensures CutsOff(acts) <==> acts[|acts| - 1] == Answerer(Cancel) && Running(v.answering)
  {
    if CutsOff(acts) {
      var u :| Reaches(acts[..|acts| - 1], u) && Running(u.answering);
      OneWorld(acts[..|acts| - 1], u, v);
    }
  }

  /** A session is abandoned as a stray exactly when a running attempt is cancelled after
      a race, and as a follow exactly when one is cancelled after none: the log counts
      them, act by act, for every schedule. */
  lemma {:induction false} StraysExactly(acts: seq<Act>, w: World, stray: bool)
    requires Reaches(acts, w)
    ensures |OfKind(w.answering.abandoned, stray)| == Cuts(acts, stray)
    decreases |acts|
  {
    if acts != [] {
      var k := |acts| - 1;
      var v :| Reaches(acts[..k], v) && Can(v, acts[k]) && w == Do(v, acts[k]);
      StraysExactly(acts[..k], v, stray);
      ActLogs(acts[..k], v, acts[k], stray);
      CutsOffHere(acts, v);
    }
  }

  /** So all abandonments are the cancellations of a running attempt, those after a race
      and those after none; and together they are fewer than the controlling side's
      attempts on every schedule where nothing is installed between a take and the read
      that follows it. */
  lemma TotalBoundExactly(acts: seq<Act>, w: World)
    requires Reaches(acts, w)
    ensures |w.answering.abandoned| == Cuts(acts, true) + Cuts(acts, false)
    ensures w.answering.abandoned != [] ==> Cuts(acts, false) < |w.offering.sessions| && Cuts(acts, true) < |w.offering.sessions|
    ensures w.answering.abandoned != [] && Unraced(acts) ==> |w.answering.abandoned| < |w.offering.sessions|
  {
    StraysExactly(acts, w, true);
    StraysExactly(acts, w, false);
    KindsPartition(w.answering.abandoned);
    AbandonmentsBounded(acts, w);
    if Unraced(acts) {
      UnracedCutsNobody(acts);
    }
  }

  /** No cancellation comes after a race. */
  predicate Unraced(acts: seq<Act>) {
    forall k :: 0 <= k < |acts| && acts[k] == Answerer(Cancel) ==> !Raced(acts[..k])
  }

  lemma {:induction false} UnracedCutsNobody(acts: seq<Act>)
    requires Unraced(acts)
    ensures Cuts(acts, true) == 0
    decreases |acts|
  {
    if acts != [] {
      var before := acts[..|acts| - 1];
      forall k | 0 <= k < |before| && before[k] == Answerer(Cancel) ensures !Raced(before[..k]) {
        assert before[..k] == acts[..k];
      }
      UnracedCutsNobody(before);
    }
  }
}
