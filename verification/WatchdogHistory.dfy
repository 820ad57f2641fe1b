/**
 The watchdog told from history alone: what it does at every tick of every run, by who
 was carrying when, who was tried when, and when it last reconnected, without a look at
 what it remembers.
 */
module WatchdogHistory {
  import opened Wrappers
  import opened Common
  import opened Watchdog

  /** The latest tick, up to `i`, at which the peer was carrying or was first noticed. */
  function AnchorOf(ts: seq<Entry>, k: Key, i: nat): (a: nat)
    requires i < |ts|
    ensures a <= i
  {
    if i == 0 || Carries(ts, i, k) || !Present(ts, i - 1, k) then i else AnchorOf(ts, k, i - 1)
  }

  /** How long the peer has not been carrying. */
  function SilenceOf(ts: seq<Entry>, k: Key, i: nat): int
    requires i < |ts|
  {
    Now(ts, i) - Now(ts, AnchorOf(ts, k, i))
  }

  lemma {:induction false} AnchorIsAnchor(ts: seq<Entry>, k: Key, i: nat)
    requires i < |ts| && Present(ts, i, k)
    ensures Anchor(ts, k, AnchorOf(ts, k, i), i)
  {
    if !(i == 0 || Carries(ts, i, k) || !Present(ts, i - 1, k)) {
      AnchorIsAnchor(ts, k, i - 1);
    }
  }

  lemma {:induction false} ClockIsAnchorOf(ts: seq<Entry>, k: Key, i: nat)
    requires Run(ts) && i < |ts|
    ensures k in ts[i].memory.lastGood <==> Present(ts, i, k)
    ensures Present(ts, i, k) ==> ts[i].memory.lastGood[k] == Now(ts, AnchorOf(ts, k, i))
  {
    assert Happened(ts, i);
    if i > 0 {
      ClockIsAnchorOf(ts, k, i - 1);
    }
  }

  lemma SilentIsNotCarrying(ts: seq<Entry>, k: Key, i: nat)
    requires i < |ts| && SilenceOf(ts, k, i) > 0
    ensures !Carries(ts, i, k)
  {
  }

  // ---------------------------------------------------------------------------
  // The longest silence
  // ---------------------------------------------------------------------------

  /** The peer reported has been silent longest, and is none only if nobody is silent. */
  lemma WorstIsLongest(ts: seq<Entry>, i: nat, k: Key)
    requires Run(ts) && i < |ts|
    ensures ts[i].report.worst >= 0
    ensures Present(ts, i, k) ==> SilenceOf(ts, k, i) <= ts[i].report.worst
    ensures ts[i].report.worstPeer == Some(k) ==> Present(ts, i, k) && SilenceOf(ts, k, i) == ts[i].report.worst > 0
    ensures ts[i].report.worstPeer == None ==> ts[i].report.worst == 0
  {
    assert Happened(ts, i);
    ClockIsAnchorOf(ts, k, i);
  }

  /** The peers silent for three minutes. */
  function Quiet(ts: seq<Entry>, i: nat): set<Key>
    requires i < |ts|
  {
    set k | k in ts[i].input.states && SilenceOf(ts, k, i) >= 3 * MINUTE
  }

  lemma StuckIsQuiet(ts: seq<Entry>, i: nat)
    requires Run(ts) && i < |ts|
    ensures ts[i].report.stuck == |Quiet(ts, i)|
  {
    assert Happened(ts, i);
    var e := ts[i];
    var stuck := Stuck(e.memory.lastGood, e.input.states, e.input.now);
    forall k ensures k in stuck <==> k in Quiet(ts, i) {
      ClockIsAnchorOf(ts, k, i);
    }
    assert stuck == Quiet(ts, i);
  }

  // ---------------------------------------------------------------------------
  // Rebuilding one link
  // ---------------------------------------------------------------------------

  /** A rebuild of `k` was tried at `j`, and `k` has been in the map ever since. */
  ghost predicate TriedAt(ts: seq<Entry>, k: Key, j: nat, i: nat) {
    j < i < |ts| && ts[j].report.tried == Some(k) && forall x :: j <= x <= i ==> Present(ts, x, k)
  }

  /** Every such try is more than five minutes ago. */
  ghost predicate NotTriedLately(ts: seq<Entry>, k: Key, i: nat)
    requires i < |ts|
  {
    forall j :: TriedAt(ts, k, j, i) ==> Now(ts, i) - Now(ts, j) > 5 * MINUTE
  }

  /** The latest of them, before the present tick is looked at. */
  function LastTry(ts: seq<Entry>, k: Key, i: nat): (j: Option<nat>)
    requires i <= |ts|
    ensures j.Some? ==> j.value < i
  {
    if i == 0 || !Present(ts, i - 1, k) then None
    else if ts[i - 1].report.tried == Some(k) then Some(i - 1)
    else LastTry(ts, k, i - 1)
  }

  lemma {:induction false} RebuildClockIsLastTry(ts: seq<Entry>, k: Key, i: nat)
    requires Run(ts) && i <= |ts|
    ensures k in Before(ts, i).lastRebuild <==> LastTry(ts, k, i).Some?
    ensures LastTry(ts, k, i).Some? ==> Before(ts, i).lastRebuild[k] == Now(ts, LastTry(ts, k, i).value)
    decreases i
  {
    if i > 0 {
      RebuildClockIsLastTry(ts, k, i - 1);
      assert Happened(ts, i - 1);
    }
  }

  lemma {:induction false} LastTryIsLatest(ts: seq<Entry>, k: Key, i: nat, j: nat)
    requires i < |ts| && Present(ts, i, k)
    ensures LastTry(ts, k, i).Some? ==> TriedAt(ts, k, LastTry(ts, k, i).value, i)
    ensures TriedAt(ts, k, j, i) ==> LastTry(ts, k, i).Some? && j <= LastTry(ts, k, i).value
    decreases i
  {
    if i > 0 && Present(ts, i - 1, k) {
      if ts[i - 1].report.tried != Some(k) {
        LastTryIsLatest(ts, k, i - 1, j);
        if LastTry(ts, k, i).Some? {
          assert TriedAt(ts, k, LastTry(ts, k, i).value, i - 1);
        }
        if TriedAt(ts, k, j, i) {
          assert j < i - 1 && TriedAt(ts, k, j, i - 1);
        }
      }
    }
  }

  lemma LatelyExactly(ts: seq<Entry>, k: Key, i: nat)
    requires Run(ts) && i < |ts| && Present(ts, i, k)
    ensures NotTriedLately(ts, k, i) <==> LastTry(ts, k, i).None? || Now(ts, i) - Now(ts, LastTry(ts, k, i).value) > 5 * MINUTE
  {
    var last := LastTry(ts, k, i);
    LastTryIsLatest(ts, k, i, 0);
    forall j | TriedAt(ts, k, j, i) ensures last.Some? && Now(ts, j) <= Now(ts, last.value) {
      LastTryIsLatest(ts, k, i, j);
      ClockNeverGoesBack(ts, j, last.value);
    }
  }

  /** A link is rebuilt if and only if its peer is the one reported silent longest, for
      more than five minutes, and its rebuild was not tried in the last five. */
  lemma RebuildsExactly(ts: seq<Entry>, i: nat, k: Key)
    requires Run(ts) && i < |ts|
    ensures ts[i].report.tried == Some(k) <==>
              ts[i].report.worstPeer == Some(k) && SilenceOf(ts, k, i) > 5 * MINUTE && NotTriedLately(ts, k, i)
  {
    assert Happened(ts, i);
    WorstIsLongest(ts, i, k);
    RebuildClockIsLastTry(ts, k, i);
    if Present(ts, i, k) {
      LatelyExactly(ts, k, i);
    }
  }

  /** So a peer silent for more than five minutes, and longer than any other, is tried at
      once, unless it was tried already. */
  lemma LongestIsTried(ts: seq<Entry>, i: nat, k: Key)
    requires Run(ts) && i < |ts| && Present(ts, i, k) && SilenceOf(ts, k, i) > 5 * MINUTE && NotTriedLately(ts, k, i)
    requires forall other :: Present(ts, i, other) && other != k ==> SilenceOf(ts, other, i) < SilenceOf(ts, k, i)
    ensures ts[i].report.tried == Some(k)
  {
    WorstIsLongest(ts, i, k);
    var p := ts[i].report.worstPeer.value;
    WorstIsLongest(ts, i, p);
    RebuildsExactly(ts, i, k);
  }

  // ---------------------------------------------------------------------------
  // Reconnecting and giving up
  // ---------------------------------------------------------------------------

  ghost predicate NotResetLately(ts: seq<Entry>, i: nat)
    requires i < |ts|
  {
    forall j :: 0 <= j < i && ts[j].report.action == Reset ==> Now(ts, i) - Now(ts, j) >= 15 * MINUTE
  }

  function LastReset(ts: seq<Entry>, i: nat): (j: Option<nat>)
    requires i <= |ts|
    ensures j.Some? ==> j.value < i
  {
    if i == 0 then None else if ts[i - 1].report.action == Reset then Some(i - 1) else LastReset(ts, i - 1)
  }

  lemma {:induction false} ResetClockIsLastReset(ts: seq<Entry>, i: nat)
    requires Run(ts) && i <= |ts|
    ensures Before(ts, i).lastReset == if LastReset(ts, i).Some? then Some(Now(ts, LastReset(ts, i).value)) else None
    decreases i
  {
    if i > 0 {
      ResetClockIsLastReset(ts, i - 1);
      assert Happened(ts, i - 1);
    }
  }

  lemma {:induction false} LastResetIsLatest(ts: seq<Entry>, i: nat, j: nat)
    requires i <= |ts|
    ensures LastReset(ts, i).Some? ==> ts[LastReset(ts, i).value].report.action == Reset
    ensures j < i && ts[j].report.action == Reset ==> LastReset(ts, i).Some? && j <= LastReset(ts, i).value
    decreases i
  {
    if i > 0 && ts[i - 1].report.action != Reset {
      LastResetIsLatest(ts, i - 1, j);
    }
  }

  lemma ResetLatelyExactly(ts: seq<Entry>, i: nat)
    requires Run(ts) && i < |ts|
    ensures NotResetLately(ts, i) <==> LastReset(ts, i).None? || Now(ts, i) - Now(ts, LastReset(ts, i).value) >= 15 * MINUTE
  {
    var last := LastReset(ts, i);
    LastResetIsLatest(ts, i, 0);
    forall j | 0 <= j < i && ts[j].report.action == Reset ensures last.Some? && Now(ts, j) <= Now(ts, last.value) {
      LastResetIsLatest(ts, i, j);
      ClockNeverGoesBack(ts, j, last.value);
    }
  }

  /** A watchdog that has given up has ended, so one that runs has not. */
  lemma {:induction false} NeverGaveUp(ts: seq<Entry>, i: nat)
    requires Run(ts) && i < |ts|
    ensures Before(ts, i).lastRestart == None
    decreases i
  {
    if i > 0 {
      NeverGaveUp(ts, i - 1);
      assert Happened(ts, i - 1) && Happened(ts, i);
    }
  }

  /** No link was rebuilt, somebody has been silent for three minutes, at least half of the
      peers have, and the last reconnect is a quarter of an hour ago. */
  ghost predicate Trouble(ts: seq<Entry>, i: nat)
    requires i < |ts|
  {
    && !(ts[i].report.tried.Some? && ts[i].input.rebuildWorks)
    && Quiet(ts, i) != {} && 2 * |Quiet(ts, i)| >= |ts[i].input.states|
    && NotResetLately(ts, i)
  }

  /** Somebody has been silent for more than twenty minutes, at least four fifths for three,
      and there is somebody to replace the process. */
  ghost predicate Hopeless(ts: seq<Entry>, i: nat)
    requires i < |ts|
  {
    && (exists k :: k in ts[i].input.states && SilenceOf(ts, k, i) > 20 * MINUTE)
    && 5 * |Quiet(ts, i)| >= 4 * |ts[i].input.states|
    && ts[i].input.mayGiveUp
  }

  lemma QuietExactly(ts: seq<Entry>, i: nat)
    requires Run(ts) && i < |ts|
    ensures Quiet(ts, i) != {} <==> ts[i].report.worst >= 3 * MINUTE
    ensures (exists k :: k in ts[i].input.states && SilenceOf(ts, k, i) > 20 * MINUTE) <==> ts[i].report.worst > 20 * MINUTE
  {
    forall k | k in ts[i].input.states ensures SilenceOf(ts, k, i) <= ts[i].report.worst {
      WorstIsLongest(ts, i, k);
    }
    if ts[i].report.worst > 0 {
      var p := ts[i].report.worstPeer;
      WorstIsLongest(ts, i, if p.Some? then p.value else "");
      assert p.Some? ==> (SilenceOf(ts, p.value, i) >= 3 * MINUTE ==> p.value in Quiet(ts, i));
    }
  }

  lemma SharesExactly(ts: seq<Entry>, i: nat)
    requires Run(ts) && i < |ts| && Quiet(ts, i) != {}
    ensures Share(ts[i].report.stuck, |ts[i].input.states|) >= RESET_SHARE <==> 2 * |Quiet(ts, i)| >= |ts[i].input.states|
    ensures Share(ts[i].report.stuck, |ts[i].input.states|) >= RESTART_SHARE <==> 5 * |Quiet(ts, i)| >= 4 * |ts[i].input.states|
  {
    StuckIsQuiet(ts, i);
    var k :| k in Quiet(ts, i);
    assert k in ts[i].input.states.Keys;
    assert |ts[i].input.states| == |ts[i].input.states.Keys| > 0;
    Shares(ts[i].report.stuck, |ts[i].input.states|);
  }

  /** What the watchdog does, at every tick of every run, and why. */
  lemma ActsExactly(ts: seq<Entry>, i: nat)
    requires Run(ts) && i < |ts|
    ensures ts[i].report.action == Rebuilt <==> ts[i].report.tried.Some? && ts[i].input.rebuildWorks
    ensures ts[i].report.action == Reset <==> Trouble(ts, i) && !Hopeless(ts, i)
    ensures ts[i].report.action == GaveUp <==> Trouble(ts, i) && Hopeless(ts, i)
  {
    assert Happened(ts, i);
    QuietExactly(ts, i);
    ResetClockIsLastReset(ts, i);
    ResetLatelyExactly(ts, i);
    NeverGaveUp(ts, i);
    if Quiet(ts, i) != {} {
      SharesExactly(ts, i);
    }
  }
}
