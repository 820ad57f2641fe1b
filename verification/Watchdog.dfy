/**
 The watchdog: the machine that decides, every tick, whether to rebuild one link,
 to reconnect the signalling, or to ask for the process to be replaced.

 `Ticked` is everything one tick promises, whatever order the maps are walked in.
 A run is any sequence of ticks under a clock that never goes back, ending when
 the watchdog gives up.
 */
module Watchdog {
  import opened Wrappers
  import opened Common

  const STUCK_AFTER := 3 * MINUTE
  const RESET_EVERY := 15 * MINUTE
  const GIVE_UP_AFTER := 20 * MINUTE
  const REBUILD_AFTER := 5 * MINUTE
  const RESTART_EVERY := 60 * MINUTE
  const RESET_SHARE := 0.5
  const RESTART_SHARE := 0.8

  type Key = string

  /** What the watchdog remembers between ticks. */
  datatype Memory = Memory(
    lastGood: map<Key, int>,
    lastRebuild: map<Key, int>,
    lastReset: Option<int>,
    lastRestart: Option<int>)

  const NOTHING_YET := Memory(map[], map[], None, None)

  /** What a tick is given: which peers are carrying, the time, whether rebuilding
      the worst link would work, and whether anybody would replace the process. */
  datatype Input = Input(states: map<Key, bool>, now: int, rebuildWorks: bool, mayGiveUp: bool)

  datatype Action = Nothing | Rebuilt | Reset | GaveUp

  datatype Report = Report(worst: int, worstPeer: Option<Key>, stuck: nat, tried: Option<Key>, action: Action)

  /** The clocks after the walk: a peer that carries or was never seen starts now,
      and only peers in the map have a clock. */
  function Clocks(lastGood: map<Key, int>, states: map<Key, bool>, now: int): map<Key, int> {
    map k | k in states :: if states[k] || k !in lastGood then now else lastGood[k]
  }

  function Stuck(good: map<Key, int>, states: map<Key, bool>, now: int): set<Key> {
    set k | k in states && !states[k] && k in good && now - good[k] >= STUCK_AFTER
  }

  function Share(stuck: nat, all: nat): real {
    if all > 0 then stuck as real / all as real else 0.0
  }

  /** The longest silence, and a peer that has it. */
  ghost predicate Worst(good: map<Key, int>, states: map<Key, bool>, now: int, worst: int, peer: Option<Key>) {
    && worst >= 0
    && (forall k :: k in states && !states[k] && k in good ==> now - good[k] <= worst)
    && match peer
       case None => worst == 0
       case Some(p) => p in states && !states[p] && p in good && now - good[p] == worst && worst > 0
  }

  function Tries(rebuilds: map<Key, int>, now: int, worst: int, peer: Option<Key>): Option<Key> {
    if worst > REBUILD_AFTER && peer.Some? && (peer.value !in rebuilds || now - rebuilds[peer.value] > REBUILD_AFTER)
    then peer else None
  }

  function Decides(m: Memory, i: Input, worst: int, stuck: nat, tried: Option<Key>): Action {
    var share := Share(stuck, |i.states|);
    if tried.Some? && i.rebuildWorks then Rebuilt
    else if worst < STUCK_AFTER || share < RESET_SHARE then Nothing
    else if m.lastReset.Some? && i.now - m.lastReset.value < RESET_EVERY then Nothing
    else if worst > GIVE_UP_AFTER && share >= RESTART_SHARE && i.mayGiveUp
            && (m.lastRestart.None? || i.now - m.lastRestart.value > RESTART_EVERY) then GaveUp
    else Reset
  }

  /** Everything one tick promises. */
  ghost predicate Ticked(m: Memory, i: Input, r: Report, m': Memory) {
    var good := Clocks(m.lastGood, i.states, i.now);
    var rebuilds := map k | k in m.lastRebuild && k in i.states :: m.lastRebuild[k];
    && Worst(good, i.states, i.now, r.worst, r.worstPeer)
    && r.stuck == |Stuck(good, i.states, i.now)|
    && r.tried == Tries(rebuilds, i.now, r.worst, r.worstPeer)
    && r.action == Decides(m, i, r.worst, r.stuck, r.tried)
    && m' == Memory(good,
                    if r.tried.Some? then rebuilds[r.tried.value := i.now] else rebuilds,
                    if r.action == Reset then Some(i.now) else m.lastReset,
                    if r.action == GaveUp then Some(i.now) else m.lastRestart)
  }

  class Dog {
    var lastGood: map<Key, int>
    var lastRebuild: map<Key, int>
    var lastReset: Option<int>
    var lastRestart: Option<int>

    function Recall(): Memory
      reads this
    {
      Memory(lastGood, lastRebuild, lastReset, lastRestart)
    }

    constructor ()
      ensures Recall() == NOTHING_YET
    {
      lastGood, lastRebuild, lastReset, lastRestart := map[], map[], None, None;
    }

    /** The first walk: clocks are moved and the worst peer is found. */
    method Look(states: map<Key, bool>, now: int) returns (worst: int, worstPeer: Option<Key>)
      modifies this`lastGood
      ensures forall k :: k in states ==> k in lastGood && lastGood[k] == Clocks(old(lastGood), states, now)[k]
      ensures Worst(Clocks(old(lastGood), states, now), states, now, worst, worstPeer)
    {
      ghost var before := lastGood;
      ghost var good := Clocks(before, states, now);
      worst, worstPeer := 0, None;
      var todo := states.Keys;
      while todo != {}
        invariant todo <= states.Keys
        invariant forall k :: k in states && k !in todo ==> k in lastGood && lastGood[k] == good[k]
        invariant forall k :: k in todo ==> (k in lastGood <==> k in before) && (k in before ==> lastGood[k] == before[k])
        invariant worst >= 0
        invariant forall k :: k in states && k !in todo && !states[k] ==> now - good[k] <= worst
        invariant worstPeer.None? ==> worst == 0
        invariant worstPeer.Some? ==>
          worstPeer.value in states && !states[worstPeer.value] && now - good[worstPeer.value] == worst && worst > 0
        decreases |todo|
      {
        var key :| key in todo;
        todo := todo - {key};
        if states[key] || key !in lastGood {
          lastGood := lastGood[key := now];
        } else if now - lastGood[key] > worst {
          worst, worstPeer := now - lastGood[key], Some(key);
        }
      }
    }

    /** Only peers in the map keep their clocks. */
    method Forget(states: map<Key, bool>)
      modifies this`lastGood, this`lastRebuild
      ensures lastGood == map k | k in old(lastGood) && k in states :: old(lastGood)[k]
      ensures lastRebuild == map k | k in old(lastRebuild) && k in states :: old(lastRebuild)[k]
    {
      lastGood := Kept(lastGood, states);
      lastRebuild := Kept(lastRebuild, states);
    }

    /** How many peers have been silent too long. */
    method CountStuck(states: map<Key, bool>, now: int) returns (stuck: nat)
      ensures stuck == |Stuck(lastGood, states, now)|
    {
      stuck := 0;
      var todo := states.Keys;
      ghost var found: set<Key> := {};
      while todo != {}
        invariant todo <= states.Keys
        invariant found == set k | k in Stuck(lastGood, states, now) && k !in todo
        invariant stuck == |found|
        decreases |todo|
      {
        var key :| key in todo;
        todo := todo - {key};
        if !states[key] && key in lastGood && now - lastGood[key] >= STUCK_AFTER {
          stuck := stuck + 1;
          found := found + {key};
        }
      }
      assert found == Stuck(lastGood, states, now);
    }

    /** The decision, the clocks having been read. */
    method Decide(i: Input, worst: int, worstPeer: Option<Key>, stuck: nat) returns (tried: Option<Key>, action: Action)
      modifies this`lastRebuild, this`lastReset, this`lastRestart
      ensures tried == Tries(old(lastRebuild), i.now, worst, worstPeer)
      ensures action == Decides(old(Recall()), i, worst, stuck, tried)
      ensures lastRebuild == if tried.Some? then old(lastRebuild)[tried.value := i.now] else old(lastRebuild)
      ensures lastReset == if action == Reset then Some(i.now) else old(lastReset)
      ensures lastRestart == if action == GaveUp then Some(i.now) else old(lastRestart)
    {
      var share := Share(stuck, |i.states|);
      tried := None;
      if worst > REBUILD_AFTER && worstPeer.Some? {
        var p := worstPeer.value;
        if p !in lastRebuild || i.now - lastRebuild[p] > REBUILD_AFTER {
          tried := Some(p);
          lastRebuild := lastRebuild[p := i.now];
          if i.rebuildWorks {
            return tried, Rebuilt;
          }
        }
      }
      if worst < STUCK_AFTER || share < RESET_SHARE {
        return tried, Nothing;
      }
      if lastReset.Some? && i.now - lastReset.value < RESET_EVERY {
        return tried, Nothing;
      }
      if worst > GIVE_UP_AFTER && share >= RESTART_SHARE && i.mayGiveUp {
        if lastRestart.None? || i.now - lastRestart.value > RESTART_EVERY {
          lastRestart := Some(i.now);
          return tried, GaveUp;
        }
      }
      lastReset := Some(i.now);
      return tried, Reset;
    }

    method Tick(i: Input) returns (r: Report)
      modifies this
      ensures Ticked(old(Recall()), i, r, Recall())
    {
      ghost var m := Recall();
      var worst, worstPeer := Look(i.states, i.now);
      Forget(i.states);
      assert lastGood == Clocks(m.lastGood, i.states, i.now);
      var stuck := CountStuck(i.states, i.now);
      var tried, action := Decide(i, worst, worstPeer, stuck);
      r := Report(worst, worstPeer, stuck, tried, action);
    }
  }

  /** The loop that deletes the keys of one map that another no longer has. */
  method Kept(clocks: map<Key, int>, states: map<Key, bool>) returns (kept: map<Key, int>)
    ensures kept == map k | k in clocks && k in states :: clocks[k]
  {
    kept := clocks;
    var todo := clocks.Keys;
    while todo != {}
      invariant todo <= clocks.Keys
      invariant kept == map k | k in clocks && (k in todo || k in states) :: clocks[k]
      decreases |todo|
    {
      var key :| key in todo;
      todo := todo - {key};
      if key !in states {
        kept := kept - {key};
      }
    }
  }

  // ---------------------------------------------------------------------------
  // Runs
  // ---------------------------------------------------------------------------

  datatype Entry = Entry(input: Input, report: Report, memory: Memory)

  function Before(ts: seq<Entry>, i: nat): Memory
    requires i <= |ts|
  {
    if i == 0 then NOTHING_YET else ts[i - 1].memory
  }

  ghost predicate Happened(ts: seq<Entry>, i: nat)
    requires i < |ts|
  {
    && Ticked(Before(ts, i), ts[i].input, ts[i].report, ts[i].memory)
    && (i > 0 ==> ts[i - 1].input.now <= ts[i].input.now && ts[i - 1].report.action != GaveUp)
  }

  ghost predicate Run(ts: seq<Entry>) {
    forall i :: 0 <= i < |ts| ==> Happened(ts, i)
  }

  function Now(ts: seq<Entry>, i: nat): int
    requires i < |ts|
  {
    ts[i].input.now
  }

  lemma {:induction false} ClockNeverGoesBack(ts: seq<Entry>, i: nat, j: nat)
    requires Run(ts) && i <= j < |ts|
    ensures Now(ts, i) <= Now(ts, j)
    decreases j - i
  {
    if i < j {
      assert Happened(ts, j);
      ClockNeverGoesBack(ts, i, j - 1);
    }
  }

  predicate Present(ts: seq<Entry>, i: nat, k: Key)
    requires i < |ts|
  {
    k in ts[i].input.states
  }

  predicate Carries(ts: seq<Entry>, i: nat, k: Key)
    requires i < |ts|
  {
    Present(ts, i, k) && ts[i].input.states[k]
  }

  /** `a` is the latest tick, up to tick `i`, at which `k` was carrying or was
      first noticed: it has been present ever since, and silent ever since. */
  ghost predicate Anchor(ts: seq<Entry>, k: Key, a: nat, i: nat) {
    && a <= i < |ts|
    && Present(ts, a, k)
    && (Carries(ts, a, k) || a == 0 || !Present(ts, a - 1, k))
    && forall j :: a < j <= i ==> Present(ts, j, k) && !Carries(ts, j, k)
  }

  /** The clock of every peer, and of nobody else, is the time of its anchor. */
  lemma {:induction false} ClockIsAnchor(ts: seq<Entry>, k: Key, i: nat) returns (a: nat)
    requires Run(ts) && i < |ts|
    ensures k in ts[i].memory.lastGood <==> Present(ts, i, k)
    ensures Present(ts, i, k) ==> Anchor(ts, k, a, i) && ts[i].memory.lastGood[k] == Now(ts, a)
  {
    assert Happened(ts, i);
    a := i;
    if i > 0 {
      var b := ClockIsAnchor(ts, k, i - 1);
      if Present(ts, i, k) && !Carries(ts, i, k) && Present(ts, i - 1, k) {
        a := b;
      }
    }
  }

  /** For `d` and longer, up to tick `i`, `k` was watched and never carrying. */
  ghost predicate Silent(ts: seq<Entry>, k: Key, i: nat, d: int) {
    && i < |ts|
    && (forall j :: 0 <= j <= i && Now(ts, i) - d < Now(ts, j) ==> Present(ts, j, k) && !Carries(ts, j, k))
    && (exists j :: 0 <= j <= i && Now(ts, j) <= Now(ts, i) - d && Present(ts, j, k))
  }

  lemma LongClockIsSilence(ts: seq<Entry>, k: Key, i: nat, d: int)
    requires Run(ts) && i < |ts| && k in ts[i].memory.lastGood
    requires d > 0 && Now(ts, i) - ts[i].memory.lastGood[k] >= d
    ensures Silent(ts, k, i, d)
  {
    var a := ClockIsAnchor(ts, k, i);
    forall j | 0 <= j <= i && Now(ts, i) - d < Now(ts, j) ensures Present(ts, j, k) && !Carries(ts, j, k) {
      if j <= a {
        ClockNeverGoesBack(ts, j, a);
      }
    }
    assert Now(ts, a) <= Now(ts, i) - d && Present(ts, a, k);
  }

  lemma ScaleKeepsOrder(a: real, b: real, n: real)
    requires n > 0.0
    ensures a < b ==> a * n < b * n
  {
    if a < b {
      assert (b - a) * n > 0.0;
    }
  }

  lemma QuotientAtLeast(s: real, n: real, c: real)
    requires n > 0.0
    ensures s / n >= c <==> s >= c * n
  {
    var x := s / n;
    assert x * n == s;
    ScaleKeepsOrder(x, c, n);
    ScaleKeepsOrder(c, x, n);
  }

  /** Shares of a whole number of peers, without the division. */
  lemma Shares(stuck: nat, all: nat)
    ensures all > 0 ==> (Share(stuck, all) >= RESET_SHARE <==> 2 * stuck >= all)
    ensures all > 0 ==> (Share(stuck, all) >= RESTART_SHARE <==> 5 * stuck >= 4 * all)
  {
    if all > 0 {
      QuotientAtLeast(stuck as real, all as real, RESET_SHARE);
      QuotientAtLeast(stuck as real, all as real, RESTART_SHARE);
    }
  }

  /** An escalation means that at least half of the peers were silent for three
      minutes, and giving up that at least four fifths were and one of them for
      twenty. */
  lemma EscalationNeedsSilence(ts: seq<Entry>, i: nat) returns (silent: set<Key>)
    requires Run(ts) && i < |ts|
    requires ts[i].report.action == Reset || ts[i].report.action == GaveUp
    ensures silent <= ts[i].input.states.Keys && silent != {}
    ensures forall k :: k in silent ==> Silent(ts, k, i, STUCK_AFTER)
    ensures 2 * |silent| >= |ts[i].input.states|
    ensures ts[i].report.action == GaveUp ==>
              5 * |silent| >= 4 * |ts[i].input.states| && exists k :: k in silent && Silent(ts, k, i, GIVE_UP_AFTER)
  {
    assert Happened(ts, i);
    var e := ts[i];
    silent := Stuck(e.memory.lastGood, e.input.states, e.input.now);
    forall k | k in silent ensures Silent(ts, k, i, STUCK_AFTER) {
      LongClockIsSilence(ts, k, i, STUCK_AFTER);
    }
    var p := e.report.worstPeer.value;
    assert p in silent;
    assert |e.input.states| > 0 by {
      assert p in e.input.states.Keys;
      assert |e.input.states.Keys| > 0;
    }
    Shares(|silent|, |e.input.states|);
    if e.report.action == GaveUp {
      LongClockIsSilence(ts, p, i, GIVE_UP_AFTER);
    }
  }

  /** A mesh most of which is carrying is never disturbed as a whole: in
      particular one dead peer among three or more does nothing of the kind. */
  lemma HealthyMajorityIsLeftAlone(ts: seq<Entry>, i: nat)
    requires Run(ts) && i < |ts|
    requires var states := ts[i].input.states; 2 * |set k | k in states && !states[k]| < |states|
    ensures ts[i].report.action == Nothing || ts[i].report.action == Rebuilt
  {
    if ts[i].report.action == Reset || ts[i].report.action == GaveUp {
      var states := ts[i].input.states;
      var silent := EscalationNeedsSilence(ts, i);
      forall k | k in silent ensures k in states && !states[k] {
        assert Silent(ts, k, i, STUCK_AFTER);
        assert Present(ts, i, k) && !Carries(ts, i, k);
      }
      SubsetSize(silent, set k | k in states && !states[k]);
    }
  }

  /** The reset clock is the last reset. */
  lemma {:induction false} ResetRemembered(ts: seq<Entry>, i: nat, j: nat)
    requires Run(ts) && i <= j < |ts| && ts[i].report.action == Reset
    ensures ts[j].memory.lastReset.Some? && Now(ts, i) <= ts[j].memory.lastReset.value <= Now(ts, j)
    decreases j - i
  {
    assert Happened(ts, j);
    if i < j {
      ResetRemembered(ts, i, j - 1);
    }
  }

  /** Reconnecting happens at most once a quarter of an hour, and giving up keeps
      the same distance from it. */
  lemma ResetsFarApart(ts: seq<Entry>, i: nat, j: nat)
    requires Run(ts) && i < j < |ts|
    requires ts[i].report.action == Reset && (ts[j].report.action == Reset || ts[j].report.action == GaveUp)
    ensures Now(ts, j) - Now(ts, i) >= RESET_EVERY
  {
    ResetRemembered(ts, i, j - 1);
    assert Happened(ts, j);
  }

  /** A try to rebuild a link is remembered, or the link's own clock has started
      over since. */
  ghost predicate TryCounts(m: Memory, k: Key, at: int) {
    || (k in m.lastRebuild && at <= m.lastRebuild[k])
    || (k in m.lastGood ==> at <= m.lastGood[k])
  }

  lemma {:induction false} TryRemembered(ts: seq<Entry>, i: nat, j: nat, k: Key)
    requires Run(ts) && i <= j < |ts| && ts[i].report.tried == Some(k)
    ensures TryCounts(ts[j].memory, k, Now(ts, i))
    decreases j - i
  {
    assert Happened(ts, j);
    if i < j {
      TryRemembered(ts, i, j - 1, k);
      ClockNeverGoesBack(ts, i, j);
    }
  }

  /** No link is rebuilt twice within five minutes, not even one whose peer left
      the map and came back in between. */
  lemma RebuildsFarApart(ts: seq<Entry>, i: nat, j: nat, k: Key)
    requires Run(ts) && i < j < |ts|
    requires ts[i].report.tried == Some(k) && ts[j].report.tried == Some(k)
    ensures Now(ts, j) - Now(ts, i) > REBUILD_AFTER
  {
    TryRemembered(ts, i, j - 1, k);
    ClockNeverGoesBack(ts, i, j - 1);
    assert Happened(ts, j);
  }

  // ----- what the comments claim and the code does not keep -------------------

  const MESH: map<Key, bool> := map["a" := false, "b" := true, "c" := true]
  const ALONE: map<Key, bool> := map["a" := false]
  const T1 := 21 * MINUTE
  const T2 := 22 * MINUTE
  const M0 := Memory(map["a" := 0, "b" := 0, "c" := 0], map[], None, None)
  const M1 := Memory(map["a" := 0, "b" := T1, "c" := T1], map["a" := T1], None, None)
  const M2 := Memory(map["a" := 0], map["a" := T1], None, Some(T2))
  const E0 := Entry(Input(MESH, 0, false, true), Report(0, None, 0, None, Nothing), M0)
  const E1 := Entry(Input(MESH, T1, false, true), Report(T1, Some("a"), 1, Some("a"), Nothing), M1)
  const E2 := Entry(Input(ALONE, T2, false, true), Report(T2, Some("a"), 1, None, GaveUp), M2)

  lemma DeadPeerNoticed()
    ensures Ticked(NOTHING_YET, E0.input, E0.report, M0)
  {
    assert Clocks(map[], MESH, 0) == M0.lastGood;
    assert Stuck(M0.lastGood, MESH, 0) == {};
  }

  lemma OneOfThreeEscalatesNothing()
    ensures Ticked(M0, E1.input, E1.report, M1)
  {
    assert "a"[0] != "b"[0] && "a"[0] != "c"[0] && "b"[0] != "c"[0];
    assert Clocks(M0.lastGood, MESH, T1) == M1.lastGood;
    assert Stuck(M1.lastGood, MESH, T1) == {"a"};
    assert MESH.Keys == {"a", "b", "c"};
    assert |MESH| == |MESH.Keys| == 3;
    Shares(1, 3);
  }

  lemma LastOneGivesUp()
    ensures Ticked(M1, E2.input, E2.report, M2)
  {
    assert Clocks(M1.lastGood, ALONE, T2) == M2.lastGood;
    assert Stuck(M2.lastGood, ALONE, T2) == {"a"};
    assert ALONE.Keys == {"a"};
    assert |ALONE| == |ALONE.Keys| == 1;
    Shares(1, 1);
  }

  /** Giving up is said to come only after a reconnect was tried.  It need not:
      one peer dead for twenty minutes among healthy ones escalates nothing, and
      when the healthy ones leave the map the dead one is all there is. */
  lemma GaveUpWithoutReset() returns (ts: seq<Entry>)
    ensures Run(ts) && ts != [] && ts[|ts| - 1].report.action == GaveUp
    ensures forall i :: 0 <= i < |ts| ==> ts[i].report.action != Reset
  {
    ts := [E0, E1, E2];
    DeadPeerNoticed();
    OneOfThreeEscalatesNothing();
    LastOneGivesUp();
    assert Happened(ts, 0) && Happened(ts, 1) && Happened(ts, 2);
  }

  /** The guard every escalation passes: three minutes of silence somewhere, half
      of the mesh, and no link rebuilt instead. */
  predicate Escalates(e: Entry) {
    && e.report.action != Rebuilt
    && e.report.worst >= STUCK_AFTER
    && Share(e.report.stuck, |e.input.states|) >= RESET_SHARE
  }

  lemma {:induction false} ResetClockHasReset(ts: seq<Entry>, i: nat) returns (j: nat)
    requires Run(ts) && i < |ts| && ts[i].memory.lastReset.Some?
    ensures j <= i && ts[j].report.action == Reset
  {
    assert Happened(ts, i);
    if ts[i].report.action == Reset {
      return i;
    }
    j := ResetClockHasReset(ts, i - 1);
  }

  /** What is true instead, exactly: a reconnect came before giving up if and only
      if some earlier tick passed the guard. */
  lemma ResetFirstIfEverDue(ts: seq<Entry>, i: nat)
    requires Run(ts) && i < |ts| && ts[i].report.action == GaveUp
    ensures (exists j :: 0 <= j < i && ts[j].report.action == Reset) <==> (exists j :: 0 <= j < i && Escalates(ts[j]))
  {
    forall j | 0 <= j < i && ts[j].report.action == Reset ensures Escalates(ts[j]) {
      assert Happened(ts, j);
    }
    if j :| 0 <= j < i && Escalates(ts[j]) {
      assert Happened(ts, j) && Happened(ts, j + 1);
      if ts[j].report.action != Reset {
        assert Before(ts, j).lastReset.Some?;
        var r := ResetClockHasReset(ts, j - 1);
      }
    }
  }
}
