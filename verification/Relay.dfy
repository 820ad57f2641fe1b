/**
 The scheduler that gives a relayed pair another chance at a direct path.

 `pickRelayToRetry` walks a map, so the order in which it meets the pairs is
 anybody's guess; `Picks` is everything it promises whatever that order was.  A
 run is any sequence of calls under a clock that never goes back.
 */
module RelayScheduler {
  import opened Wrappers
  import opened Common

  const RELAY_SETTLED_FOR := 10 * MINUTE
  const RELAY_RETRY_MIN := 15 * MINUTE
  const RELAY_RETRY_MAX := 240 * MINUTE

  type Key = string

  datatype Kind = Relayed | Direct | NoPath

  datatype Watch = Watch(since: int, next: int, wait: int)

  function Noted(now: int): Watch {
    Watch(now, now + RELAY_SETTLED_FOR, RELAY_RETRY_MIN)
  }

  function Bumped(w: Watch, now: int): Watch {
    w.(next := now + w.wait, wait := if 2 * w.wait < RELAY_RETRY_MAX then 2 * w.wait else RELAY_RETRY_MAX)
  }

  /** A pair is due when it is on the relay, was already watched, and its time has
      come. */
  predicate Due(seen: map<Key, Watch>, paths: map<Key, Kind>, now: int, k: Key) {
    k in paths && paths[k] == Relayed && k in seen && seen[k].next <= now
  }

  /** The records after the walk, before the chosen one is charged for its try:
      a direct path or a missing peer ends a record, no path at all leaves it
      alone, and a relayed pair gets one. */
  function Watched(seen: map<Key, Watch>, paths: map<Key, Kind>, now: int): map<Key, Watch> {
    map k | k in paths && paths[k] != Direct && (k in seen || paths[k] == Relayed) ::
      if k in seen then seen[k] else Noted(now)
  }

  /** Everything one call promises. */
  ghost predicate Picks(seen: map<Key, Watch>, paths: map<Key, Kind>, now: int, pick: Option<Key>, seen': map<Key, Watch>) {
    match pick
    case None =>
      && (forall k :: !Due(seen, paths, now, k))
      && seen' == Watched(seen, paths, now)
    case Some(p) =>
      && Due(seen, paths, now, p)
      && (forall k :: Due(seen, paths, now, k) ==> seen[p].since <= seen[k].since)
      && seen' == Watched(seen, paths, now)[p := Bumped(seen[p], now)]
  }

  /** The records half way through the walk, `todo` being what is still ahead. */
  ghost predicate Walked(seen: map<Key, Watch>, paths: map<Key, Kind>, todo: set<Key>, now: int, seen': map<Key, Watch>) {
    && (forall k :: k in seen' <==>
          if k in paths && k !in todo then paths[k] == Relayed || (k in seen && paths[k] == NoPath) else k in seen)
    && (forall k :: k in seen' ==> seen'[k] == if k in seen then seen[k] else Noted(now))
  }

  /** The choice half way through the walk. */
  ghost predicate Chosen(seen: map<Key, Watch>, paths: map<Key, Kind>, todo: set<Key>, now: int, pick: Option<Key>) {
    match pick
    case None => forall k :: k !in todo ==> !Due(seen, paths, now, k)
    case Some(p) =>
      && p !in todo && Due(seen, paths, now, p)
      && forall k :: k !in todo && Due(seen, paths, now, k) ==> seen[p].since <= seen[k].since
  }

  class Scheduler {
    var seen: map<Key, Watch>

    constructor ()
      ensures seen == map[]
    {
      seen := map[];
    }

    /** The walk over the paths, in whatever order the map gives them. */
    method Walk(paths: map<Key, Kind>, now: int) returns (pick: Option<Key>)
      modifies this
      ensures Walked(old(seen), paths, {}, now, seen)
      ensures Chosen(old(seen), paths, {}, now, pick)
    {
      ghost var before := seen;
      pick := None;
      var todo := paths.Keys;
      while todo != {}
        invariant todo <= paths.Keys
        invariant Walked(before, paths, todo, now, seen)
        invariant Chosen(before, paths, todo, now, pick)
        decreases |todo|
      {
        var key :| key in todo;
        todo := todo - {key};
        match paths[key]
        case Direct =>
          seen := seen - {key};
        case NoPath =>
        case Relayed =>
          if key !in seen {
            seen := seen[key := Noted(now)];
          } else if seen[key].next <= now {
            if pick.None? || seen[key].since < seen[pick.value].since {
              pick := Some(key);
            }
          }
      }
    }

    /** Only pairs in the map keep their records. */
    method Forget(paths: map<Key, Kind>)
      modifies this
      ensures seen == map k | k in old(seen) && k in paths :: old(seen)[k]
    {
      ghost var before := seen;
      var todo := seen.Keys;
      while todo != {}
        invariant todo <= before.Keys
        invariant seen == map k | k in before && (k in todo || k in paths) :: before[k]
        decreases |todo|
      {
        var key :| key in todo;
        todo := todo - {key};
        if key !in paths {
          seen := seen - {key};
        }
      }
    }

    method Pick(paths: map<Key, Kind>, now: int) returns (pick: Option<Key>)
      modifies this
      ensures Picks(old(seen), paths, now, pick, seen)
    {
      ghost var before := seen;
      pick := Walk(paths, now);
      Forget(paths);
      assert seen == Watched(before, paths, now);
      if pick.Some? {
        seen := seen[pick.value := Bumped(seen[pick.value], now)];
      }
    }
  }

  // ---------------------------------------------------------------------------
  // Runs
  // ---------------------------------------------------------------------------

  /** One call: what it was given, what it picked, and the records it left. */
  datatype Tick = Tick(paths: map<Key, Kind>, now: int, pick: Option<Key>, seen: map<Key, Watch>)

  function Before(ts: seq<Tick>, i: nat): map<Key, Watch>
    requires i <= |ts|
  {
    if i == 0 then map[] else ts[i - 1].seen
  }

  ghost predicate Called(ts: seq<Tick>, i: nat)
    requires i < |ts|
  {
    && Picks(Before(ts, i), ts[i].paths, ts[i].now, ts[i].pick, ts[i].seen)
    && (i > 0 ==> ts[i - 1].now <= ts[i].now)
  }

  ghost predicate Run(ts: seq<Tick>) {
    forall i :: 0 <= i < |ts| ==> Called(ts, i)
  }

  lemma {:induction false} ClockNeverGoesBack(ts: seq<Tick>, i: nat, j: nat)
    requires Run(ts) && i <= j < |ts|
    ensures ts[i].now <= ts[j].now
    decreases j - i
  {
    if i < j {
      assert Called(ts, j);
      ClockNeverGoesBack(ts, i, j - 1);
    }
  }

  // ----- one record: fifteen minutes, doubling, up to four hours --------------

  /** The wait charged for the n-th try of one record: 15, 30, 60, 120, 240, 240
      and so on, in minutes. */
  function Backoff(n: nat): int {
    if n == 0 then RELAY_RETRY_MIN
    else if 2 * Backoff(n - 1) < RELAY_RETRY_MAX then 2 * Backoff(n - 1)
    else RELAY_RETRY_MAX
  }

  lemma {:induction false} BackoffFlattens(n: nat)
    ensures RELAY_RETRY_MIN <= Backoff(n) <= RELAY_RETRY_MAX
    ensures n >= 4 ==> Backoff(n) == RELAY_RETRY_MAX
  {
    if n > 0 {
      BackoffFlattens(n - 1);
    }
    if n == 4 {
      assert Backoff(1) == 30 * MINUTE;
      assert Backoff(2) == 60 * MINUTE;
      assert Backoff(3) == 120 * MINUTE;
    }
  }

  /** The record of `k` made at tick `a` is still the one held after tick `b - 1`,
      however often the pair had no path in between. */
  ghost predicate SameRecord(ts: seq<Tick>, k: Key, a: nat, b: nat) {
    && a < b <= |ts|
    && k !in Before(ts, a)
    && forall i :: a <= i < b ==> k in ts[i].seen
  }

  /** When `k` was picked between two ticks. */
  function PickTimes(ts: seq<Tick>, k: Key, a: nat, b: nat): seq<int>
    requires b <= |ts|
  {
    if b <= a then []
    else PickTimes(ts, k, a, b - 1) + if ts[b - 1].pick == Some(k) then [ts[b - 1].now] else []
  }

  /** The first try comes ten minutes after the pair was noticed at the earliest,
      and the n-th gap is at least the n-th wait. */
  ghost predicate Spaced(noticed: int, times: seq<int>) {
    && (times != [] ==> noticed + RELAY_SETTLED_FOR <= times[0])
    && forall i :: 0 <= i < |times| - 1 ==> times[i] + Backoff(i) <= times[i + 1]
  }

  ghost predicate Charged(w: Watch, noticed: int, times: seq<int>) {
    && w.since == noticed
    && w.wait == Backoff(|times|)
    && w.next == if times == [] then noticed + RELAY_SETTLED_FOR else times[|times| - 1] + Backoff(|times| - 1)
  }

  /** One call leaves a record alone unless it picks it. */
  lemma RecordStep(seen: map<Key, Watch>, paths: map<Key, Kind>, now: int, pick: Option<Key>, seen': map<Key, Watch>, k: Key)
    requires Picks(seen, paths, now, pick, seen') && k in seen'
    ensures k !in seen ==> pick != Some(k) && seen'[k] == Noted(now)
    ensures k in seen ==> seen'[k] == if pick == Some(k) then Bumped(seen[k], now) else seen[k]
    ensures pick == Some(k) ==> k in seen && seen[k].next <= now
  {
  }

  lemma ChargeStep(w: Watch, noticed: int, times: seq<int>, now: int)
    requires Charged(w, noticed, times) && Spaced(noticed, times) && w.next <= now
    ensures Charged(Bumped(w, now), noticed, times + [now]) && Spaced(noticed, times + [now])
  {
    forall i | 0 <= i < |times| ensures (times + [now])[i] + Backoff(i) <= (times + [now])[i + 1] {
    }
  }

  lemma PickTimesStep(ts: seq<Tick>, k: Key, a: nat, b: nat)
    requires a <= b < |ts|
    ensures PickTimes(ts, k, a, b + 1) ==
            if ts[b].pick == Some(k) then PickTimes(ts, k, a, b) + [ts[b].now] else PickTimes(ts, k, a, b)
  {
  }

  ghost predicate BacksOff(w: Watch, noticed: int, times: seq<int>) {
    Charged(w, noticed, times) && Spaced(noticed, times)
  }

  lemma {:induction false} RecordBacksOff(ts: seq<Tick>, k: Key, a: nat, b: nat)
    requires Run(ts) && SameRecord(ts, k, a, b + 1)
    ensures BacksOff(ts[b].seen[k], ts[a].now, PickTimes(ts, k, a, b + 1))
    decreases b
  {
    var t := ts[b];
    assert Called(ts, b);
    RecordStep(Before(ts, b), t.paths, t.now, t.pick, t.seen, k);
    PickTimesStep(ts, k, a, b);
    if a < b {
      RecordBacksOff(ts, k, a, b - 1);
      if t.pick == Some(k) {
        ChargeStep(ts[b - 1].seen[k], ts[a].now, PickTimes(ts, k, a, b), t.now);
      }
    }
  }

  /** One record is tried at times spaced by 15, 30, 60, 120, 240, 240 minutes and
      so on, at the least. */
  lemma RetriesBackOff(ts: seq<Tick>, k: Key, a: nat, b: nat)
    requires Run(ts) && SameRecord(ts, k, a, b)
    ensures Spaced(ts[a].now, PickTimes(ts, k, a, b))
  {
    RecordBacksOff(ts, k, a, b - 1);
  }

  lemma {:induction false} TriesTakeTime(noticed: int, times: seq<int>, i: nat, j: nat)
    requires Spaced(noticed, times) && i <= j < |times|
    ensures times[i] <= times[j] && (j - i - 4) * RELAY_RETRY_MAX <= times[j] - times[i]
    decreases j - i
  {
    if i < j {
      TriesTakeTime(noticed, times, i, j - 1);
      BackoffFlattens(j - 1);
      assert times[j - 1] + Backoff(j - 1) <= times[j];
    }
  }

  /** However a run goes, one record is tried at most five times and once more for
      every four hours, in any stretch of it. */
  lemma FewRetries(ts: seq<Tick>, k: Key, a: nat, b: nat, i: nat, j: nat)
    requires Run(ts) && SameRecord(ts, k, a, b)
    requires i <= j < |PickTimes(ts, k, a, b)|
    ensures var times := PickTimes(ts, k, a, b);
            j - i + 1 <= 5 + (times[j] - times[i]) / RELAY_RETRY_MAX
  {
    RetriesBackOff(ts, k, a, b);
    TriesTakeTime(ts[a].now, PickTimes(ts, k, a, b), i, j);
  }

  // ----- fairness -------------------------------------------------------------

  /** Other watched pairs that go before `k`, or may. */
  function Rivals(seen: map<Key, Watch>, k: Key): set<Key>
    requires k in seen
  {
    set j | j in seen && j != k && seen[j].since <= seen[k].since
  }

  ghost predicate Sane(seen: map<Key, Watch>) {
    forall k :: k in seen ==> RELAY_RETRY_MIN <= seen[k].wait && seen[k].since < seen[k].next
  }

  lemma {:induction false} RecordsSane(ts: seq<Tick>, i: nat)
    requires Run(ts) && i <= |ts|
    ensures Sane(Before(ts, i))
  {
    if i > 0 {
      RecordsSane(ts, i - 1);
      var t := ts[i - 1];
      assert Called(ts, i - 1);
    }
  }

  /** A call that passes a due pair over picks one of its rivals; rivals never
      gain a member, and the one picked is out of the way for fifteen minutes. */
  lemma PassedOver(seen: map<Key, Watch>, paths: map<Key, Kind>, now: int, pick: Option<Key>, seen': map<Key, Watch>, k: Key)
    requires Picks(seen, paths, now, pick, seen') && Sane(seen)
    requires Due(seen, paths, now, k) && pick != Some(k)
    ensures k in seen' && seen'[k] == seen[k]
    ensures Rivals(seen', k) <= Rivals(seen, k)
    ensures pick.Some? && pick.value in Rivals(seen, k) && seen[pick.value].next <= now
    ensures pick.value in seen' && now + RELAY_RETRY_MIN <= seen'[pick.value].next
    ensures forall j :: j in Rivals(seen', k) && j != pick.value ==> seen'[j] == seen[j]
  {
  }

  /** The rivals that could still be picked before a deadline. */
  function Ready(seen: map<Key, Watch>, k: Key, deadline: int): set<Key>
    requires k in seen
  {
    set j | j in Rivals(seen, k) && seen[j].next < deadline
  }

  lemma {:induction false} Race(ts: seq<Tick>, k: Key, i: nat, m: nat, deadline: int) returns (at: nat)
    requires Run(ts) && i + m < |ts|
    requires Due(Before(ts, i), ts[i].paths, ts[i].now, k)
    requires forall t :: i <= t <= i + m ==> Relays(ts[t], k)
    requires ts[i + m].now < deadline <= ts[i].now + RELAY_RETRY_MIN
    requires |Ready(Before(ts, i), k, deadline)| <= m
    ensures i <= at <= i + m && ts[at].pick == Some(k)
    decreases m
  {
    var t := ts[i];
    assert Called(ts, i);
    if t.pick == Some(k) {
      return i;
    }
    RecordsSane(ts, i);
    PassedOver(Before(ts, i), t.paths, t.now, t.pick, t.seen, k);
    ClockNeverGoesBack(ts, i, i + m);
    var p := t.pick.value;
    assert Ready(t.seen, k, deadline) <= Ready(Before(ts, i), k, deadline) - {p};
    SmallerSet(Ready(t.seen, k, deadline), Ready(Before(ts, i), k, deadline), p);
    ClockNeverGoesBack(ts, i, i + 1);
    assert Relays(ts[i + 1], k);
    at := Race(ts, k, i + 1, m - 1, deadline);
  }

  predicate Relays(t: Tick, k: Key) {
    k in t.paths && t.paths[k] == Relayed
  }

  lemma SmallerSet<T>(a: set<T>, b: set<T>, x: T)
    requires a <= b - {x} && x in b
    ensures |a| < |b|
  {
    SubsetSize(a, b - {x});
  }

  /** A pair that is due and stays on the relay waits for its rivals and no
      longer: with `n` of them it is picked within `n + 1` calls, provided those
      calls fit in fifteen minutes, whatever order the map is walked in. */
  lemma PickedInTurn(ts: seq<Tick>, k: Key, i: nat, n: nat) returns (at: nat)
    requires Run(ts) && i + n < |ts|
    requires Due(Before(ts, i), ts[i].paths, ts[i].now, k)
    requires |Rivals(Before(ts, i), k)| <= n
    requires forall t :: i <= t <= i + n ==> Relays(ts[t], k)
    requires ts[i + n].now - ts[i].now < RELAY_RETRY_MIN
    ensures i <= at <= i + n && ts[at].pick == Some(k)
  {
    var deadline := ts[i].now + RELAY_RETRY_MIN;
    SubsetSize(Ready(Before(ts, i), k, deadline), Rivals(Before(ts, i), k));
    at := Race(ts, k, i, n, deadline);
  }
}
