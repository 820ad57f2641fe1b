/**
 The relay scheduler told from the paths alone: which pairs are watched, since when,
 when each is due, and which one a call picks, for every run and without a look at the
 records.
 */
module RelayRecords {
  import opened Wrappers
  import opened Common
  import opened RelayScheduler

  /** The pair is in the map and has not got a direct path. */
  predicate Stays(t: Tick, k: Key) {
    k in t.paths && t.paths[k] != Direct
  }

  /** From tick `a` to before tick `i` the pair was never direct and never missing, whatever
      else it was. */
  ghost predicate Stretch(ts: seq<Tick>, k: Key, a: nat, i: nat) {
    a < i <= |ts| && forall j :: a <= j < i ==> Stays(ts[j], k)
  }

  /** The first tick of the present stretch at which the pair was on the relay. */
  function Start(ts: seq<Tick>, k: Key, i: nat): Option<nat>
    requires i <= |ts|
  {
    if i == 0 || !Stays(ts[i - 1], k) then None
    else if Start(ts, k, i - 1).Some? then Start(ts, k, i - 1)
    else if Relays(ts[i - 1], k) then Some(i - 1)
    else None
  }

  lemma {:induction false} StartExactly(ts: seq<Tick>, k: Key, i: nat, a: nat)
    requires i <= |ts|
    ensures Start(ts, k, i) == Some(a) <==>
              Stretch(ts, k, a, i) && Relays(ts[a], k) && forall b :: 0 <= b < a && Stretch(ts, k, b, i) ==> !Relays(ts[b], k)
    ensures Start(ts, k, i) == None ==> !(Stretch(ts, k, a, i) && Relays(ts[a], k))
    decreases i
  {
    if i > 0 {
      StartExactly(ts, k, i - 1, a);
      var before := Start(ts, k, i - 1);
      if before.Some? {
        StartExactly(ts, k, i - 1, before.value);
        assert Stretch(ts, k, before.value, i) <==> Stays(ts[i - 1], k);
      }
      forall b | 0 <= b < i - 1 ensures Stretch(ts, k, b, i) <==> Stretch(ts, k, b, i - 1) && Stays(ts[i - 1], k) {
      }
      if before.None? {
        forall b | 0 <= b < i - 1 && Stretch(ts, k, b, i) ensures !Relays(ts[b], k) {
          StartExactly(ts, k, i - 1, b);
        }
      }
    }
  }

  /** One call keeps a record, whatever the pick, unless the pair is direct or missing; and
      begins one only for a pair on the relay. */
  lemma SurvivesStep(seen: map<Key, Watch>, paths: map<Key, Kind>, now: int, pick: Option<Key>, seen': map<Key, Watch>, k: Key)
    requires Picks(seen, paths, now, pick, seen')
    ensures k in seen' <==> k in paths && paths[k] != Direct && (k in seen || paths[k] == Relayed)
  {
  }

  /** A pair is watched exactly while its stretch lasts, and by one record throughout,
      however often it has no path in between. */
  lemma {:induction false} WatchedExactly(ts: seq<Tick>, k: Key, i: nat)
    requires Run(ts) && i <= |ts|
    ensures k in Before(ts, i) <==> Start(ts, k, i).Some?
    ensures Start(ts, k, i).Some? ==> SameRecord(ts, k, Start(ts, k, i).value, i)
    decreases i
  {
    if i > 0 {
      WatchedExactly(ts, k, i - 1);
      assert Called(ts, i - 1);
      var t := ts[i - 1];
      SurvivesStep(Before(ts, i - 1), t.paths, t.now, t.pick, t.seen, k);
    }
  }

  /** The waits, in minutes. */
  lemma BackoffSpelled(n: nat)
    ensures Backoff(n) == (if n == 0 then 15 else if n == 1 then 30 else if n == 2 then 60 else if n == 3 then 120 else 240) * 60_000_000_000
  {
    if n >= 4 {
      BackoffFlattens(n);
    }
    assert Backoff(0) == 15 * MINUTE;
    assert Backoff(1) == 30 * MINUTE;
    assert Backoff(2) == 60 * MINUTE;
    assert Backoff(3) == 120 * MINUTE;
  }

  /** While a pair is on the relay, or has no path for the moment, from tick `a` on, its
      tries are 15, 30, 60, 120, 240, 240 minutes apart and so on, at the least, the first
      ten minutes after it was noticed; and few. */
  lemma RetriesSpaced(ts: seq<Tick>, k: Key, i: nat)
    requires Run(ts) && i <= |ts| && Start(ts, k, i).Some?
    ensures Start(ts, k, i).value < |ts| && Spaced(ts[Start(ts, k, i).value].now, PickTimes(ts, k, Start(ts, k, i).value, i))
    ensures var times := PickTimes(ts, k, Start(ts, k, i).value, i);
            forall x, y :: 0 <= x <= y < |times| ==> y - x + 1 <= 5 + (times[y] - times[x]) / RELAY_RETRY_MAX
  {
    WatchedExactly(ts, k, i);
    var a := Start(ts, k, i).value;
    RetriesBackOff(ts, k, a, i);
    forall x, y | 0 <= x <= y < |PickTimes(ts, k, a, i)|
      ensures y - x + 1 <= 5 + (PickTimes(ts, k, a, i)[y] - PickTimes(ts, k, a, i)[x]) / RELAY_RETRY_MAX
    {
      FewRetries(ts, k, a, i, x, y);
    }
  }

  /** The time from which a pair noticed at `noticed` and tried at `times` may be tried. */
  function DueFrom(noticed: int, times: seq<int>): int {
    if times == [] then noticed + 10 * MINUTE else times[|times| - 1] + Backoff(|times| - 1)
  }

  /** By the paths and the picks alone: the pair is on the relay now, its stretch began
      before, and its time has come. */
  ghost predicate Waits(ts: seq<Tick>, k: Key, i: nat)
    requires i < |ts|
  {
    Relays(ts[i], k) && Start(ts, k, i).Some? &&
    var a := Start(ts, k, i).value;
    a < |ts| && DueFrom(ts[a].now, PickTimes(ts, k, a, i)) <= ts[i].now
  }

  lemma DueIsWaiting(ts: seq<Tick>, k: Key, i: nat)
    requires Run(ts) && i < |ts|
    ensures Due(Before(ts, i), ts[i].paths, ts[i].now, k) <==> Waits(ts, k, i)
    ensures k in Before(ts, i) ==> Start(ts, k, i).Some? && Start(ts, k, i).value < |ts| && Before(ts, i)[k].since == ts[Start(ts, k, i).value].now
  {
    WatchedExactly(ts, k, i);
    if Start(ts, k, i).Some? {
      var a := Start(ts, k, i).value;
      RecordBacksOff(ts, k, a, i - 1);
    }
  }

  /** A call picks somebody if and only if somebody waits, and then one of those that have
      been on the relay longest. */
  lemma PicksExactly(ts: seq<Tick>, i: nat)
    requires Run(ts) && i < |ts|
    ensures ts[i].pick == None <==> forall k :: !Waits(ts, k, i)
    ensures ts[i].pick.Some? ==> Waits(ts, ts[i].pick.value, i)
    ensures ts[i].pick.Some? ==> forall k :: Waits(ts, k, i) ==>
              ts[Start(ts, ts[i].pick.value, i).value].now <= ts[Start(ts, k, i).value].now
  {
    assert Called(ts, i);
    forall k ensures Due(Before(ts, i), ts[i].paths, ts[i].now, k) <==> Waits(ts, k, i) {
      DueIsWaiting(ts, k, i);
    }
    if ts[i].pick.Some? {
      var p := ts[i].pick.value;
      DueIsWaiting(ts, p, i);
      forall k | Waits(ts, k, i) ensures ts[Start(ts, p, i).value].now <= ts[Start(ts, k, i).value].now {
        DueIsWaiting(ts, k, i);
      }
    }
  }
}
