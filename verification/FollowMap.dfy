/**
 Following the network map across process lives: when a map makes the agent restart,
 and why that ends.

 A life begins with the configuration on disk and ends at a restart.  Between those
 the three fields modelled here do not change, so the state between two polls is what
 is on disk.
 */
module FollowMap {
  import opened Common

  datatype Config = Config(subnet: string, address: string, generation: int)

  datatype NetMap = NetMap(subnet: string, address: string, generation: int)

  /** One turn of the loop: the map did not arrive, or it did, and a save would work or
      not. */
  datatype Poll = Missed | Got(netmap: NetMap, saves: bool)

  predicate SubnetMoved(c: Config, m: NetMap) { m.subnet != "" && m.subnet != c.subnet }

  predicate AddressMoved(c: Config, m: NetMap) { m.address != "" && m.address != c.address }

  /** What a restart would find, had the save worked. */
  function Adopted(c: Config, m: NetMap): Config {
    if SubnetMoved(c, m) then c.(subnet := m.subnet)
    else if AddressMoved(c, m) then Config(c.subnet, m.address, if m.generation > c.generation then m.generation else c.generation)
    else if m.generation > c.generation then c.(generation := m.generation)
    else c
  }

  predicate Restarts(c: Config, p: Poll) {
    p.Got? && (SubnetMoved(c, p.netmap) || AddressMoved(c, p.netmap) || p.netmap.generation > c.generation)
  }

  function Next(c: Config, p: Poll): Config {
    if Restarts(c, p) && p.saves then Adopted(c, p.netmap) else c
  }

  class Agent {
    var cfg: Config
    var disk: Config

    /** A new process. */
    constructor (disk: Config)
      ensures this.disk == disk && cfg == disk
    {
      this.disk, cfg := disk, disk;
    }

    /** One turn.  When it says so the process ends here, and the next one starts from
        the disk. */
    method Turn(p: Poll) returns (restart: bool)
      requires cfg == disk
      modifies this
      ensures restart == Restarts(old(cfg), p)
      ensures disk == Next(old(cfg), p)
      ensures !restart ==> cfg == old(cfg)
    {
      if p.Missed? {
        return false;
      }
      var m := p.netmap;
      if m.subnet != "" && m.subnet != cfg.subnet {
        cfg := cfg.(subnet := m.subnet);
        Save(p.saves);
        return true;
      }
      if m.address != "" && m.address != cfg.address {
        cfg := cfg.(address := m.address);
        if m.generation > cfg.generation {
          cfg := cfg.(generation := m.generation);
        }
        Save(p.saves);
        return true;
      }
      if m.generation > cfg.generation {
        cfg := cfg.(generation := m.generation);
        Save(p.saves);
        return true;
      }
      return false;
    }

    method Save(works: bool)
      modifies this`disk
      ensures disk == if works then cfg else old(disk)
    {
      if works {
        disk := cfg;
      }
    }
  }

  // ---------------------------------------------------------------------------
  // Runs
  // ---------------------------------------------------------------------------

  function After(c: Config, ps: seq<Poll>): Config {
    if ps == [] then c else Next(After(c, ps[..|ps| - 1]), ps[|ps| - 1])
  }

  /** How often the agent restarted. */
  function RestartCount(c: Config, ps: seq<Poll>): nat {
    if ps == [] then 0
    else RestartCount(c, ps[..|ps| - 1]) + One(Restarts(After(c, ps[..|ps| - 1]), ps[|ps| - 1]))
  }

  /** How often a map arrived when a save would have failed. */
  function Unsaved(ps: seq<Poll>): nat {
    if ps == [] then 0 else Unsaved(ps[..|ps| - 1]) + One(ps[|ps| - 1].Got? && !ps[|ps| - 1].saves)
  }

  /** The recorded generation never decreases, whatever the maps say. */
  lemma {:induction false} GenerationNeverDecreases(c: Config, ps: seq<Poll>, n: nat)
    requires n <= |ps|
    ensures After(c, ps[..n]).generation <= After(c, ps).generation
    decreases |ps|
  {
    if n < |ps| {
      var k := |ps| - 1;
      assert ps[..k][..n] == ps[..n];
      GenerationNeverDecreases(c, ps[..k], n);
    } else {
      assert ps[..n] == ps;
    }
  }

  /** How many restarts a map still calls for. */
  function Pending(c: Config, m: NetMap): nat {
    One(m.subnet != "" && m.subnet != c.subnet) + One((m.address != "" && m.address != c.address) || m.generation > c.generation)
  }

  /** A saved restart settles one of them; nothing else changes the number. */
  lemma PendingFalls(c: Config, p: Poll)
    requires p.Got?
    ensures Restarts(c, p) <==> Pending(c, p.netmap) > 0
    ensures Pending(Next(c, p), p.netmap) == Pending(c, p.netmap) - One(Restarts(c, p) && p.saves)
  {
  }

  /** None, if and only if what is recorded is what the map says, as far as it says
      anything, and the generation is no older. */
  lemma SettledMeans(c: Config, m: NetMap)
    ensures Pending(c, m) == 0 <==>
              (m.subnet == "" || c.subnet == m.subnet) && (m.address == "" || c.address == m.address) && c.generation >= m.generation
  {
  }

  /** Some map of the run said this. */
  ghost predicate Said(ps: seq<Poll>, ok: NetMap -> bool) {
    exists i :: 0 <= i < |ps| && ps[i].Got? && ok(ps[i].netmap)
  }

  lemma SaidBefore(ps: seq<Poll>, ok: NetMap -> bool)
    requires ps != []
    ensures Said(ps[..|ps| - 1], ok) ==> Said(ps, ok)
    ensures ps[|ps| - 1].Got? && ok(ps[|ps| - 1].netmap) ==> Said(ps, ok)
  {
    var before := ps[..|ps| - 1];
    if Said(before, ok) {
      var i :| 0 <= i < |before| && before[i].Got? && ok(before[i].netmap);
      assert ps[i] == before[i];
    }
  }

  /** What is recorded was there at the start or is what some map said; never empty in
      place of something. */
  lemma {:induction false} RecordedWasSaid(c: Config, ps: seq<Poll>)
    ensures var d := After(c, ps);
            && (d.subnet == c.subnet || (d.subnet != "" && Said(ps, (m: NetMap) => m.subnet == d.subnet)))
            && (d.address == c.address || (d.address != "" && Said(ps, (m: NetMap) => m.address == d.address)))
            && (d.generation == c.generation || Said(ps, (m: NetMap) => m.generation == d.generation))
    decreases |ps|
  {
    if ps != [] {
      RecordedWasSaid(c, ps[..|ps| - 1]);
      var d := After(c, ps);
      SaidBefore(ps, (m: NetMap) => m.subnet == d.subnet);
      SaidBefore(ps, (m: NetMap) => m.address == d.address);
      SaidBefore(ps, (m: NetMap) => m.generation == d.generation);
    }
  }

  predicate OnlyMap(ps: seq<Poll>, m: NetMap) {
    forall i :: 0 <= i < |ps| ==> ps[i].Got? ==> ps[i].netmap == m
  }

  predicate AllSaved(ps: seq<Poll>) {
    forall i :: 0 <= i < |ps| ==> ps[i].Got? ==> ps[i].saves
  }

  function Arrivals(ps: seq<Poll>): nat {
    if ps == [] then 0 else Arrivals(ps[..|ps| - 1]) + One(ps[|ps| - 1].Got?)
  }

  function Min(a: nat, b: nat): nat { if a < b then a else b }

  /** For one map and saves that work, the restarts are exactly the ones the map called
      for at the start, as soon as it arrived that often, and never one more. */
  lemma {:induction false} SettlesExactly(c: Config, ps: seq<Poll>, m: NetMap)
    requires OnlyMap(ps, m) && AllSaved(ps)
    ensures RestartCount(c, ps) == Min(Arrivals(ps), Pending(c, m)) <= 2
    ensures Pending(After(c, ps), m) == Pending(c, m) - RestartCount(c, ps)
    decreases |ps|
  {
    if ps != [] {
      var k := |ps| - 1;
      SettlesExactly(c, ps[..k], m);
      if ps[k].Got? {
        PendingFalls(After(c, ps[..k]), ps[k]);
      }
    }
  }

  /** A machine that was moved, with or without a new generation, restarts once. */
  lemma MoveCostsOneRestart(c: Config, ps: seq<Poll>, m: NetMap)
    requires OnlyMap(ps, m) && AllSaved(ps) && Arrivals(ps) > 0
    requires AddressMoved(c, m) && !SubnetMoved(c, m)
    ensures RestartCount(c, ps) == 1
    ensures After(c, ps).address == m.address && After(c, ps).generation >= m.generation
  {
    SettlesExactly(c, ps, m);
  }

  /** How often the map that arrived was not the one before it. */
  function Changes(ps: seq<Poll>, first: NetMap): nat {
    if ps == [] then 0
    else Changes(ps[..|ps| - 1], first) + One(ps[|ps| - 1].Got? && ps[|ps| - 1].netmap != Latest(ps[..|ps| - 1], first))
  }

  function Latest(ps: seq<Poll>, first: NetMap): NetMap {
    if ps == [] then first
    else if ps[|ps| - 1].Got? then ps[|ps| - 1].netmap
    else Latest(ps[..|ps| - 1], first)
  }

  /** However the map changes and however many saves fail: two restarts at most for each
      different map, and one more for each map that met a failing save. */
  lemma {:induction false} RestartsBounded(c: Config, ps: seq<Poll>, first: NetMap)
    ensures RestartCount(c, ps) + Pending(After(c, ps), Latest(ps, first)) <= 2 * (1 + Changes(ps, first)) + Unsaved(ps)
    decreases |ps|
  {
    if ps != [] {
      var k := |ps| - 1;
      RestartsBounded(c, ps[..k], first);
      if ps[k].Got? {
        PendingFalls(After(c, ps[..k]), ps[k]);
      }
    }
  }

  /** Once a map is settled it never restarts the agent again. */
  lemma {:induction false} SettledForGood(c: Config, ps: seq<Poll>, m: NetMap)
    requires OnlyMap(ps, m) && Pending(c, m) == 0
    ensures RestartCount(c, ps) == 0 && After(c, ps) == c
    decreases |ps|
  {
    if ps != [] {
      var k := |ps| - 1;
      SettledForGood(c, ps[..k], m);
      if ps[k].Got? {
        PendingFalls(c, ps[k]);
      }
    }
  }

  /** Without saves it never ends: a map that is pending restarts the agent every time. */
  lemma {:induction false} NeverSavedNeverSettles(c: Config, ps: seq<Poll>, m: NetMap)
    requires OnlyMap(ps, m) && Pending(c, m) > 0 && forall i :: 0 <= i < |ps| ==> ps[i].Got? ==> !ps[i].saves
    ensures RestartCount(c, ps) == Arrivals(ps) && After(c, ps) == c
    decreases |ps|
  {
    if ps != [] {
      var k := |ps| - 1;
      NeverSavedNeverSettles(c, ps[..k], m);
      if ps[k].Got? {
        PendingFalls(c, ps[k]);
      }
    }
  }
}
