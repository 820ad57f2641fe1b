/**
 Reconciling the peer list: which links stay, which go, which are new, which moved,
 and what becomes of the routes.
 */
module Peers {
  import opened Wrappers
  import opened Uapi

  // ---------------------------------------------------------------------------
  // Comparing and routing prefixes
  // ---------------------------------------------------------------------------

  method Contains(list: seq<Prefix>, p: Prefix) returns (r: bool)
    ensures r == (p in list)
  {
    for i := 0 to |list|
      invariant p !in list[..i]
    {
      if list[i] == p {
        return true;
      }
    }
    return false;
  }

  /** What `samePrefixes` looks at: the length, and that the second has all of the first. */
  predicate Same(a: seq<Prefix>, b: seq<Prefix>) {
    |a| == |b| && forall i :: 0 <= i < |a| ==> a[i] in b
  }

  method SamePrefixes(a: seq<Prefix>, b: seq<Prefix>) returns (r: bool)
    ensures r == Same(a, b)
  {
    if |a| != |b| {
      return false;
    }
    for i := 0 to |a|
      invariant forall j :: 0 <= j < i ==> a[j] in b
    {
      var has := Contains(b, a[i]);
      if !has {
        return false;
      }
    }
    return true;
  }

  function SetOf(a: seq<Prefix>): (s: set<Prefix>)
    ensures forall p :: p in s <==> p in a
    ensures |s| <= |a|
  {
    if a == [] then {} else SetOf(a[..|a| - 1]) + {a[|a| - 1]}
  }

  lemma SetOfGrows(a: seq<Prefix>, i: nat)
    requires i < |a|
    ensures SetOf(a[..i + 1]) == SetOf(a[..i]) + {a[i]}
  {
    assert a[..i + 1][..i] == a[..i];
  }

  predicate NoRepeats(a: seq<Prefix>) {
    forall i, j :: 0 <= i < j < |a| ==> a[i] != a[j]
  }

  lemma {:induction false} NoRepeatsCount(a: seq<Prefix>)
    requires NoRepeats(a)
    ensures |SetOf(a)| == |a|
    decreases |a|
  {
    if a != [] {
      NoRepeatsCount(a[..|a| - 1]);
    }
  }

  lemma SubsetSameSize(s: set<Prefix>, t: set<Prefix>)
    requires s <= t && |s| >= |t|
    ensures s == t
  {
    assert |t - s| == |t| - |s|;
  }

  /** When the old list has no repeats, the comparison is equality of the two sets of
      prefixes, whatever the order. */
  lemma SameIsSetEquality(a: seq<Prefix>, b: seq<Prefix>)
    requires NoRepeats(a)
    ensures Same(a, b) <==> |a| == |b| && SetOf(a) == SetOf(b)
  {
    if Same(a, b) {
      NoRepeatsCount(a);
      SubsetSameSize(SetOf(a), SetOf(b));
    }
    if |a| == |b| && SetOf(a) == SetOf(b) {
      forall i | 0 <= i < |a| ensures a[i] in b {
        assert a[i] in SetOf(a);
      }
    }
  }

  /** When it has repeats, it is not: one of two equal prefixes may have become another
      and the lists still compare the same. */
  lemma RepeatsHideAChange(a: seq<Prefix>, i: nat, j: nat, p: Prefix)
    requires i < j < |a| && a[i] == a[j] && p !in a
    ensures Same(a, a[j := p]) && SetOf(a) != SetOf(a[j := p])
  {
    var b := a[j := p];
    forall k | 0 <= k < |a| ensures a[k] in b {
      assert b[if k == j then i else k] == a[k];
    }
    assert b[j] == p;
  }

  /** The mesh route, if there is one, and what it overlaps; and for which prefixes the
      calls that add and drop a route work. */
  datatype Net = Net(mesh: bool, overlaps: Prefix -> bool, adds: Prefix -> bool, drops: Prefix -> bool)

  predicate Covers(net: Net, p: Prefix) {
    net.mesh && net.overlaps(p)
  }

  /** The prefixes of a peer that the mesh route does not reach. */
  function RoutesTo(net: Net, ps: seq<Prefix>): (r: seq<Prefix>)
    ensures forall p :: p in r <==> p in ps && !Covers(net, p)
  {
    if ps == [] then []
    else RoutesTo(net, ps[..|ps| - 1]) + if Covers(net, ps[|ps| - 1]) then [] else [ps[|ps| - 1]]
  }

  /** Those of a set for which the call works. */
  function Those(s: set<Prefix>, works: Prefix -> bool): set<Prefix> {
    set p | p in s && works(p)
  }

  lemma DropOne(table: set<Prefix>, was: set<Prefix>, now: set<Prefix>, works: Prefix -> bool, p: Prefix)
    ensures table - Those((was + {p}) - now, works) ==
            if p in now || !works(p) then table - Those(was - now, works) else (table - Those(was - now, works)) - {p}
  {
  }

  lemma AddOne(table: set<Prefix>, now: set<Prefix>, was: set<Prefix>, works: Prefix -> bool, p: Prefix)
    ensures table + Those((now + {p}) - was, works) ==
            if p in was || !works(p) then table + Those(now - was, works) else (table + Those(now - was, works)) + {p}
  {
  }

  /** When the calls work, rerouting is taking the old routes out and putting the new ones
      in exactly when no route that stays was missing before. */
  lemma RerouteReplaces(table: set<Prefix>, was: set<Prefix>, now: set<Prefix>, drops: Prefix -> bool, adds: Prefix -> bool)
    requires forall p :: p in was + now ==> drops(p) && adds(p)
    ensures (table - Those(was - now, drops)) + Those(now - was, adds) == (table - was) + now <==> was * now <= table
  {
    assert Those(was - now, drops) == was - now && Those(now - was, adds) == now - was;
    if !(was * now <= table) {
      var p :| p in was * now && p !in table;
      assert p in (table - was) + now && p !in (table - (was - now)) + (now - was);
    }
  }

  // ---------------------------------------------------------------------------
  // Reconciling
  // ---------------------------------------------------------------------------

  datatype Spec = Spec(publicKey: Key, presharedKey: Key, allowedIPs: seq<Prefix>)

  /** Whether a link that stays has to be readdressed. */
  predicate Moved(before: Spec, now: Spec) {
    !Same(before.allowedIPs, now.allowedIPs) || before.presharedKey != now.presharedKey
  }

  /** A peer list by key; of two entries with one key, the later. */
  function Wanted(ps: seq<Spec>): map<Key, Spec> {
    if ps == [] then map[] else Wanted(ps[..|ps| - 1])[ps[|ps| - 1].publicKey := ps[|ps| - 1]]
  }

  method WantedOf(ps: seq<Spec>) returns (w: map<Key, Spec>)
    ensures w == Wanted(ps)
  {
    w := map[];
    for i := 0 to |ps|
      invariant w == Wanted(ps[..i])
    {
      assert ps[..i + 1][..i] == ps[..i];
      w := w[ps[i].publicKey := ps[i]];
    }
    assert ps[..|ps|] == ps;
  }

  /** A link.  Its number is its identity: two links with the same spec are still two,
      and a link keeps its number while its spec is replaced. */
  datatype Link = Link(id: nat, spec: Spec)

  type Links = map<Key, Link>

  /** Two keys never share a link. */
  predicate Distinct(links: Links) {
    forall k, j :: k in links && j in links && k != j ==> links[k].id != links[j].id
  }

  predicate AllBelow(links: Links, n: nat) {
    forall k :: k in links ==> links[k].id < n
  }

  function MoveOf(links: Links, key: Key, spec: Spec): Option<(Spec, Spec)> {
    if key in links && Moved(links[key].spec, spec) then Some((links[key].spec, spec)) else None
  }

  /** The keys that stay and have changed, with what was and what is. */
  function Moves(before: Links, wanted: map<Key, Spec>): map<Key, (Spec, Spec)> {
    map k | k in wanted && MoveOf(before, k, wanted[k]).Some? :: (before[k].spec, wanted[k])
  }

  /** What the loop leaves to be done once the lock is released. */
  datatype Work = Work(starting: set<Key>, moved: map<Key, (Spec, Spec)>)

  /** One link settled: the same link with its new spec, or a new one. */
  predicate SettledAt(before: Links, now: Links, wanted: map<Key, Spec>, first: nat, k: Key)
    requires k in wanted
  {
    && k in now && now[k].spec == wanted[k]
    && (k in before ==> now[k].id == before[k].id)
    && (k !in before ==> now[k].id >= first)
  }

  /** Where the loop is when all but `todo` are settled. */
  predicate Progress(before: Links, now: Links, wanted: map<Key, Spec>, first: nat, todo: set<Key>) {
    && now.Keys == before.Keys + (wanted.Keys - todo)
    && (forall k :: k in wanted && k !in todo ==> SettledAt(before, now, wanted, first, k))
    && (forall k :: k in todo && k in before ==> k in now && now[k] == before[k])
  }

  ghost predicate WorkFor(work: Work, before: Links, wanted: map<Key, Spec>, todo: set<Key>) {
    && (forall k :: k in work.starting <==> k in wanted && k !in todo && k !in before)
    && (forall k :: k in work.moved <==> k in wanted && k !in todo && MoveOf(before, k, wanted[k]).Some?)
    && (forall k :: k in work.moved ==> MoveOf(before, k, wanted[k]) == Some(work.moved[k]))
  }

  function AddedTo(work: Work, key: Key, isNew: bool, was: Option<(Spec, Spec)>): Work {
    Work(if isNew then work.starting + {key} else work.starting, if was.Some? then work.moved[key := was.value] else work.moved)
  }

  lemma WorkGrows(work: Work, later: Work, before: Links, wanted: map<Key, Spec>, todo: set<Key>, rest: set<Key>, key: Key)
    requires WorkFor(work, before, wanted, todo) && key in wanted && key in todo && rest == todo - {key}
    requires later == AddedTo(work, key, key !in before, MoveOf(before, key, wanted[key]))
    ensures WorkFor(later, before, wanted, rest)
  {
  }

  lemma WorkDone(work: Work, before: Links, wanted: map<Key, Spec>, todo: set<Key>)
    requires WorkFor(work, before, wanted, todo) && todo == {}
    ensures work == Work(wanted.Keys - before.Keys, Moves(before, wanted))
  {
    assert work.moved == Moves(before, wanted);
  }

  lemma ProgressGrows(before: Links, now: Links, wanted: map<Key, Spec>, first: nat, todo: set<Key>, rest: set<Key>, key: Key, link: Link)
    requires Progress(before, now, wanted, first, todo) && key in wanted && key in todo && rest == todo - {key}
    requires SettledAt(before, now[key := link], wanted, first, key)
    ensures Progress(before, now[key := link], wanted, first, rest)
  {
    var later := now[key := link];
    forall k | k in wanted && k !in rest ensures SettledAt(before, later, wanted, first, k) {
      if k != key {
        assert SettledAt(before, now, wanted, first, k);
      }
    }
  }

  /** The routes a new link brings. */
  function Brings(net: Net, spec: Spec): set<Prefix> {
    Those(SetOf(RoutesTo(net, spec.allowedIPs)) - SetOf([]), net.adds)
  }

  ghost predicate Brought(net: Net, before: Links, wanted: map<Key, Spec>, todo: set<Key>, p: Prefix) {
    exists k :: k in wanted && k !in todo && k !in before && p in Brings(net, wanted[k])
  }

  /** The routes when all but `todo` are settled: those there were, and what new links
      brought. */
  ghost predicate Routed(net: Net, was: set<Prefix>, now: set<Prefix>, before: Links, wanted: map<Key, Spec>, todo: set<Key>) {
    forall p :: p in now <==> p in was || Brought(net, before, wanted, todo, p)
  }

  lemma BroughtGrows(net: Net, before: Links, wanted: map<Key, Spec>, todo: set<Key>, rest: set<Key>, key: Key, p: Prefix)
    requires key in wanted && key in todo && rest == todo - {key}
    ensures Brought(net, before, wanted, rest, p) <==>
            Brought(net, before, wanted, todo, p) || (key !in before && p in Brings(net, wanted[key]))
  {
    if k :| k in wanted && k !in rest && k !in before && p in Brings(net, wanted[k]) {
      assert k == key || k !in todo;
    }
    if key !in before && p in Brings(net, wanted[key]) {
      assert key !in rest;
    }
    if k :| k in wanted && k !in todo && k !in before && p in Brings(net, wanted[k]) {
      assert k !in rest;
    }
  }

  lemma RoutedGrows(net: Net, was: set<Prefix>, now: set<Prefix>, later: set<Prefix>, before: Links, wanted: map<Key, Spec>,
                    todo: set<Key>, rest: set<Key>, key: Key)
    requires Routed(net, was, now, before, wanted, todo) && key in wanted && key in todo && rest == todo - {key}
    requires later == if key in before then now else now + Brings(net, wanted[key])
    ensures Routed(net, was, later, before, wanted, rest)
  {
    forall p ensures p in later <==> p in was || Brought(net, before, wanted, rest, p) {
      BroughtGrows(net, before, wanted, todo, rest, key, p);
    }
  }

  /** One of these keys brings the route. */
  ghost predicate BroughtBy(net: Net, keys: set<Key>, wanted: map<Key, Spec>, p: Prefix) {
    exists k :: k in keys && k in wanted && p in Brings(net, wanted[k])
  }

  lemma RoutesDone(net: Net, was: set<Prefix>, now: set<Prefix>, before: Links, wanted: map<Key, Spec>, todo: set<Key>, starting: set<Key>)
    requires Routed(net, was, now, before, wanted, todo) && todo == {} && starting == wanted.Keys - before.Keys
    ensures forall p :: p in now <==> p in was || BroughtBy(net, starting, wanted, p)
  {
    forall p ensures Brought(net, before, wanted, todo, p) <==> BroughtBy(net, starting, wanted, p) {
      if k :| k in wanted && k !in todo && k !in before && p in Brings(net, wanted[k]) {
        assert k in starting;
      }
      if k :| k in starting && k in wanted && p in Brings(net, wanted[k]) {
        assert k !in todo && k !in before;
      }
    }
  }

  /** What a move takes out of the routes, and what it puts in. */
  function Drops(net: Net, move: (Spec, Spec)): set<Prefix> {
    Those(SetOf(RoutesTo(net, move.0.allowedIPs)) - SetOf(RoutesTo(net, move.1.allowedIPs)), net.drops)
  }

  function Adds(net: Net, move: (Spec, Spec)): set<Prefix> {
    Those(SetOf(RoutesTo(net, move.1.allowedIPs)) - SetOf(RoutesTo(net, move.0.allowedIPs)), net.adds)
  }

  ghost predicate Dropped(net: Net, moved: map<Key, (Spec, Spec)>, todo: set<Key>, p: Prefix) {
    exists k :: k in moved && k !in todo && p in Drops(net, moved[k])
  }

  ghost predicate Added(net: Net, moved: map<Key, (Spec, Spec)>, todo: set<Key>, p: Prefix) {
    exists k :: k in moved && k !in todo && p in Adds(net, moved[k])
  }

  /** One prefix after all moves but `todo`, whatever their order: where no move drops it,
      it has a route if it had one or a move adds it; where one drops it and none adds it,
      it has none. */
  ghost predicate ReroutedAt(net: Net, was: bool, now: bool, moved: map<Key, (Spec, Spec)>, todo: set<Key>, p: Prefix) {
    && (!Dropped(net, moved, todo, p) ==> (now <==> was || Added(net, moved, todo, p)))
    && (Dropped(net, moved, todo, p) && !Added(net, moved, todo, p) ==> !now)
  }

  ghost predicate Rerouted(net: Net, was: set<Prefix>, now: set<Prefix>, moved: map<Key, (Spec, Spec)>, todo: set<Key>) {
    forall p :: ReroutedAt(net, p in was, p in now, moved, todo, p)
  }

  lemma DroppedGrows(net: Net, moved: map<Key, (Spec, Spec)>, todo: set<Key>, rest: set<Key>, key: Key, p: Prefix)
    requires key in moved && key in todo && rest == todo - {key}
    ensures Dropped(net, moved, rest, p) <==> Dropped(net, moved, todo, p) || p in Drops(net, moved[key])
    ensures Added(net, moved, rest, p) <==> Added(net, moved, todo, p) || p in Adds(net, moved[key])
  {
    assert key !in rest;
    assert forall k :: k !in todo ==> k !in rest;
    assert forall k :: k !in rest ==> k == key || k !in todo;
  }

  lemma ReroutedGrows(net: Net, was: set<Prefix>, before: set<Prefix>, now: set<Prefix>, moved: map<Key, (Spec, Spec)>,
                      todo: set<Key>, rest: set<Key>, key: Key)
    requires Rerouted(net, was, before, moved, todo) && key in moved && key in todo && rest == todo - {key}
    requires now == (before - Drops(net, moved[key])) + Adds(net, moved[key])
    ensures Rerouted(net, was, now, moved, rest)
  {
    forall p ensures ReroutedAt(net, p in was, p in now, moved, rest, p) {
      assert ReroutedAt(net, p in was, p in before, moved, todo, p);
      DroppedGrows(net, moved, todo, rest, key, p);
    }
  }

  lemma MinusOne(m: Links, gone: set<Key>, key: Key)
    ensures (m - gone) - {key} == m - (gone + {key})
  {
  }

  class Engine {
    const net: Net
    var peers: Links
    var nextId: nat
    var routes: set<Prefix>

    constructor (net: Net)
      ensures Valid() && this.net == net && peers == map[] && routes == {}
    {
      this.net := net;
      peers, nextId, routes := map[], 0, {};
    }

    ghost predicate Valid()
      reads this`peers, this`nextId
    {
      Distinct(peers) && AllBelow(peers, nextId)
    }

    /** The links that are gone from the map. */
    method Retire(wanted: map<Key, Spec>) returns (retired: set<Key>)
      modifies this`peers
      ensures retired == old(peers).Keys - wanted.Keys
      ensures peers == old(peers) - retired
    {
      retired := {};
      var todo := peers.Keys;
      while todo != {}
        invariant todo <= old(peers).Keys
        invariant forall k :: k in retired <==> k in old(peers) && k !in todo && k !in wanted
        invariant peers == old(peers) - retired
        decreases |todo|
      {
        var key :| key in todo;
        if key !in wanted {
          MinusOne(old(peers), retired, key);
          peers := peers - {key};
          retired := retired + {key};
        }
        todo := todo - {key};
      }
    }

    /** One key of the map: a new link, or the same link with the new spec. */
    method Settle(key: Key, spec: Spec) returns (moved: Option<(Spec, Spec)>)
      requires Valid()
      modifies this
      ensures Valid() && nextId >= old(nextId)
      ensures key in peers && peers[key].spec == spec && peers == old(peers)[key := peers[key]]
      ensures if key in old(peers) then peers[key].id == old(peers)[key].id else peers[key].id >= old(nextId)
      ensures moved == MoveOf(old(peers), key, spec)
      ensures routes == if key in old(peers) then old(routes) else old(routes) + Brings(net, spec)
    {
      if key in peers {
        var prev := peers[key].spec;
        peers := peers[key := Link(peers[key].id, spec)];
        var same := SamePrefixes(prev.allowedIPs, spec.allowedIPs);
        return if !same || prev.presharedKey != spec.presharedKey then Some((prev, spec)) else None;
      }
      peers := peers[key := Link(nextId, spec)];
      nextId := nextId + 1;
      Add([], RoutesTo(net, spec.allowedIPs));
      return None;
    }

    /** Old routes that are not wanted any more are dropped and new ones added; those
        that are in both are not touched, and a call that fails changes nothing. */
    method Reroute(was: seq<Prefix>, now: seq<Prefix>)
      modifies this`routes
      ensures routes == (old(routes) - Those(SetOf(was) - SetOf(now), net.drops)) + Those(SetOf(now) - SetOf(was), net.adds)
    {
      Drop(was, now);
      Add(was, now);
    }

    method Drop(was: seq<Prefix>, now: seq<Prefix>)
      modifies this`routes
      ensures routes == old(routes) - Those(SetOf(was) - SetOf(now), net.drops)
    {
      for i := 0 to |was|
        invariant routes == old(routes) - Those(SetOf(was[..i]) - SetOf(now), net.drops)
      {
        var kept := Contains(now, was[i]);
        SetOfGrows(was, i);
        DropOne(old(routes), SetOf(was[..i]), SetOf(now), net.drops, was[i]);
        if !kept && net.drops(was[i]) {
          routes := routes - {was[i]};
        }
      }
      assert was[..|was|] == was;
    }

    method Add(was: seq<Prefix>, now: seq<Prefix>)
      modifies this`routes
      ensures routes == old(routes) + Those(SetOf(now) - SetOf(was), net.adds)
    {
      for i := 0 to |now|
        invariant routes == old(routes) + Those(SetOf(now[..i]) - SetOf(was), net.adds)
      {
        var had := Contains(was, now[i]);
        SetOfGrows(now, i);
        AddOne(old(routes), SetOf(now[..i]), SetOf(was), net.adds, now[i]);
        if !had && net.adds(now[i]) {
          routes := routes + {now[i]};
        }
      }
      assert now[..|now|] == now;
    }

    /** The loop that readdresses the links that moved, in any order; with one route for
        the whole mesh it leaves the routes alone. */
    method ReaddressAll(moved: map<Key, (Spec, Spec)>)
      modifies this`routes
      ensures net.mesh ==> routes == old(routes)
      ensures !net.mesh ==> Rerouted(net, old(routes), routes, moved, {})
    {
      if net.mesh {
        return;
      }
      var todo := moved.Keys;
      while todo != {}
        invariant todo <= moved.Keys
        invariant Rerouted(net, old(routes), routes, moved, todo)
        decreases |todo|
      {
        var key :| key in todo;
        var rest := todo - {key};
        ghost var before := routes;
        Reroute(RoutesTo(net, moved[key].0.allowedIPs), RoutesTo(net, moved[key].1.allowedIPs));
        ReroutedGrows(net, old(routes), before, routes, moved, todo, rest, key);
        todo := rest;
      }
    }

    /** One turn of the loop over the map. */
    method SettleOne(ghost before: Links, ghost first: nat, ghost table: set<Prefix>, wanted: map<Key, Spec>, ghost todo: set<Key>, ghost rest: set<Key>, key: Key, done: Work)
      returns (work: Work)
      requires Valid() && first <= nextId && key in wanted && key in todo && rest == todo - {key}
      requires Progress(before, peers, wanted, first, todo) && WorkFor(done, before, wanted, todo)
      requires Routed(net, table, routes, before, wanted, todo)
      modifies this
      ensures Valid() && first <= nextId
      ensures Progress(before, peers, wanted, first, rest) && WorkFor(work, before, wanted, rest)
      ensures Routed(net, table, routes, before, wanted, rest)
    {
      var isNew := key !in peers;
      var was := Settle(key, wanted[key]);
      work := Work(if isNew then done.starting + {key} else done.starting, if was.Some? then done.moved[key := was.value] else done.moved);
      RoutedGrows(net, table, old(routes), routes, before, wanted, todo, rest, key);
      WorkGrows(done, work, before, wanted, todo, rest, key);
      ProgressGrows(before, old(peers), wanted, first, todo, rest, key, peers[key]);
    }

    /** The keys of the map, in any order. */
    method SettleAll(wanted: map<Key, Spec>) returns (work: Work)
      requires Valid() && peers.Keys <= wanted.Keys
      modifies this
      ensures Valid() && peers.Keys == wanted.Keys
      ensures forall k :: k in wanted ==> SettledAt(old(peers), peers, wanted, old(nextId), k)
      ensures work == Work(wanted.Keys - old(peers).Keys, Moves(old(peers), wanted))
      ensures forall p :: p in routes <==> p in old(routes) || BroughtBy(net, work.starting, wanted, p)
    {
      work := Work({}, map[]);
      var todo := wanted.Keys;
      while todo != {}
        invariant Valid() && old(nextId) <= nextId && todo <= wanted.Keys
        invariant Progress(old(peers), peers, wanted, old(nextId), todo)
        invariant WorkFor(work, old(peers), wanted, todo)
        invariant Routed(net, old(routes), routes, old(peers), wanted, todo)
        decreases |todo|
      {
        var key :| key in todo;
        var rest := todo - {key};
        work := SettleOne(old(peers), old(nextId), old(routes), wanted, todo, rest, key, work);
        todo := rest;
      }
      WorkDone(work, old(peers), wanted, todo);
      RoutesDone(net, old(routes), routes, old(peers), wanted, todo, work.starting);
    }

    /** The part of `SetPeers` that holds the lock. */
    method Reconcile(specs: seq<Spec>) returns (retired: set<Key>, work: Work)
      requires Valid()
      modifies this
      ensures Valid() && peers.Keys == Wanted(specs).Keys
      ensures forall k :: k in Wanted(specs) ==> SettledAt(old(peers), peers, Wanted(specs), old(nextId), k)
      ensures retired == old(peers).Keys - Wanted(specs).Keys
      ensures work == Work(Wanted(specs).Keys - old(peers).Keys, Moves(old(peers), Wanted(specs)))
      ensures forall p :: p in routes <==> p in old(routes) || BroughtBy(net, work.starting, Wanted(specs), p)
    {
      var wanted := WantedOf(specs);
      retired := Retire(wanted);
      RetiredDoNotMatter(old(peers), retired, wanted);
      ghost var kept := peers;
      work := SettleAll(wanted);
      forall k | k in wanted ensures SettledAt(old(peers), peers, wanted, old(nextId), k) {
        assert SettledAt(kept, peers, wanted, old(nextId), k);
      }
    }

    /** `SetPeers`: afterwards there is exactly one link for each key wanted, with the spec
        wanted.  A link that was there is the same link; the missing are retired and the
        changed are readdressed, and no others.  A prefix has a route if it had one, or a
        new link brings it, or a move adds it, as far as no move takes it out. */
    method SetPeers(specs: seq<Spec>) returns (retired: set<Key>, work: Work)
      requires Valid()
      modifies this
      ensures Valid() && peers.Keys == Wanted(specs).Keys
      ensures forall k :: k in Wanted(specs) ==> SettledAt(old(peers), peers, Wanted(specs), old(nextId), k)
      ensures retired == old(peers).Keys - Wanted(specs).Keys
      ensures work == Work(Wanted(specs).Keys - old(peers).Keys, Moves(old(peers), Wanted(specs)))
      ensures forall p :: RoutedAfter(net, p in old(routes), p in routes, Wanted(specs), work, p)
    {
      retired, work := Reconcile(specs);
      ReaddressAll(work.moved);
    }

    /** Saying the same again retires nobody, starts nobody, readdresses nobody, and leaves
        every link and every route as it is. */
    method SetPeersTwice(specs: seq<Spec>) returns (once: Links, table: set<Prefix>, retired: set<Key>, work: Work)
      requires Valid()
      modifies this
      ensures Valid() && peers == once && routes == table && retired == {} && work == Work({}, map[])
    {
      retired, work := SetPeers(specs);
      once, table := peers, routes;
      retired, work := SetPeers(specs);
      SettledTwice(once, Wanted(specs));
      forall p ensures p in routes <==> p in table {
        assert RoutedAfter(net, p in table, p in routes, Wanted(specs), work, p);
      }
    }
  }

  /** Whether a prefix has a route after the whole call. */
  ghost predicate RoutedAfter(net: Net, was: bool, now: bool, wanted: map<Key, Spec>, work: Work, p: Prefix) {
    var settled := was || BroughtBy(net, work.starting, wanted, p);
    if net.mesh then now <==> settled else ReroutedAt(net, settled, now, work.moved, {}, p)
  }

  lemma RetiredDoNotMatter(before: Links, retired: set<Key>, wanted: map<Key, Spec>)
    requires retired == before.Keys - wanted.Keys
    ensures (before - retired).Keys <= wanted.Keys && wanted.Keys - (before - retired).Keys == wanted.Keys - before.Keys
    ensures Moves(before - retired, wanted) == Moves(before, wanted)
  {
  }

  predicate AllSettled(links: Links, wanted: map<Key, Spec>) {
    links.Keys == wanted.Keys && forall k :: k in wanted ==> links[k].spec == wanted[k]
  }

  /** Nothing is to be readdressed when every link has the spec wanted already. */
  lemma SettledTwice(links: Links, wanted: map<Key, Spec>)
    requires AllSettled(links, wanted)
    ensures Moves(links, wanted) == map[]
  {
  }

  // ---------------------------------------------------------------------------
  // In plain words
  // ---------------------------------------------------------------------------

  /** The list by key holds exactly the keys in the list, each with its last entry. */
  lemma {:induction false} WantedIsLast(ps: seq<Spec>, i: nat)
    requires i < |ps| && forall j :: i < j < |ps| ==> ps[j].publicKey != ps[i].publicKey
    ensures ps[i].publicKey in Wanted(ps) && Wanted(ps)[ps[i].publicKey] == ps[i]
    decreases |ps|
  {
    if i < |ps| - 1 {
      WantedIsLast(ps[..|ps| - 1], i);
    }
  }

  lemma {:induction false} WantedWasListed(ps: seq<Spec>, k: Key)
    requires k in Wanted(ps)
    ensures exists i :: 0 <= i < |ps| && ps[i].publicKey == k
    decreases |ps|
  {
    var n := |ps| - 1;
    if ps[n].publicKey != k {
      WantedWasListed(ps[..n], k);
      var i :| 0 <= i < n && ps[..n][i].publicKey == k;
      assert ps[i].publicKey == k;
    }
  }

  /** A link is readdressed exactly when its peer stays and its preshared key is another,
      or its list of prefixes has another length or has lost one. */
  lemma MovesExactly(before: Links, wanted: map<Key, Spec>, k: Key)
    ensures k in Moves(before, wanted) <==>
              && k in before && k in wanted
              && (|| before[k].spec.presharedKey != wanted[k].presharedKey
                  || |before[k].spec.allowedIPs| != |wanted[k].allowedIPs|
                  || exists p :: p in before[k].spec.allowedIPs && p !in wanted[k].allowedIPs)
    ensures k in Moves(before, wanted) ==> Moves(before, wanted)[k] == (before[k].spec, wanted[k])
  {
    if k in before && k in wanted {
      var a, b := before[k].spec.allowedIPs, wanted[k].allowedIPs;
      if |a| == |b| && !Same(a, b) {
        var i :| 0 <= i < |a| && a[i] !in b;
        assert a[i] in a;
      }
    }
  }

  /** A new link brings a route for exactly its prefixes that no mesh route overlaps and
      that can be added. */
  lemma BringsExactly(net: Net, spec: Spec, p: Prefix)
    ensures p in Brings(net, spec) <==> p in spec.allowedIPs && !(net.mesh && net.overlaps(p)) && net.adds(p)
  {
  }

  /** A move takes out exactly the routes of the old prefixes that are not among the new,
      and puts in those of the new that were not among the old. */
  lemma MoveReroutesExactly(net: Net, was: Spec, now: Spec, p: Prefix)
    ensures p in Drops(net, (was, now)) <==>
              p in was.allowedIPs && p !in now.allowedIPs && !(net.mesh && net.overlaps(p)) && net.drops(p)
    ensures p in Adds(net, (was, now)) <==>
              p in now.allowedIPs && p !in was.allowedIPs && !(net.mesh && net.overlaps(p)) && net.adds(p)
  {
  }
}
