/**
 One negotiation session, at the grain of its mutex sections.

 The remote credentials, the candidates and the state are touched by several
 goroutines at once: the retry loop that starts and closes the session, the
 dispatcher that brings what the peer says, and the ICE agent's own callbacks.
 `Next` is one section; a run is any sequence of them.
 */
module Sessions {
  import opened Common

  /** Byte-wise comparison of two key strings, as Go compares strings. */
  predicate Greater(a: string, b: string) {
    if a == [] then false
    else if b == [] then true
    else a[0] > b[0] || (a[0] == b[0] && Greater(a[1..], b[1..]))
  }

  /** Which side offers: the greater public key controls. */
  predicate Controls(local: string, remote: string) {
    Greater(local, remote)
  }

  /** The tie-break needs no message: of two different machines exactly one
      controls, and no machine controls itself. */
  lemma {:induction false} ExactlyOneControls(a: string, b: string)
    ensures a != b ==> (Controls(a, b) <==> !Controls(b, a))
    ensures !Controls(a, a)
  {
    if a != [] {
      if b != [] && a[0] == b[0] {
        assert a == [a[0]] + a[1..] && b == [b[0]] + b[1..];
        ExactlyOneControls(a[1..], b[1..]);
      } else {
        ExactlyOneControls(a[1..], a[1..]);
      }
    }
  }

  /** What greater means: the two agree up to some place, and there the one has more, or
      the greater byte. */
  ghost predicate GreaterAt(a: string, b: string, n: nat) {
    n < |a| && n <= |b| && a[..n] == b[..n] && (n == |b| || a[n] > b[n])
  }

  lemma {:induction false} GreaterExactly(a: string, b: string)
    ensures Controls(a, b) <==> exists n: nat :: GreaterAt(a, b, n)
  {
    if a != [] && b != [] && a[0] == b[0] {
      GreaterExactly(a[1..], b[1..]);
      if n: nat :| GreaterAt(a[1..], b[1..], n) {
        assert a[..n + 1] == [a[0]] + a[1..][..n] && b[..n + 1] == [b[0]] + b[1..][..n];
        assert GreaterAt(a, b, n + 1);
      }
      if n: nat :| GreaterAt(a, b, n) {
        assert n > 0 && a[1..][..n - 1] == a[..n][1..] && b[1..][..n - 1] == b[..n][1..];
        assert GreaterAt(a[1..], b[1..], n - 1);
      }
    } else {
      assert a != [] && b != [] ==> forall n: nat :: 0 < n <= |a| && n <= |b| && a[..n] == b[..n] ==> a[..n][0] == b[..n][0];
      assert Controls(a, b) ==> GreaterAt(a, b, 0);
    }
  }

  datatype State = StateIdle | StateNegotiating | StateConnected | StateFailed | StateClosed

  /** A candidate given to the agent, and whether it was one of those held back
      until there was one. */
  datatype Delivery = Delivery(raw: string, held: bool)

  /** The credentials of the peer: what Start waits for. */
  datatype Remote = Remote(ufrag: string, pwd: string, ready: bool, crashed: bool)

  /** Where the peer's candidates are.  `handing` is what `newAgent` still has to
      hand over, `carried` what callers of `AddRemoteCandidate` hold between
      finding the agent and giving it the candidate; `taken` is the whole of what
      was held when an agent appeared. */
  datatype Candidates = Candidates(
    pending: seq<string>, handing: seq<string>, carried: seq<string>, given: seq<Delivery>, taken: seq<string>)

  /** The agent, the path and the state.  The callback is called after the lock is
      released: `owed` is what goroutines still have to tell it, `told` what it has
      heard, and `changes` is history, every change of the state in order. */
  datatype Life = Life(
    agent: bool, conn: bool, closed: bool, state: State, changes: seq<State>, owed: seq<State>, told: seq<State>)

  datatype Snap = Snap(remote: Remote, cands: Candidates, life: Life)

  datatype Event =
    | SetRemoteCredentials(ufrag: string, pwd: string)
    | AddRemoteCandidate(raw: string)
    | Give(at: nat)
    | NewAgent
    | HandOver
    | Connect
    | SetState(to: State)
    | Tell(at: nat)
    | Close

  const NEW := Snap(Remote("", "", false, false), Candidates([], [], [], [], []), Life(false, false, false, StateIdle, [], [], []))

  function NextRemote(r: Remote, e: Event): Remote {
    if !e.SetRemoteCredentials? || r.ufrag != "" then r
    else Remote(e.ufrag, e.pwd, true, r.ready)
  }

  function NextCandidates(c: Candidates, l: Life, e: Event): Candidates {
    match e
    case AddRemoteCandidate(raw) =>
      if l.agent then c.(carried := c.carried + [raw]) else c.(pending := c.pending + [raw])
    case Give(at) =>
      if at < |c.carried| then c.(carried := Without(c.carried, at), given := c.given + [Delivery(c.carried[at], false)]) else c
    case NewAgent =>
      if l.closed then c else c.(handing := c.handing + c.pending, taken := c.taken + c.pending, pending := [])
    case HandOver =>
      if c.handing == [] then c
      else c.(handing := c.handing[1..], given := c.given + [Delivery(c.handing[0], true)])
    case _ => c
  }

  predicate Alters(l: Life, e: Event) {
    e.SetState? && l.state != e.to && l.state != StateClosed
  }

  /** The path is stored without a look at whether the session is still open. */
  function NextLife(l: Life, e: Event): Life {
    match e
    case NewAgent => if l.closed then l else l.(agent := true)
    case Connect => l.(conn := true)
    case SetState(to) =>
      if Alters(l, e) then l.(state := to, changes := l.changes + [to], owed := l.owed + [to]) else l
    case Tell(at) =>
      if at < |l.owed| then l.(owed := Without(l.owed, at), told := l.told + [l.owed[at]]) else l
    case Close => if l.closed then l else l.(closed := true, agent := false, conn := false)
    case _ => l
  }

  /** One section.  An event whose moment has not come changes nothing, and
      neither does anything after the process has crashed. */
  function Next(s: Snap, e: Event): Snap {
    if s.remote.crashed then s
    else Snap(NextRemote(s.remote, e), NextCandidates(s.cands, s.life, e), NextLife(s.life, e))
  }

  function After(es: seq<Event>): Snap {
    if es == [] then NEW else Next(After(es[..|es| - 1]), es[|es| - 1])
  }

  /** What `SetRemoteCredentials` answers: can this session use them? */
  predicate Usable(r: Remote, ufrag: string, pwd: string) {
    r.ufrag == "" || (r.ufrag == ufrag && r.pwd == pwd)
  }

  datatype Credentials = Credentials(ufrag: string, pwd: string)

  /** The credentials brought by a run, in order. */
  function Calls(es: seq<Event>): seq<Credentials> {
    if es == [] then []
    else
      var e := es[|es| - 1];
      Calls(es[..|es| - 1]) + if e.SetRemoteCredentials? then [Credentials(e.ufrag, e.pwd)] else []
  }

  /** The candidates brought by a run, in order. */
  function Received(es: seq<Event>): seq<string> {
    if es == [] then []
    else
      var e := es[|es| - 1];
      Received(es[..|es| - 1]) + if e.AddRemoteCandidate? then [e.raw] else []
  }

  function Raws(ds: seq<Delivery>): seq<string> {
    if ds == [] then [] else Raws(ds[..|ds| - 1]) + [ds[|ds| - 1].raw]
  }

  function HeldRaws(ds: seq<Delivery>): seq<string> {
    if ds == [] then []
    else HeldRaws(ds[..|ds| - 1]) + if ds[|ds| - 1].held then [ds[|ds| - 1].raw] else []
  }

  lemma RawsSnoc(ds: seq<Delivery>, d: Delivery)
    ensures Raws(ds + [d]) == Raws(ds) + [d.raw]
    ensures HeldRaws(ds + [d]) == HeldRaws(ds) + if d.held then [d.raw] else []
  {
    assert (ds + [d])[..|ds|] == ds;
  }

  /** The first credentials win for ever, and the channel that announces them is
      closed a second time exactly when the first set had an empty user name and
      another set came. */
  ghost predicate FirstWins(r: Remote, cs: seq<Credentials>) {
    && (r.ready <==> cs != [])
    && (r.crashed <==> |cs| >= 2 && cs[0].ufrag == "")
    && (cs == [] ==> r.ufrag == "")
    && (cs != [] && !r.crashed ==> r.ufrag == cs[0].ufrag && r.pwd == cs[0].pwd)
  }

  lemma {:induction false} FirstCredentialsWin(es: seq<Event>)
    ensures FirstWins(After(es).remote, Calls(es))
    decreases |es|
  {
    if es != [] {
      var k := |es| - 1;
      FirstCredentialsWin(es[..k]);
      var r, cs := After(es[..k]).remote, Calls(es[..k]);
      assert FirstWins(if r.crashed then r else NextRemote(r, es[k]), Calls(es));
    }
  }

  /** So the answer to every later set of credentials is whether it repeats the
      first one. */
  lemma AnswerIsSameAgain(es: seq<Event>, ufrag: string, pwd: string)
    requires Calls(es) != [] && Calls(es)[0].ufrag != ""
    ensures Usable(After(es).remote, ufrag, pwd) <==> Credentials(ufrag, pwd) == Calls(es)[0]
  {
    FirstCredentialsWin(es);
  }

  /** Every place a candidate can be: given to the agent, being handed over,
      carried by a caller, held. */
  function Everywhere(c: Candidates): seq<string> {
    Raws(c.given) + c.handing + c.carried + c.pending
  }

  /** Every candidate received is in exactly one place, as often as it came, and
      the ones that were held are given in the order they came. */
  ghost predicate Conserved(c: Candidates, received: seq<string>) {
    && multiset(received) == multiset(Everywhere(c))
    && HeldRaws(c.given) + c.handing == c.taken
  }

  /** Nobody carries a candidate before there is an agent to give it to, and nothing
      is held while there is one. */
  ghost predicate Placed(c: Candidates, l: Life) {
    && (!l.agent && !l.closed ==> c.carried == [])
    && (l.agent ==> c.pending == [])
  }

  /** Moving one element forward in a list keeps its contents. */
  lemma MovedOne<T>(a: seq<T>, b: seq<T>, x: T, c: seq<T>)
    ensures multiset(a + b + [x] + c) == multiset(a + [x] + b + c)
  {
    assert a + b + [x] + c == a + (b + [x]) + c;
    assert a + [x] + b + c == a + ([x] + b) + c;
    assert multiset(b + [x]) == multiset([x] + b);
  }

  lemma MovedFromMiddle<T>(a: seq<T>, b: seq<T>, c: seq<T>, at: nat, d: seq<T>)
    requires at < |c|
    ensures multiset(a + [c[at]] + b + Without(c, at) + d) == multiset(a + b + c + d)
  {
    var x := c[at];
    MovedOne(a, b + c[..at], x, c[at + 1..] + d);
    assert a + b + c + d == a + (b + c[..at]) + [x] + (c[at + 1..] + d);
    assert a + [x] + b + Without(c, at) + d == a + [x] + (b + c[..at]) + (c[at + 1..] + d);
  }

  lemma GiveConserves(c: Candidates, at: nat)
    requires at < |c.carried|
    ensures var c' := c.(carried := Without(c.carried, at), given := c.given + [Delivery(c.carried[at], false)]);
            multiset(Everywhere(c')) == multiset(Everywhere(c)) && HeldRaws(c'.given) == HeldRaws(c.given)
  {
    RawsSnoc(c.given, Delivery(c.carried[at], false));
    MovedFromMiddle(Raws(c.given), c.handing, c.carried, at, c.pending);
  }

  lemma HandOverConserves(c: Candidates)
    requires c.handing != []
    ensures var c' := c.(handing := c.handing[1..], given := c.given + [Delivery(c.handing[0], true)]);
            Everywhere(c') == Everywhere(c) && HeldRaws(c'.given) + c'.handing == HeldRaws(c.given) + c.handing
  {
    RawsSnoc(c.given, Delivery(c.handing[0], true));
    assert c.handing == [c.handing[0]] + c.handing[1..];
    assert Raws(c.given) + [c.handing[0]] + c.handing[1..] == Raws(c.given) + c.handing;
    assert HeldRaws(c.given) + [c.handing[0]] + c.handing[1..] == HeldRaws(c.given) + c.handing;
  }

  lemma AddConserves(c: Candidates, l: Life, raw: string)
    requires Placed(c, l)
    ensures Everywhere(NextCandidates(c, l, AddRemoteCandidate(raw))) == Everywhere(c) + [raw]
  {
  }

  lemma NewAgentConserves(c: Candidates, l: Life)
    requires Placed(c, l) && HeldRaws(c.given) + c.handing == c.taken
    ensures var c' := NextCandidates(c, l, NewAgent);
            Everywhere(c') == Everywhere(c) && HeldRaws(c'.given) + c'.handing == c'.taken
  {
  }

  /** A step other than a new candidate only moves candidates about. */
  lemma StepMoves(c: Candidates, l: Life, e: Event)
    requires HeldRaws(c.given) + c.handing == c.taken && Placed(c, l) && !e.AddRemoteCandidate?
    ensures var c' := NextCandidates(c, l, e);
            multiset(Everywhere(c')) == multiset(Everywhere(c)) && HeldRaws(c'.given) + c'.handing == c'.taken
  {
    if e.Give? && e.at < |c.carried| {
      GiveConserves(c, e.at);
    } else if e.HandOver? && c.handing != [] {
      HandOverConserves(c);
    } else if e.NewAgent? {
      NewAgentConserves(c, l);
    } else {
      assert NextCandidates(c, l, e) == c;
    }
  }

  lemma StepConserves(c: Candidates, l: Life, e: Event, received: seq<string>)
    requires Conserved(c, received) && Placed(c, l)
    ensures Conserved(NextCandidates(c, l, e), if e.AddRemoteCandidate? then received + [e.raw] else received)
  {
    if e.AddRemoteCandidate? {
      AddConserves(c, l, e.raw);
      assert multiset(received + [e.raw]) == multiset(Everywhere(c) + [e.raw]);
    } else {
      StepMoves(c, l, e);
    }
  }

  lemma {:induction false} AlwaysPlaced(es: seq<Event>)
    ensures Placed(After(es).cands, After(es).life)
    decreases |es|
  {
    if es != [] {
      AlwaysPlaced(es[..|es| - 1]);
    }
  }

  lemma {:induction false} CandidatesConserved(es: seq<Event>)
    requires !After(es).remote.crashed
    ensures Conserved(After(es).cands, Received(es))
    decreases |es|
  {
    if es != [] {
      var k := |es| - 1;
      var s, e := After(es[..k]), es[k];
      CandidatesConserved(es[..k]);
      AlwaysPlaced(es[..k]);
      StepConserves(s.cands, s.life, e, Received(es[..k]));
      assert Received(es) == if e.AddRemoteCandidate? then Received(es[..k]) + [e.raw] else Received(es[..k]);
    }
  }

  /** Until there is an agent everything received is held, in the order it came. */
  ghost predicate HeldSoFar(c: Candidates, l: Life, received: seq<string>) {
    && c.taken <= received
    && (!l.agent && !l.closed ==> c.taken == [] && c.pending == received)
  }

  lemma HeldStep(c: Candidates, l: Life, e: Event, received: seq<string>)
    requires HeldSoFar(c, l, received) && Placed(c, l)
    ensures HeldSoFar(NextCandidates(c, l, e), NextLife(l, e), if e.AddRemoteCandidate? then received + [e.raw] else received)
  {
    if e.NewAgent? && l.agent {
      assert c.taken + c.pending == c.taken;
    }
  }

  /** What was held and handed over is the beginning of what was received, in order. */
  lemma {:induction false} HeldInOrder(es: seq<Event>)
    requires !After(es).remote.crashed
    ensures HeldSoFar(After(es).cands, After(es).life, Received(es))
    decreases |es|
  {
    if es != [] {
      var k := |es| - 1;
      var s, e := After(es[..k]), es[k];
      HeldInOrder(es[..k]);
      AlwaysPlaced(es[..k]);
      HeldStep(s.cands, s.life, e, Received(es[..k]));
      assert Received(es) == if e.AddRemoteCandidate? then Received(es[..k]) + [e.raw] else Received(es[..k]);
    }
  }

  // ---------------------------------------------------------------------------
  // What a run has come to
  // ---------------------------------------------------------------------------

  predicate Has(es: seq<Event>, e: Event) {
    es != [] && (es[|es| - 1] == e || Has(es[..|es| - 1], e))
  }

  /** The state asked for last. */
  function LastAsked(es: seq<Event>): State {
    if es == [] then StateIdle
    else if es[|es| - 1].SetState? then es[|es| - 1].to
    else LastAsked(es[..|es| - 1])
  }

  lemma {:induction false} AskedIsThere(es: seq<Event>)
    ensures LastAsked(es) != StateIdle ==> Has(es, SetState(LastAsked(es)))
    decreases |es|
  {
    if es != [] {
      AskedIsThere(es[..|es| - 1]);
    }
  }

  /** Whether a session is closed, and whether it has an agent, a path and which state, by
      what was done to it: it has an agent once one was made, until it is closed; until
      then a path once one was stored; and the state asked for last, unless that was ever
      closed. */
  lemma {:induction false} LifeExactly(es: seq<Event>)
    requires !After(es).remote.crashed
    ensures var l := After(es).life;
            && (l.closed <==> Has(es, Close))
            && (!l.closed ==> (l.agent <==> Has(es, NewAgent)) && (l.conn <==> Has(es, Connect)))
            && (l.closed ==> !l.agent)
            && l.state == if Has(es, SetState(StateClosed)) then StateClosed else LastAsked(es)
    decreases |es|
  {
    if es != [] {
      LifeExactly(es[..|es| - 1]);
      AskedIsThere(es[..|es| - 1]);
    }
  }

  // ---------------------------------------------------------------------------
  // What the callback hears
  // ---------------------------------------------------------------------------

  /** The changes are changes, nothing changes after closed, and the last is the state. */
  ghost predicate Changing(l: Life) {
    && l.state == (if l.changes == [] then StateIdle else l.changes[|l.changes| - 1])
    && (forall i :: 0 < i < |l.changes| ==> l.changes[i] != l.changes[i - 1])
    && (forall i :: 0 <= i < |l.changes| - 1 ==> l.changes[i] != StateClosed)
  }

  /** Every change is told once or still owed once. */
  ghost predicate Accounted(l: Life) {
    multiset(l.told + l.owed) == multiset(l.changes)
  }

  lemma StepChanges(l: Life, e: Event)
    requires Changing(l)
    ensures Changing(NextLife(l, e))
  {
  }

  lemma StepAccounts(l: Life, e: Event)
    requires Accounted(l)
    ensures Accounted(NextLife(l, e))
  {
    if e.Tell? && e.at < |l.owed| {
      MovedFromMiddle(l.told, [], l.owed, e.at, []);
      assert l.told + [l.owed[e.at]] + [] + Without(l.owed, e.at) + [] == l.told + [l.owed[e.at]] + Without(l.owed, e.at);
      assert l.told + [] + l.owed + [] == l.told + l.owed;
    } else if Alters(l, e) {
      assert l.told + (l.owed + [e.to]) == (l.told + l.owed) + [e.to];
    }
  }

  /** In every interleaving each change of the state is told exactly once, or is still
      owed; none is told that did not happen. */
  lemma {:induction false} EveryChangeToldOnce(es: seq<Event>)
    ensures Changing(After(es).life) && Accounted(After(es).life)
    decreases |es|
  {
    if es != [] {
      var k := |es| - 1;
      EveryChangeToldOnce(es[..k]);
      StepChanges(After(es[..k]).life, es[k]);
      StepAccounts(After(es[..k]).life, es[k]);
    }
  }

  /** One more event, of a session that nobody has sent credentials. */
  lemma Then(es: seq<Event>, e: Event, l: Life)
    requires After(es).remote == NEW.remote && !e.SetRemoteCredentials? && NextLife(After(es).life, e) == l
    ensures After(es + [e]).remote == NEW.remote && After(es + [e]).life == l
  {
    assert (es + [e])[..|es|] == es;
  }

  const CROSSED := Life(false, false, true, StateClosed, [StateFailed, StateClosed], [StateFailed, StateClosed], [])

  lemma FailedAndClosed() returns (es: seq<Event>)
    ensures es == [SetState(StateFailed)] + [Close] + [SetState(StateClosed)]
    ensures After(es).remote == NEW.remote && After(es).life == CROSSED
  {
    var failed := Life(false, false, false, StateFailed, [StateFailed], [StateFailed], []);
    Then([], SetState(StateFailed), failed);
    es := [] + [SetState(StateFailed)];
    Then(es, Close, failed.(closed := true));
    es := es + [Close];
    Then(es, SetState(StateClosed), CROSSED);
    es := es + [SetState(StateClosed)];
  }

  lemma Crossing()
    ensures NextLife(CROSSED, Tell(1)) == CROSSED.(owed := [StateFailed], told := [StateClosed])
    ensures NextLife(CROSSED.(owed := [StateFailed], told := [StateClosed]), Tell(0)) == CROSSED.(owed := [], told := [StateClosed, StateFailed])
  {
  }

  /** The order is another matter.  A failure is noticed and the session closed; the
      goroutine that closed it calls back first, and the last thing heard of a closed
      session is that it failed. */
  lemma ClosedThenFailed() returns (es: seq<Event>)
    ensures es == [SetState(StateFailed)] + [Close] + [SetState(StateClosed)] + [Tell(1)] + [Tell(0)]
    ensures var l := After(es).life; l.state == StateClosed && l.owed == [] && l.told == [StateClosed, StateFailed]
  {
    es := FailedAndClosed();
    Crossing();
    Then(es, Tell(1), NextLife(CROSSED, Tell(1)));
    es := es + [Tell(1)];
    Then(es, Tell(0), NextLife(NextLife(CROSSED, Tell(1)), Tell(0)));
    es := es + [Tell(0)];
  }

  /** Whichever callback comes next, what was heard is a beginning of what happened. */
  ghost predicate NextInOrder(l: Life) {
    l.told <= l.changes && forall at :: 0 <= at < |l.owed| ==> l.told + [l.owed[at]] <= l.changes
  }

  /** No section changes the state while a callback about an earlier change is owed. */
  ghost predicate Prompt(es: seq<Event>) {
    es == [] || (Prompt(es[..|es| - 1]) && PromptStep(After(es[..|es| - 1]), es[|es| - 1]))
  }

  predicate PromptStep(s: Snap, e: Event) {
    !s.remote.crashed && Alters(s.life, e) ==> s.life.owed == []
  }

  ghost predicate OneOwed(l: Life) {
    l.told + l.owed == l.changes && |l.owed| <= 1
  }

  lemma PromptStepKeeps(l: Life, e: Event)
    requires OneOwed(l) && (Alters(l, e) ==> l.owed == [])
    ensures OneOwed(NextLife(l, e))
  {
    if e.Tell? && e.at < |l.owed| {
      assert Without(l.owed, 0) == [] && l.told + [l.owed[0]] + [] == l.told + l.owed;
    }
  }

  lemma {:induction false} PromptOwesOne(es: seq<Event>)
    requires Prompt(es)
    ensures OneOwed(After(es).life)
    decreases |es|
  {
    if es != [] {
      var k := |es| - 1;
      PromptOwesOne(es[..k]);
      if !After(es[..k]).remote.crashed {
        PromptStepKeeps(After(es[..k]).life, es[k]);
      }
    }
  }

  /** Then the callback has heard all that happened, in order, up to the one it is owed;
      and owed nothing, the last thing it heard is the state. */
  lemma PromptHearsAll(es: seq<Event>)
    requires Prompt(es)
    ensures var l := After(es).life;
            && NextInOrder(l) && |l.owed| <= 1
            && (l.owed == [] ==> l.told == l.changes && l.state == if l.told == [] then StateIdle else l.told[|l.told| - 1])
  {
    PromptOwesOne(es);
    EveryChangeToldOnce(es);
    OneOwedHears(After(es).life);
  }

  lemma OneOwedHears(l: Life)
    requires OneOwed(l) && Changing(l)
    ensures NextInOrder(l)
    ensures l.owed == [] ==> l.told == l.changes && l.state == if l.told == [] then StateIdle else l.told[|l.told| - 1]
  {
    assert l.owed == [] ==> l.told + l.owed == l.told;
    assert l.owed != [] ==> [l.owed[0]] == l.owed;
  }

  /** A change while one is owed can be heard before it. */
  lemma ChangeOvertakes(l: Life, e: Event)
    requires OneOwed(l) && Changing(l) && Alters(l, e) && l.owed != []
    ensures !NextInOrder(NextLife(l, e))
  {
    var l' := NextLife(l, e);
    var n := |l.told|;
    assert l'.owed[1] == e.to && l'.changes[n] == l.changes[n] == l.owed[0];
    assert (l'.told + [l'.owed[1]])[n] == e.to;
  }

  lemma {:induction false} NotPromptOvertakes(es: seq<Event>) returns (n: nat)
    requires !Prompt(es)
    ensures n <= |es| && !NextInOrder(After(es[..n]).life)
    decreases |es|
  {
    var k := |es| - 1;
    if Prompt(es[..k]) {
      PromptOwesOne(es[..k]);
      EveryChangeToldOnce(es[..k]);
      ChangeOvertakes(After(es[..k]).life, es[k]);
      n := |es|;
      assert es[..n] == es;
    } else {
      n := NotPromptOvertakes(es[..k]);
      assert es[..k][..n] == es[..n];
    }
  }

  lemma {:induction false} PromptPrefix(es: seq<Event>, n: nat)
    requires Prompt(es) && n <= |es|
    ensures Prompt(es[..n])
    decreases |es|
  {
    if n < |es| {
      PromptPrefix(es[..|es| - 1], n);
      assert es[..|es| - 1][..n] == es[..n];
    } else {
      assert es[..n] == es;
    }
  }

  /** At every moment of a run, whichever goroutine gets to its callback next, the
      callback hears the changes in order, if and only if no section changes the state
      while a callback is owed. */
  lemma HeardInOrderExactly(es: seq<Event>)
    ensures Prompt(es) <==> forall n :: 0 <= n <= |es| ==> NextInOrder(After(es[..n]).life)
  {
    if Prompt(es) {
      forall n | 0 <= n <= |es| ensures NextInOrder(After(es[..n]).life) {
        PromptPrefix(es, n);
        PromptHearsAll(es[..n]);
      }
    } else {
      var n := NotPromptOvertakes(es);
    }
  }

  // ---------------------------------------------------------------------------
  // Closed
  // ---------------------------------------------------------------------------

  /** Closed is for ever: whatever follows, the session stays closed and has no agent,
      and the closed state never changes again. */
  ghost predicate StaysClosed(l: Life, l': Life) {
    && (l.closed ==> l'.closed && !l'.agent)
    && (l.state == StateClosed ==> l'.state == StateClosed && l'.changes == l.changes)
  }

  lemma {:induction false} ClosedIsAbsorbing(es: seq<Event>, more: seq<Event>)
    ensures StaysClosed(After(es).life, After(es + more).life)
    decreases |more|
  {
    if more == [] {
      assert es + more == es;
      ClosedHasNoAgent(es);
    } else {
      var k := |more| - 1;
      assert (es + more)[..|es| + k] == es + more[..k];
      ClosedIsAbsorbing(es, more[..k]);
      var l := After(es + more[..k]).life;
      assert StaysClosed(After(es).life, NextLife(l, more[k]));
    }
  }

  lemma {:induction false} ClosedHasNoAgent(es: seq<Event>)
    ensures After(es).life.closed ==> !After(es).life.agent
    decreases |es|
  {
    if es != [] {
      ClosedHasNoAgent(es[..|es| - 1]);
    }
  }

  ghost predicate HasConnect(es: seq<Event>) {
    exists i :: 0 <= i < |es| && es[i].Connect?
  }

  lemma HasConnectSnoc(es: seq<Event>)
    requires es != []
    ensures HasConnect(es) <==> HasConnect(es[..|es| - 1]) || es[|es| - 1].Connect?
  {
    var k := |es| - 1;
    if i :| 0 <= i < |es| && es[i].Connect? {
      assert i < k ==> es[..k][i].Connect?;
    }
    if i :| 0 <= i < k && es[..k][i].Connect? {
      assert es[i].Connect?;
    }
  }

  /** The path is not: a session that was closed has one again if and only if the section
      that stores it came after the close. */
  lemma {:induction false} PathAfterClose(es: seq<Event>, more: seq<Event>)
    requires !After(es).life.closed && !After(es + [Close] + more).remote.crashed
    ensures After(es + [Close] + more).life.closed
    ensures After(es + [Close] + more).life.conn <==> HasConnect(more)
    decreases |more|
  {
    var all := es + [Close] + more;
    if more == [] {
      assert all[..|all| - 1] == es && all[|all| - 1] == Close;
    } else {
      var k := |more| - 1;
      assert all[..|all| - 1] == es + [Close] + more[..k];
      PathAfterClose(es, more[..k]);
      HasConnectSnoc(more);
    }
  }

  /** The session as the code holds it: fields changed in place, one method per
      section.  Each method is one `Next`. */
  class Session {
    var agent: bool
    var conn: bool
    var state: State
    var remoteUfrag: string
    var remotePwd: string
    var credsReady: bool
    var crashed: bool
    var pending: seq<string>
    var handing: seq<string>
    var carried: seq<string>
    var given: seq<Delivery>
    var owed: seq<State>
    var told: seq<State>
    var closed: bool
    ghost var taken: seq<string>
    ghost var changes: seq<State>

    ghost function Snapshot(): Snap
      reads this
    {
      Snap(Remote(remoteUfrag, remotePwd, credsReady, crashed),
           Candidates(pending, handing, carried, given, taken),
           Life(agent, conn, closed, state, changes, owed, told))
    }

    constructor ()
      ensures Snapshot() == NEW
    {
      agent, conn, state := false, false, StateIdle;
      remoteUfrag, remotePwd, credsReady, crashed := "", "", false, false;
      pending, handing, carried, given, owed, told, closed := [], [], [], [], [], [], false;
      taken, changes := [], [];
    }

    method SetRemoteCredentials(ufrag: string, pwd: string) returns (usable: bool)
      requires !crashed
      modifies this`remoteUfrag, this`remotePwd, this`credsReady, this`crashed
      ensures Snapshot() == Next(old(Snapshot()), Event.SetRemoteCredentials(ufrag, pwd))
      ensures !crashed ==> usable == Usable(old(Snapshot()).remote, ufrag, pwd)
    {
      if remoteUfrag == "" {
        remoteUfrag, remotePwd := ufrag, pwd;
        crashed := credsReady;
        credsReady := true;
        return true;
      }
      return remoteUfrag == ufrag && remotePwd == pwd;
    }

    method AddRemoteCandidate(raw: string)
      requires !crashed
      modifies this`pending, this`carried
      ensures Snapshot() == Next(old(Snapshot()), Event.AddRemoteCandidate(raw))
    {
      if !agent {
        pending := pending + [raw];
      } else {
        carried := carried + [raw];
      }
    }

    /** The section of `newAgent` that publishes the agent and takes what was
        held; false is "session is closed". */
    method NewAgent() returns (ok: bool)
      requires !crashed
      modifies this`agent, this`handing, this`taken, this`pending
      ensures ok == !closed
      ensures Snapshot() == Next(old(Snapshot()), Event.NewAgent)
    {
      if closed {
        return false;
      }
      agent := true;
      handing := handing + pending;
      taken := taken + pending;
      pending := [];
      return true;
    }

    /** The loop that delivers what was held: it ends with nothing left to hand
        over and everything given in order. */
    method HandOverAll()
      requires !crashed
      modifies this`handing, this`given
      ensures handing == []
      ensures HeldRaws(given) == HeldRaws(old(given)) + old(handing)
      ensures Raws(given) == Raws(old(given)) + old(handing)
    {
      while handing != []
        invariant HeldRaws(given) + handing == HeldRaws(old(given)) + old(handing)
        invariant Raws(given) + handing == Raws(old(given)) + old(handing)
        decreases |handing|
      {
        RawsSnoc(given, Delivery(handing[0], true));
        assert handing == [handing[0]] + handing[1..];
        given := given + [Delivery(handing[0], true)];
        handing := handing[1..];
      }
    }

    /** The locked section of `setState`; true is that the callback is now owed. */
    method SetState(to: State) returns (changed: bool)
      requires !crashed
      modifies this`state, this`changes, this`owed
      ensures Snapshot() == Next(old(Snapshot()), Event.SetState(to))
      ensures changed <==> |owed| == |old(owed)| + 1
    {
      if state == to || state == StateClosed {
        return false;
      }
      state := to;
      changes := changes + [to];
      owed := owed + [to];
      return true;
    }

    /** The callback, after the lock was released. */
    method Tell(at: nat)
      requires !crashed && at < |owed|
      modifies this`owed, this`told
      ensures Snapshot() == Next(old(Snapshot()), Event.Tell(at))
    {
      told := told + [owed[at]];
      owed := owed[..at] + owed[at + 1..];
    }

    /** `setState`, run without interruption: the callback hears of a change at once. */
    method SetStateAndTell(to: State)
      requires !crashed
      modifies this`state, this`changes, this`owed, this`told
      ensures owed == old(owed) && (state == to || state == StateClosed)
      ensures if old(state) != to && old(state) != StateClosed
              then state == to && changes == old(changes) + [to] && told == old(told) + [to]
              else state == old(state) && changes == old(changes) && told == old(told)
    {
      var changed := SetState(to);
      if changed {
        Tell(|owed| - 1);
      }
    }

    /** `Close`, run without interruption: the first time it closes the session and sees
        to it that the callback hears so, unless it already had; after that it does
        nothing. */
    method Close()
      requires !crashed
      modifies this`closed, this`agent, this`conn, this`state, this`changes, this`owed, this`told
      ensures old(closed) ==> Snapshot() == old(Snapshot())
      ensures !old(closed) ==> closed && !agent && !conn && state == StateClosed && owed == old(owed)
      ensures !old(closed) && old(state) != StateClosed ==> told == old(told) + [StateClosed] && changes == old(changes) + [StateClosed]
      ensures !old(closed) && old(state) == StateClosed ==> told == old(told) && changes == old(changes)
    {
      if closed {
        return;
      }
      closed := true;
      agent, conn := false, false;
      SetStateAndTell(StateClosed);
    }
  }
}
