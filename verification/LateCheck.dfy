/** Runs in which leadership does not move down.  The ack check is local, and a deposed leader may reach
  * it after its successor has; and machines that restart forget whom they had agreed on. */
module LateCheck {
  import opened Common
  import opened Gossip
  import opened Leadership
  import LeadershipOrder
  import StringOrder

  /** A table that knows exactly `ids`, all of them just pinged. */
  function Knows(ids: set<string>): map<string, Peer> {
    map id | id in ids :: Peer(Some(PeerInfo(id, [])), 0)
  }

  function Infos(ids: set<string>): map<string, PeerInfo> {
    map id | id in ids :: PeerInfo(id, [])
  }

  function ViewOf(ids: set<string>, c: string, token: string): View {
    View(Infos(ids), c, token)
  }

  ghost predicate Plain(s: System) {
    forall p | p in s.tables :: s.tables[p].peers == Knows(s.tables[p].peers.Keys)
  }

  lemma HealthyKnows(ids: set<string>, timeout: nat)
    ensures Healthy(Knows(ids), 0, timeout) == Infos(ids) && Infos(ids).Keys == ids == Knows(ids).Keys
    ensures Fresh(Knows(ids), 0, timeout)
  {
  }

  lemma AcceptsView(t: Table, ids: set<string>, c: string, token: string, timeout: nat)
    requires t.peers == Knows(t.peers.Keys) && t.peers.Keys <= ids && ids != {}
    ensures Notified(t, ViewOf(ids, c, token), 0, timeout) == (Table(Knows(ids), Some(ViewOf(ids, c, token))), Accepted)
  {
    HealthyKnows(ids, timeout);
    var id :| id in ids;
    assert id in Infos(ids);
    assert Learn(t.peers, Infos(ids), 0) == Knows(ids);
  }

  // ---------- pieces of runs ----------

  datatype Path = Path(states: seq<System>, events: seq<Event>)

  ghost predicate StepAt(x: Path, i: nat, timeout: nat)
    requires i < |x.events| && i + 1 < |x.states|
  {
    && AllFresh(x.states[i], x.events[i].now, timeout)
    && Enabled(x.states[i], x.events[i], timeout)
    && x.states[i + 1] == Next(x.states[i], x.events[i], timeout)
  }

  ghost predicate IsPath(x: Path, s: System, s': System, timeout: nat) {
    && |x.states| == |x.events| + 1 && x.states[0] == s && x.states[|x.events|] == s'
    && forall i | 0 <= i < |x.events| :: StepAt(x, i, timeout)
  }

  lemma PathIsRun(x: Path, s: System, s': System, timeout: nat)
    requires IsPath(x, s, s', timeout) && Initial(s)
    ensures IsRun(x.states, x.events, timeout)
  {
    var states, events := x.states, x.events;
    forall i | 0 <= i < |events|
      ensures AllFresh(states[i], events[i].now, timeout) && Enabled(states[i], events[i], timeout)
           && states[i + 1] == Next(states[i], events[i], timeout)
    {
      assert StepAt(x, i, timeout);
    }
  }

  /** Nobody restarts on the way. */
  predicate Calm(x: Path) {
    forall e | e in x.events :: !e.Restart?
  }

  lemma OneStep(s: System, e: Event, timeout: nat) returns (x: Path)
    requires AllFresh(s, e.now, timeout) && Enabled(s, e, timeout)
    ensures IsPath(x, s, Next(s, e, timeout), timeout) && (e.Restart? || Calm(x))
  {
    x := Path([s, Next(s, e, timeout)], [e]);
  }

  lemma Append(x: Path, y: Path, s: System, mid: System, s': System, timeout: nat) returns (z: Path)
    requires IsPath(x, s, mid, timeout) && IsPath(y, mid, s', timeout)
    ensures IsPath(z, s, s', timeout) && (Calm(x) && Calm(y) ==> Calm(z))
  {
    var n := |x.events|;
    z := Path(x.states[..n] + y.states, x.events + y.events);
    forall i | 0 <= i < |z.events| ensures StepAt(z, i, timeout) {
      if i < n {
        assert StepAt(x, i, timeout);
      } else {
        assert StepAt(y, i - n, timeout);
      }
    }
  }

  lemma PlainIsFresh(s: System, timeout: nat)
    requires Plain(s)
    ensures AllFresh(s, 0, timeout)
  {
    forall p | p in s.tables ensures Fresh(s.tables[p].peers, 0, timeout) {
      HealthyKnows(s.tables[p].peers.Keys, timeout);
    }
  }

  // ---------- one round of notifications ----------

  /** Tables once the peers in `told` have accepted the view. */
  function Told(tables: map<string, Table>, ids: set<string>, v: View, told: set<string>): map<string, Table> {
    map p | p in tables :: if p in told then Table(Knows(ids), Some(v)) else tables[p]
  }

  /** Where a round ends that everybody accepts. */
  function RoundEnd(s: System, c: string, ids: set<string>, told: set<string>): System
    requires c in s.controllers && (s.controllers[c].cycle.Bidding? || s.controllers[c].cycle.Asserting?)
    requires s.controllers[c].cycle.Asserting? ==> s.controllers[c].cycle.k < |s.assertions|
  {
    var ctl := s.controllers[c];
    var s1 := s.(tables := Told(s.tables, ids, ctl.cycle.view, told));
    match ctl.cycle
    case Bidding(view, _) => s1.(controllers := s.controllers[c := Controller(Some(Term(view.token, ids)), Idle)])
    case Asserting(view, _, k) =>
      var a := s.assertions[k];
      SetCycle(s1, c, Checking(view, k))
        .(assertions := s.assertions[k := a.(accepted := a.accepted + told)], completed := s.completed + [k])
  }

  ghost predicate Ready(s: System, c: string, ids: set<string>, token: string, pending: set<string>) {
    && Plain(s) && c in s.tables && c in s.controllers && ids != {} && pending <= ids
    && (forall p | p in pending :: p in s.tables && s.tables[p].peers.Keys <= ids)
    && var cycle := s.controllers[c].cycle;
       && (cycle.Bidding? || cycle.Asserting?) && cycle.view == ViewOf(ids, c, token) && cycle.pending == pending
       && (cycle.Asserting? ==> cycle.k < |s.assertions|)
  }

  /** One accepted notification. */
  lemma OneAccepts(s: System, c: string, ids: set<string>, token: string, pending: set<string>, p: string, timeout: nat)
    requires Ready(s, c, ids, token, pending) && p in pending
    ensures Enabled(s, Notify(c, p, 0), timeout)
    ensures Next(s, Notify(c, p, 0), timeout)
         == Acked(s.(tables := Told(s.tables, ids, ViewOf(ids, c, token), {p})), c, p)
  {
    AcceptsView(s.tables[p], ids, c, token, timeout);
    assert s.tables[p := Table(Knows(ids), Some(ViewOf(ids, c, token)))]
        == Told(s.tables, ids, ViewOf(ids, c, token), {p});
  }

  lemma LastAccepts(s: System, c: string, ids: set<string>, token: string, p: string, timeout: nat)
    requires Ready(s, c, ids, token, {p})
    ensures Enabled(s, Notify(c, p, 0), timeout)
    ensures Next(s, Notify(c, p, 0), timeout) == RoundEnd(s, c, ids, {p})
  {
    OneAccepts(s, c, ids, token, {p}, p, timeout);
    HealthyKnows(ids, timeout);
    assert {p} - {p} == {};
  }

  /** The state after an acceptance that is not the last. */
  function OneTold(s: System, c: string, ids: set<string>, p: string): System
    requires c in s.controllers && (s.controllers[c].cycle.Bidding? || s.controllers[c].cycle.Asserting?)
    requires s.controllers[c].cycle.Asserting? ==> s.controllers[c].cycle.k < |s.assertions|
  {
    var cycle := s.controllers[c].cycle;
    var s1 := SetCycle(s.(tables := Told(s.tables, ids, cycle.view, {p})), c, cycle.(pending := cycle.pending - {p}));
    if cycle.Bidding? then s1
    else
      var a := s.assertions[cycle.k];
      s1.(assertions := s.assertions[cycle.k := a.(accepted := a.accepted + {p})])
  }

  lemma MoreAccept(s: System, c: string, ids: set<string>, token: string, pending: set<string>, p: string, timeout: nat)
    requires Ready(s, c, ids, token, pending) && p in pending && pending - {p} != {}
    ensures Enabled(s, Notify(c, p, 0), timeout)
    ensures Next(s, Notify(c, p, 0), timeout) == OneTold(s, c, ids, p)
  {
    OneAccepts(s, c, ids, token, pending, p, timeout);
  }

  lemma StillReady(s: System, c: string, ids: set<string>, token: string, pending: set<string>, p: string)
    requires Ready(s, c, ids, token, pending) && p in pending
    ensures Ready(OneTold(s, c, ids, p), c, ids, token, pending - {p})
  {
    HealthyKnows(ids, 0);
  }

  lemma SameEnd(s: System, c: string, ids: set<string>, token: string, pending: set<string>, p: string)
    requires Ready(s, c, ids, token, pending) && p in pending
    requires Ready(OneTold(s, c, ids, p), c, ids, token, pending - {p})
    ensures RoundEnd(OneTold(s, c, ids, p), c, ids, pending - {p}) == RoundEnd(s, c, ids, pending)
  {
    var s1 := OneTold(s, c, ids, p);
    var cycle := s.controllers[c].cycle;
    assert Told(s1.tables, ids, cycle.view, pending - {p}) == Told(s.tables, ids, cycle.view, pending);
    if cycle.Asserting? {
      var a := s.assertions[cycle.k];
      assert a.accepted + {p} + (pending - {p}) == a.accepted + pending;
    }
  }

  lemma {:induction false} Round(s: System, c: string, ids: set<string>, token: string, pending: set<string>,
                                 timeout: nat)
    returns (x: Path)
    requires Ready(s, c, ids, token, pending) && pending != {}
    ensures IsPath(x, s, RoundEnd(s, c, ids, pending), timeout) && Calm(x)
    decreases |pending|
  {
    var p :| p in pending;
    PlainIsFresh(s, timeout);
    if pending == {p} {
      LastAccepts(s, c, ids, token, p, timeout);
      x := OneStep(s, Notify(c, p, 0), timeout);
    } else {
      assert pending - {p} != {};
      MoreAccept(s, c, ids, token, pending, p, timeout);
      x := OneStep(s, Notify(c, p, 0), timeout);
      StillReady(s, c, ids, token, pending, p);
      var y := Round(OneTold(s, c, ids, p), c, ids, token, pending - {p}, timeout);
      SameEnd(s, c, ids, token, pending, p);
      x := Append(x, y, s, OneTold(s, c, ids, p), RoundEnd(s, c, ids, pending), timeout);
    }
  }

  // ---------- a whole cycle ----------

  /** `c` is idle, sees itself as the lowest of `ids`, and nobody among them knows anybody else. */
  ghost predicate Alone(s: System, c: string, ids: set<string>) {
    && Plain(s) && c in s.tables && c in s.controllers && s.controllers[c].cycle.Idle?
    && s.tables[c].peers.Keys == ids && Lowest(c, ids)
    && forall p | p in ids :: p in s.tables && s.tables[p].peers.Keys <= ids
  }

  function Elected(s: System, c: string, ids: set<string>, token: string): System {
    s.(tables := Told(s.tables, ids, ViewOf(ids, c, token), ids),
       controllers := s.controllers[c := Controller(Some(Term(token, ids)), Idle)])
  }

  function Asserted(s: System, c: string, ids: set<string>, token: string): System {
    var k := |s.assertions|;
    s.(tables := Told(s.tables, ids, ViewOf(ids, c, token), ids),
       controllers := s.controllers[c := Controller(Some(Term(token, ids)), Checking(ViewOf(ids, c, token), k))],
       assertions := s.assertions + [Assertion(c, ids, ids)], completed := s.completed + [k])
  }

  lemma Begins(s: System, c: string, ids: set<string>, token: string, timeout: nat) returns (x: Path)
    requires Alone(s, c, ids) && (s.controllers[c].term.Some? ==> s.controllers[c].term.value.token == token)
    ensures var s1 := BeginCycle(s, c, token, 0, timeout);
      && IsPath(x, s, s1, timeout) && Calm(x) && Ready(s1, c, ids, token, ids)
      && s1.controllers[c].term == s.controllers[c].term
  {
    HealthyKnows(ids, timeout);
    PlainIsFresh(s, timeout);
    x := OneStep(s, Begin(c, token, 0), timeout);
  }

  lemma Elects(s: System, c: string, ids: set<string>, token: string, timeout: nat) returns (x: Path)
    requires Alone(s, c, ids) && s.controllers[c].term.None?
    ensures IsPath(x, s, Elected(s, c, ids, token), timeout) && Calm(x)
  {
    var s1 := BeginCycle(s, c, token, 0, timeout);
    var y := Begins(s, c, ids, token, timeout);
    x := Round(s1, c, ids, token, ids, timeout);
    assert RoundEnd(s1, c, ids, ids) == Elected(s, c, ids, token);
    x := Append(y, x, s, s1, Elected(s, c, ids, token), timeout);
  }

  lemma AssertionEnds(s: System, c: string, ids: set<string>, token: string, timeout: nat)
    requires c in s.tables && c in s.controllers && s.controllers[c] == Controller(Some(Term(token, ids)), Idle)
    requires s.tables[c].peers == Knows(ids)
    ensures RoundEnd(BeginCycle(s, c, token, 0, timeout), c, ids, ids) == Asserted(s, c, ids, token)
  {
    HealthyKnows(ids, timeout);
    assert {} + ids == ids;
    assert (s.assertions + [Assertion(c, ids, {})])[|s.assertions| := Assertion(c, ids, ids)]
        == s.assertions + [Assertion(c, ids, ids)];
  }

  lemma Asserts(s: System, c: string, ids: set<string>, token: string, timeout: nat) returns (x: Path)
    requires Alone(s, c, ids) && s.controllers[c].term == Some(Term(token, ids))
    ensures IsPath(x, s, Asserted(s, c, ids, token), timeout) && Calm(x)
  {
    var s1 := BeginCycle(s, c, token, 0, timeout);
    var y := Begins(s, c, ids, token, timeout);
    x := Round(s1, c, ids, token, ids, timeout);
    AssertionEnds(s, c, ids, token, timeout);
    x := Append(y, x, s, s1, Asserted(s, c, ids, token), timeout);
  }

  lemma ElectedIsAlone(s: System, c: string, ids: set<string>, token: string)
    requires Alone(s, c, ids)
    ensures Alone(Elected(s, c, ids, token), c, ids)
  {
    HealthyKnows(ids, 0);
  }

  lemma AssertedAfterElected(s: System, c: string, ids: set<string>, token: string)
    ensures Asserted(Elected(s, c, ids, token), c, ids, token) == Asserted(s, c, ids, token)
  {
    var v := ViewOf(ids, c, token);
    assert Told(Told(s.tables, ids, v, ids), ids, v, ids) == Told(s.tables, ids, v, ids);
  }

  lemma AssertedIsPlain(s: System, c: string, ids: set<string>, token: string)
    requires Plain(s)
    ensures Plain(Asserted(s, c, ids, token))
  {
    HealthyKnows(ids, 0);
  }

  /** Election and assertion, one after the other. */
  lemma Leads(s: System, c: string, ids: set<string>, token: string, timeout: nat) returns (x: Path)
    requires Alone(s, c, ids) && s.controllers[c].term.None?
    ensures IsPath(x, s, Asserted(s, c, ids, token), timeout) && Calm(x)
  {
    x := Elects(s, c, ids, token, timeout);
    var s1 := Elected(s, c, ids, token);
    ElectedIsAlone(s, c, ids, token);
    var y := Asserts(s1, c, ids, token, timeout);
    AssertedAfterElected(s, c, ids, token);
    x := Append(x, y, s, s1, Asserted(s, c, ids, token), timeout);
  }

  lemma Passes(s: System, c: string, ids: set<string>, token: string, k: nat, timeout: nat) returns (x: Path)
    requires Plain(s) && c in s.controllers
    requires s.controllers[c] == Controller(Some(Term(token, ids)), Checking(ViewOf(ids, c, token), k))
    ensures IsPath(x, s, SetCycle(s, c, Idle).(passes := s.passes + [k]), timeout) && Calm(x)
  {
    PlainIsFresh(s, timeout);
    HealthyKnows(ids, timeout);
    x := OneStep(s, Check(c, 0), timeout);
  }

  /** Two controllers come to their ack checks, `c` before `d`. */
  lemma BothPass(s: System, c: string, ids: set<string>, token: string, d: string, ids': set<string>, token': string,
                 timeout: nat)
    returns (x: Path, s': System)
    requires Plain(s) && c != d && c in s.controllers && d in s.controllers && s.passes == []
    requires s.controllers[c] == Controller(Some(Term(token, ids)), Checking(ViewOf(ids, c, token), 1))
    requires s.controllers[d] == Controller(Some(Term(token', ids')), Checking(ViewOf(ids', d, token'), 0))
    ensures IsPath(x, s, s', timeout) && Calm(x) && s'.passes == [1, 0] && s'.assertions == s.assertions
  {
    x := Passes(s, c, ids, token, 1, timeout);
    var s1 := SetCycle(s, c, Idle).(passes := s.passes + [1]);
    var y := Passes(s1, d, ids', token', 0, timeout);
    s' := SetCycle(s1, d, Idle).(passes := s1.passes + [0]);
    x := Append(x, y, s, s1, s', timeout);
  }

  // ---------- the run ----------

  /** Three machines; the lowest is not known to the other two. */
  function Start(a: string, b: string, c: string): System {
    System(map[a := Table(Knows({a, b, c}), None), b := Table(Knows({b, c}), None), c := Table(Knows({b, c}), None)],
           map[a := Controller(None, Idle), b := Controller(None, Idle), c := Controller(None, Idle)], [], [], [])
  }

  ghost predicate Ascending(a: string, b: string, c: string) {
    StringOrder.Less(a, b) && StringOrder.Less(b, c)
  }

  lemma LowestOf(a: string, b: string, c: string)
    requires Ascending(a, b, c)
    ensures Lowest(a, {a, b, c}) && Lowest(b, {b, c}) && !StringOrder.LessEq(b, a) && a != c
    ensures |{b, c}| == 2 && |{a, b, c}| == 3 && b != "" && c != ""
  {
    StringOrder.Reflexive(a);
    StringOrder.Reflexive(b);
    StringOrder.Transitive(a, b, c);
    if StringOrder.LessEq(b, a) {
      StringOrder.Antisymmetric(a, b);
    }
    if a == c {
      StringOrder.Antisymmetric(b, c);
    }
  }

  lemma StartIsInitial(a: string, b: string, c: string)
    requires Ascending(a, b, c)
    ensures Initial(Start(a, b, c)) && |Start(a, b, c).tables| == 3
  {
    LowestOf(a, b, c);
    var s := Start(a, b, c);
    assert s.tables.Keys == {a, b, c};
    assert |s.tables| == |s.tables.Keys|;
  }

  lemma StartIsReady(a: string, b: string, c: string)
    requires Ascending(a, b, c)
    ensures Alone(Start(a, b, c), b, {b, c})
  {
    LowestOf(a, b, c);
    HealthyKnows({b, c}, 0);
    HealthyKnows({a, b, c}, 0);
  }

  lemma NextIsReady(a: string, b: string, c: string, token: string)
    requires Ascending(a, b, c)
    ensures Alone(Asserted(Start(a, b, c), b, {b, c}, token), a, {a, b, c})
  {
    LowestOf(a, b, c);
    HealthyKnows({b, c}, 0);
    HealthyKnows({a, b, c}, 0);
  }

  /** The state in which both have completed their assertions. */
  function BothAsserted(a: string, b: string, c: string, token: string, token': string): System {
    Asserted(Asserted(Start(a, b, c), b, {b, c}, token), a, {a, b, c}, token')
  }

  lemma BothLead(a: string, b: string, c: string, token: string, token': string, timeout: nat) returns (x: Path)
    requires Ascending(a, b, c)
    ensures IsPath(x, Start(a, b, c), BothAsserted(a, b, c, token, token'), timeout) && Calm(x)
  {
    StartIsReady(a, b, c);
    x := Leads(Start(a, b, c), b, {b, c}, token, timeout);
    NextIsReady(a, b, c, token);
    var s1 := Asserted(Start(a, b, c), b, {b, c}, token);
    var y := Leads(s1, a, {a, b, c}, token', timeout);
    x := Append(x, y, Start(a, b, c), s1, BothAsserted(a, b, c, token, token'), timeout);
  }

  lemma BothAreChecking(a: string, b: string, c: string, token: string, token': string)
    requires Ascending(a, b, c)
    ensures var s := BothAsserted(a, b, c, token, token');
      && Plain(s) && a in s.controllers && b in s.controllers && s.passes == []
      && s.controllers[a] == Controller(Some(Term(token', {a, b, c})), Checking(ViewOf({a, b, c}, a, token'), 1))
      && s.controllers[b] == Controller(Some(Term(token, {b, c})), Checking(ViewOf({b, c}, b, token), 0))
      && s.assertions == [Assertion(b, {b, c}, {b, c}), Assertion(a, {a, b, c}, {a, b, c})]
  {
    NextIsReady(a, b, c, token);
    HealthyKnows({a, b, c}, 0);
  }

  /** With q = 2: `b` completes its assertion, then `a` does and gets through the ack check, and only
    * then `b` comes to its own ack check and gets through.  So the ids of passes can go up, although
    * those of completed assertions never do. */
  lemma DeposedLeaderPassesLast(a: string, b: string, c: string, token: string, token': string, timeout: nat)
    returns (states: seq<System>, events: seq<Event>)
    requires Ascending(a, b, c)
    ensures IsGoodRun(states, events, timeout, 2)
    ensures var s := states[|events|];
      && s.passes == [1, 0] && |s.assertions| == 2 && s.assertions[1].id == a && s.assertions[0].id == b
      && 2 <= |s.assertions[0].view| && 2 <= |s.assertions[1].view| && !StringOrder.LessEq(b, a)
  {
    LowestOf(a, b, c);
    StartIsInitial(a, b, c);
    var x := BothLead(a, b, c, token, token', timeout);
    var s := BothAsserted(a, b, c, token, token');
    BothAreChecking(a, b, c, token, token');
    var y, s' := BothPass(s, a, {a, b, c}, token', b, {b, c}, token, timeout);
    x := Append(x, y, Start(a, b, c), s, s', timeout);
    PathIsRun(x, Start(a, b, c), s', timeout);
    states, events := x.states, x.events;
    LeadershipOrder.EarlyRestartsAreHarmless(states, events, timeout, 2);
  }

  // ---------- a run with restarts ----------

  /** Three machines that all know each other. */
  function Acquainted(a: string, b: string, c: string): System {
    System(map[a := Table(Knows({a, b, c}), None), b := Table(Knows({a, b, c}), None),
               c := Table(Knows({a, b, c}), None)],
           map[a := Controller(None, Idle), b := Controller(None, Idle), c := Controller(None, Idle)], [], [], [])
  }

  lemma AcquaintedIsInitial(a: string, b: string, c: string)
    requires Ascending(a, b, c)
    ensures Initial(Acquainted(a, b, c))
  {
    LowestOf(a, b, c);
    HealthyKnows({a, b, c}, 0);
  }

  lemma AcquaintedAreThree(a: string, b: string, c: string)
    requires Ascending(a, b, c)
    ensures |Acquainted(a, b, c).tables| == 3
  {
    LowestOf(a, b, c);
    var tables := Acquainted(a, b, c).tables;
    assert tables.Keys == {a, b, c};
    assert |tables| == |tables.Keys|;
  }

  lemma AcquaintedIsReady(a: string, b: string, c: string)
    requires Ascending(a, b, c)
    ensures Alone(Acquainted(a, b, c), a, {a, b, c})
  {
    LowestOf(a, b, c);
    HealthyKnows({a, b, c}, 0);
  }

  /** The state once `p` has restarted and heard of `ids` alone. */
  function Reborn(s: System, p: string, ids: set<string>): System {
    s.(tables := s.tables[p := Table(Knows(ids), None)], controllers := s.controllers[p := Controller(None, Idle)])
  }

  lemma Hears(s: System, p: string, ids: set<string>, id: string, timeout: nat) returns (x: Path)
    requires Plain(s) && p in s.tables && id in s.tables && id != ""
    ensures IsPath(x, Reborn(s, p, ids), Reborn(s, p, ids + {id}), timeout)
  {
    var s1 := Reborn(s, p, ids);
    HealthyKnows(ids, timeout);
    PlainIsFresh(s1, timeout);
    x := OneStep(s1, Ping(p, PeerInfo(id, []), 0), timeout);
    assert Knows(ids)[id := Peer(Some(PeerInfo(id, [])), 0)] == Knows(ids + {id});
    assert Next(s1, Ping(p, PeerInfo(id, []), 0), timeout).tables == Reborn(s, p, ids + {id}).tables;
  }

  lemma Restarts(s: System, p: string, b: string, c: string, timeout: nat) returns (x: Path)
    requires Plain(s) && p in s.tables && p in s.controllers && b in s.tables && c in s.tables && b != "" && c != ""
    ensures IsPath(x, s, Reborn(s, p, {b, c}), timeout)
  {
    PlainIsFresh(s, timeout);
    x := OneStep(s, Restart(p, 0), timeout);
    assert Knows({}) == map[];
    assert Next(s, Restart(p, 0), timeout) == Reborn(s, p, {});
    var y := Hears(s, p, {}, b, timeout);
    x := Append(x, y, s, Reborn(s, p, {}), Reborn(s, p, {} + {b}), timeout);
    y := Hears(s, p, {} + {b}, c, timeout);
    x := Append(x, y, s, Reborn(s, p, {} + {b}), Reborn(s, p, {} + {b} + {c}), timeout);
    assert {} + {b} + {c} == {b, c};
  }

  /** `c` has led `ids` and got through its check. */
  function Led(s: System, c: string, ids: set<string>, token: string): System {
    s.(tables := Told(s.tables, ids, ViewOf(ids, c, token), ids),
       controllers := s.controllers[c := Controller(Some(Term(token, ids)), Idle)],
       assertions := s.assertions + [Assertion(c, ids, ids)], completed := s.completed + [|s.assertions|],
       passes := s.passes + [|s.assertions|])
  }

  lemma LedIsPassed(s: System, c: string, ids: set<string>, token: string)
    ensures var s1 := Asserted(s, c, ids, token);
      SetCycle(s1, c, Idle).(passes := s1.passes + [|s.assertions|]) == Led(s, c, ids, token)
  {
  }

  lemma LeadsAndPasses(s: System, c: string, ids: set<string>, token: string, timeout: nat) returns (x: Path)
    requires Alone(s, c, ids) && s.controllers[c].term.None?
    ensures IsPath(x, s, Led(s, c, ids, token), timeout) && Plain(Led(s, c, ids, token))
  {
    x := Leads(s, c, ids, token, timeout);
    var s1 := Asserted(s, c, ids, token);
    AssertedIsPlain(s, c, ids, token);
    var y := Passes(s1, c, ids, token, |s.assertions|, timeout);
    LedIsPassed(s, c, ids, token);
    x := Append(x, y, s, s1, Led(s, c, ids, token), timeout);
  }

  lemma RebornIsPlain(s: System, p: string, ids: set<string>)
    requires Plain(s)
    ensures Plain(Reborn(s, p, ids))
  {
    HealthyKnows(ids, 0);
  }

  lemma BothRestart(s: System, b: string, c: string, timeout: nat) returns (x: Path)
    requires Plain(s) && {b, c} <= s.tables.Keys && {b, c} <= s.controllers.Keys && b != "" && c != ""
    ensures IsPath(x, s, Reborn(Reborn(s, b, {b, c}), c, {b, c}), timeout)
  {
    x := Restarts(s, b, b, c, timeout);
    var s1 := Reborn(s, b, {b, c});
    RebornIsPlain(s, b, {b, c});
    var y := Restarts(s1, c, b, c, timeout);
    x := Append(x, y, s, s1, Reborn(s1, c, {b, c}), timeout);
  }

  /** `a` has led all three; then `b` and `c` have restarted. */
  function AfterRestarts(a: string, b: string, c: string, token: string): System {
    Reborn(Reborn(Led(Acquainted(a, b, c), a, {a, b, c}, token), b, {b, c}), c, {b, c})
  }

  lemma BothAlone(s: System, b: string, c: string)
    requires Plain(s) && {b, c} <= s.tables.Keys && {b, c} <= s.controllers.Keys && b != c && Lowest(b, {b, c})
    ensures var s' := Reborn(Reborn(s, b, {b, c}), c, {b, c}); Alone(s', b, {b, c}) && s'.controllers[b].term.None?
  {
    RebornIsPlain(s, b, {b, c});
    RebornIsPlain(Reborn(s, b, {b, c}), c, {b, c});
    HealthyKnows({b, c}, 0);
  }

  lemma LedKeeps(s: System, c: string, ids: set<string>, token: string)
    requires Plain(s) && c in s.controllers
    ensures var s' := Led(s, c, ids, token);
      Plain(s') && s'.tables.Keys == s.tables.Keys && s'.controllers.Keys == s.controllers.Keys
  {
    HealthyKnows(ids, 0);
  }

  lemma FirstLed(a: string, b: string, c: string, token: string)
    requires Ascending(a, b, c)
    ensures var s := Led(Acquainted(a, b, c), a, {a, b, c}, token);
      Plain(s) && s.tables.Keys == {a, b, c} && s.controllers.Keys == {a, b, c}
  {
    AcquaintedIsReady(a, b, c);
    LedKeeps(Acquainted(a, b, c), a, {a, b, c}, token);
  }

  lemma RestartedAreAlone(a: string, b: string, c: string, token: string)
    requires Ascending(a, b, c)
    ensures Alone(AfterRestarts(a, b, c, token), b, {b, c}) && AfterRestarts(a, b, c, token).controllers[b].term.None?
  {
    LowestOf(a, b, c);
    FirstLed(a, b, c, token);
    BothAlone(Led(Acquainted(a, b, c), a, {a, b, c}, token), b, c);
  }

  lemma LeadsThenRestarts(a: string, b: string, c: string, token: string, timeout: nat) returns (x: Path)
    requires Ascending(a, b, c)
    ensures IsPath(x, Acquainted(a, b, c), AfterRestarts(a, b, c, token), timeout)
  {
    LowestOf(a, b, c);
    AcquaintedIsReady(a, b, c);
    FirstLed(a, b, c, token);
    var s := Acquainted(a, b, c);
    var s1 := Led(s, a, {a, b, c}, token);
    x := LeadsAndPasses(s, a, {a, b, c}, token, timeout);
    var y := BothRestart(s1, b, c, timeout);
    x := Append(x, y, s, s1, AfterRestarts(a, b, c, token), timeout);
  }

  lemma LeadsRestartsLeads(a: string, b: string, c: string, token: string, token': string, timeout: nat)
    returns (x: Path)
    requires Ascending(a, b, c)
    ensures IsPath(x, Acquainted(a, b, c), Led(AfterRestarts(a, b, c, token), b, {b, c}, token'), timeout)
  {
    RestartedAreAlone(a, b, c, token);
    x := LeadsThenRestarts(a, b, c, token, timeout);
    var s := AfterRestarts(a, b, c, token);
    var y := LeadsAndPasses(s, b, {b, c}, token', timeout);
    x := Append(x, y, Acquainted(a, b, c), s, Led(s, b, {b, c}, token'), timeout);
  }

  lemma RecordsAfterRestarts(a: string, b: string, c: string, token: string, token': string)
    ensures var s := Led(AfterRestarts(a, b, c, token), b, {b, c}, token');
      && s.completed == [0, 1] && s.passes == [0, 1]
      && s.assertions == [Assertion(a, {a, b, c}, {a, b, c}), Assertion(b, {b, c}, {b, c})]
  {
  }

  /** With q = 2: `a` leads all three machines and gets through its check.  Then `b` and `c` restart,
    * hear of each other first, and `b` leads the two and gets through.  No entry was ever stale, and
    * the ids of completed assertions, and of passes, go up. */
  lemma RestartsLetLeadershipRise(a: string, b: string, c: string, token: string, token': string, timeout: nat)
    returns (states: seq<System>, events: seq<Event>)
    requires Ascending(a, b, c)
    ensures IsRun(states, events, timeout) && |states[0].tables| < 2 * 2
    ensures var s := states[|events|];
      && s.completed == [0, 1] && s.passes == [0, 1] && |s.assertions| == 2
      && s.assertions[0].id == a && s.assertions[1].id == b
      && 2 <= |s.assertions[0].view| && 2 <= |s.assertions[1].view| && !StringOrder.LessEq(b, a)
  {
    LowestOf(a, b, c);
    AcquaintedIsInitial(a, b, c);
    AcquaintedAreThree(a, b, c);
    var x := LeadsRestartsLeads(a, b, c, token, token', timeout);
    RecordsAfterRestarts(a, b, c, token, token');
    PathIsRun(x, Acquainted(a, b, c), Led(AfterRestarts(a, b, c, token), b, {b, c}, token'), timeout);
    states, events := x.states, x.events;
  }
}
