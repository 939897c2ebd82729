/** Weak leader election among any number of controllers, as a step system.
  *
  * Every machine gossips, and runs a controller whose cycles interleave with those of the others in
  * any way: one step is one ping, the start of one cycle, one LeaderNotification request, one ack
  * check, or the restart of one daemon.  A request may fail before or after it took effect.
  */
module Leadership {
  import opened Common
  import opened Gossip
  import StringOrder

  /** History: one run of AssertLeadership by `id`, and the peers that have accepted it so far. */
  datatype Assertion = Assertion(id: string, view: set<string>, accepted: set<string>)

  datatype Cycle =
    | Idle
    | Bidding(view: View, pending: set<string>)
    | Asserting(view: View, pending: set<string>, k: nat)
    | Checking(view: View, k: nat)

  datatype Term = Term(token: string, acked: set<string>)

  datatype Controller = Controller(term: Option<Term>, cycle: Cycle)

  /** `completed` lists the assertions that every peer of their view accepted, in the order of the
    * last acceptance; `passes` those among them that also got through the ack check. */
  datatype System = System(tables: map<string, Table>, controllers: map<string, Controller>,
                           assertions: seq<Assertion>, completed: seq<nat>, passes: seq<nat>)

  datatype Event =
    | Ping(to: string, info: PeerInfo, now: int)
    | Begin(c: string, token: string, now: int)
    | Notify(c: string, p: string, now: int)
    | Lost(c: string, p: string, now: int)
    | Check(c: string, now: int)
    | Abort(c: string, now: int)
    | Restart(p: string, now: int)

  predicate Lowest(id: string, ids: set<string>) {
    id in ids && forall x | x in ids :: StringOrder.LessEq(id, x)
  }

  predicate Enabled(s: System, e: Event, timeout: nat) {
    match e
    case Ping(to, info, _) => to in s.tables && info.id in s.tables && info.id != ""
    case Begin(c, _, now) =>
      && c in s.tables && c in s.controllers && s.controllers[c].cycle.Idle?
      && Lowest(c, Healthy(s.tables[c].peers, now, timeout).Keys)
    case Notify(c, p, _) => InFlight(s, c, p)
    case Lost(c, p, _) => InFlight(s, c, p)
    case Check(c, _) => c in s.controllers && s.controllers[c].cycle.Checking?
    case Abort(c, _) => c in s.controllers
    case Restart(p, _) => p in s.tables && p in s.controllers
  }

  predicate InFlight(s: System, c: string, p: string) {
    && c in s.tables && p in s.tables && c in s.controllers
    && (s.controllers[c].cycle.Bidding? || s.controllers[c].cycle.Asserting?) && p in s.controllers[c].cycle.pending
    && (s.controllers[c].cycle.Asserting? ==> s.controllers[c].cycle.k < |s.assertions|)
  }

  function SetCycle(s: System, c: string, cycle: Cycle): System
    requires c in s.controllers
  {
    s.(controllers := s.controllers[c := s.controllers[c].(cycle := cycle)])
  }

  /** The start of a cycle in which `c` sees itself as the lowest peer: BecomeLeader without a term,
    * AssertLeadership with one. */
  function BeginCycle(s: System, c: string, token: string, now: int, timeout: nat): System
    requires c in s.tables && c in s.controllers
  {
    var healthy := Healthy(s.tables[c].peers, now, timeout);
    match s.controllers[c].term
    case None => SetCycle(s, c, Bidding(View(healthy, c, token), healthy.Keys))
    case Some(term) =>
      SetCycle(s.(assertions := s.assertions + [Assertion(c, healthy.Keys, {})]), c,
               Asserting(View(healthy, c, term.token), healthy.Keys, |s.assertions|))
  }

  /** Peer `p` has accepted the notification of `c`. */
  function Acked(s: System, c: string, p: string): System
    requires c in s.controllers && (s.controllers[c].cycle.Bidding? || s.controllers[c].cycle.Asserting?)
    requires s.controllers[c].cycle.Asserting? ==> s.controllers[c].cycle.k < |s.assertions|
  {
    var ctl := s.controllers[c];
    var pending := ctl.cycle.pending - {p};
    match ctl.cycle
    case Bidding(view, _) =>
      if pending != {} then SetCycle(s, c, Bidding(view, pending))
      else s.(controllers := s.controllers[c := Controller(Some(Term(view.token, view.healthy.Keys)), Idle)])
    case Asserting(view, _, k) =>
      var a := s.assertions[k];
      var s' := s.(assertions := s.assertions[k := a.(accepted := a.accepted + {p})]);
      if pending != {} then SetCycle(s', c, Asserting(view, pending, k))
      else SetCycle(s', c, Checking(view, k)).(completed := s.completed + [k])
  }

  /** The ack check: a leader whom some peer has not acked resigns. */
  function Checked(s: System, c: string): System
    requires c in s.controllers && s.controllers[c].cycle.Checking?
  {
    var ctl := s.controllers[c];
    if ctl.term.Some? && ctl.cycle.view.healthy.Keys <= ctl.term.value.acked
    then SetCycle(s, c, Idle).(passes := s.passes + [ctl.cycle.k])
    else s.(controllers := s.controllers[c := Controller(None, Idle)])
  }

  /** The answer of peer `p` has reached `c`. */
  function Answered(s: System, c: string, p: string, response: Response, now: int): System
    requires InFlight(s, c, p)
  {
    match response
    case Accepted => Acked(s, c, p)
    case Invalid => SetCycle(s, c, Idle)
    case Rejected(healthy) =>
      var mine := s.tables[c].(peers := Learn(s.tables[c].peers, healthy, now));
      SetCycle(s.(tables := s.tables[c := mine]), c, Idle)
  }

  /** The notification of `c` has been handled at peer `p`. */
  function Delivered(s: System, c: string, p: string, now: int, timeout: nat): System
    requires InFlight(s, c, p)
  {
    s.(tables := s.tables[p := Notified(s.tables[p], s.controllers[c].cycle.view, now, timeout).0])
  }

  function Next(s: System, e: Event, timeout: nat): System
    requires Enabled(s, e, timeout)
  {
    match e
    case Ping(to, info, now) => s.(tables := s.tables[to := Pinged(s.tables[to], info, now)])
    case Begin(c, token, now) => BeginCycle(s, c, token, now, timeout)
    case Notify(c, p, now) =>
      var response := Notified(s.tables[p], s.controllers[c].cycle.view, now, timeout).1;
      Answered(Delivered(s, c, p, now, timeout), c, p, response, now)
    case Lost(c, p, now) => SetCycle(Delivered(s, c, p, now, timeout), c, Idle)
    case Check(c, _) => Checked(s, c)
    case Abort(c, _) => SetCycle(s, c, Idle)
    case Restart(p, _) =>  // the daemon starts again, with nothing but what it will hear from now on
      s.(tables := s.tables[p := Table(map[], None)], controllers := s.controllers[p := Controller(None, Idle)])
  }

  /** Nothing has been asserted yet; peers are known in any way. */
  ghost predicate Initial(s: System) {
    && s.controllers.Keys == s.tables.Keys
    && (forall c | c in s.controllers :: s.controllers[c] == Controller(None, Idle))
    && (forall p | p in s.tables :: s.tables[p].peers.Keys <= s.tables.Keys)
    && s.assertions == [] && s.completed == [] && s.passes == []
  }

  /** No entry of any peer table is stale when the event happens. */
  ghost predicate AllFresh(s: System, now: int, timeout: nat) {
    forall p | p in s.tables :: Fresh(s.tables[p].peers, now, timeout)
  }

  ghost predicate IsRun(states: seq<System>, events: seq<Event>, timeout: nat) {
    && |states| == |events| + 1
    && Initial(states[0])
    && forall i | 0 <= i < |events| ::
         && AllFresh(states[i], events[i].now, timeout)
         && Enabled(states[i], events[i], timeout)
         && states[i + 1] == Next(states[i], events[i], timeout)
  }

  /** At least `q` peers back the view. */
  predicate Backed(view: set<string>, q: nat) {
    q <= |view|
  }

  /** The peer knows every peer of every assertion, backed by `q` peers, that it has accepted.  Only a
    * restart can make it forget. */
  ghost predicate Remembers(s: System, p: string, q: nat) {
    && p in s.tables
    && forall k | 0 <= k < |s.assertions| && p in s.assertions[k].accepted && Backed(s.assertions[k].view, q) ::
         s.assertions[k].view <= s.tables[p].peers.Keys
  }

  /** The event is the acceptance, by `p`, of an assertion backed by `q` peers. */
  ghost predicate Accepts(s: System, e: Event, timeout: nat, q: nat) {
    && e.Notify? && InFlight(s, e.c, e.p) && s.controllers[e.c].cycle.Asserting?
    && Backed(s.controllers[e.c].cycle.view.healthy.Keys, q)
    && Notified(s.tables[e.p], s.controllers[e.c].cycle.view, e.now, timeout).1.Accepted?
  }

  /** Whoever accepts such an assertion knows, once it has adopted the view, the peers it had agreed on
    * before. */
  ghost predicate AllRemember(states: seq<System>, events: seq<Event>, timeout: nat, q: nat)
    requires |states| == |events| + 1
  {
    forall i | 0 <= i < |events| && Accepts(states[i], events[i], timeout, q) ::
      Remembers(Delivered(states[i], events[i].c, events[i].p, events[i].now, timeout), events[i].p, q)
  }

  // ---------- what every step keeps ----------

  ghost predicate Sound(s: System, a: Assertion) {
    a.accepted <= a.view <= s.tables.Keys && Lowest(a.id, a.view)
  }

  /** Of two backed assertions with a common acceptance one saw all that the other saw. */
  ghost predicate Comparable(a: Assertion, b: Assertion, q: nat) {
    Backed(a.view, q) && Backed(b.view, q) ==> a.accepted !! b.accepted || a.view <= b.view || b.view <= a.view
  }

  ghost predicate CycleFits(s: System, c: string, cycle: Cycle) {
    && (cycle.Checking? ==> cycle.k in s.completed)
    && (cycle.Bidding? || cycle.Asserting? ==>
      && cycle.pending <= cycle.view.healthy.Keys <= s.tables.Keys
      && (cycle.Asserting? ==>
            && cycle.k < |s.assertions| && s.assertions[cycle.k].id == c
            && s.assertions[cycle.k].view == cycle.view.healthy.Keys
            && cycle.pending == s.assertions[cycle.k].view - s.assertions[cycle.k].accepted))
  }

  ghost predicate Complete(s: System, k: nat) {
    k < |s.assertions| && s.assertions[k].accepted == s.assertions[k].view
  }

  ghost predicate TablesFit(s: System) {
    && s.controllers.Keys == s.tables.Keys
    && forall p | p in s.tables :: s.tables[p].peers.Keys <= s.tables.Keys
  }

  predicate NoRepeats(s: seq<nat>) {
    forall i, j | 0 <= i < j < |s| :: s[i] != s[j]
  }

  ghost predicate AssertionsFit(s: System, q: nat) {
    && (forall k | 0 <= k < |s.assertions| :: Sound(s, s.assertions[k]))
    && (forall k, l | 0 <= k < |s.assertions| && 0 <= l < |s.assertions| ::
          Comparable(s.assertions[k], s.assertions[l], q))
  }

  ghost predicate RecordsFit(s: System) {
    && (forall i | 0 <= i < |s.completed| :: Complete(s, s.completed[i]))
    && NoRepeats(s.completed)
    && (forall k | k in s.passes :: k in s.completed)
  }

  ghost predicate CyclesFit(s: System) {
    forall c | c in s.controllers :: CycleFits(s, c, s.controllers[c].cycle)
  }

  ghost predicate Inv(s: System, q: nat) {
    TablesFit(s) && AssertionsFit(s, q) && RecordsFit(s) && CyclesFit(s)
  }

  function CompletedView(assertions: seq<Assertion>, completed: seq<nat>, i: nat): set<string>
    requires i < |completed|
  {
    if completed[i] < |assertions| then assertions[completed[i]].view else {}
  }

  /** If both are backed by `q` peers, the later view contains the earlier one. */
  predicate Widens(earlier: set<string>, later: set<string>, q: nat) {
    Backed(earlier, q) && Backed(later, q) ==> earlier <= later
  }

  /** Assertions completed with at least `q` peers have ever larger views. */
  ghost predicate ViewsGrow(assertions: seq<Assertion>, completed: seq<nat>, q: nat) {
    forall i, j | 0 <= i < j < |completed| ::
      Widens(CompletedView(assertions, completed, i), CompletedView(assertions, completed, j), q)
  }

  /** The invariant, and the part of the theorem that holds so far. */
  ghost predicate Holds(s: System, q: nat) {
    Inv(s, q) && ViewsGrow(s.assertions, s.completed, q)
  }

  /** Nothing was recorded, and the machines are the same. */
  predicate Unrecorded(s: System, s': System) {
    && s'.assertions == s.assertions && s'.completed == s.completed && s'.passes == s.passes
    && s'.tables.Keys == s.tables.Keys
  }

  /** Tables change and the cycles of some controllers end. */
  lemma TablesChange(s: System, s': System, q: nat)
    requires Inv(s, q) && TablesFit(s') && Unrecorded(s, s')
    requires forall c | c in s'.controllers :: s'.controllers[c].cycle in {Idle, s.controllers[c].cycle}
    ensures Inv(s', q)
  {
    SameAssertions(s, s', q);
    SameRecords(s, s');
    forall c | c in s'.controllers ensures CycleFits(s', c, s'.controllers[c].cycle) {
      assert CycleFits(s, c, s.controllers[c].cycle);
    }
  }

  lemma SameRecords(s: System, s': System)
    requires RecordsFit(s) && s'.completed == s.completed && s'.passes == s.passes
    requires forall k | 0 <= k < |s.assertions| && Complete(s, k) :: Complete(s', k)
    ensures RecordsFit(s')
  {
    forall i | 0 <= i < |s'.completed| ensures Complete(s', s'.completed[i]) {
      assert Complete(s, s.completed[i]);
    }
  }

  lemma SameAssertions(s: System, s': System, q: nat)
    requires AssertionsFit(s, q) && s'.tables.Keys == s.tables.Keys && s'.assertions == s.assertions
    ensures AssertionsFit(s', q)
  {
    forall k | 0 <= k < |s'.assertions| ensures Sound(s', s'.assertions[k]) {
      assert Sound(s, s.assertions[k]);
    }
  }

  // ---------- steps that record nothing ----------

  lemma PingKeeps(s: System, to: string, info: PeerInfo, now: int, timeout: nat, q: nat)
    requires Inv(s, q) && Enabled(s, Ping(to, info, now), timeout)
    ensures var s' := Next(s, Ping(to, info, now), timeout); Inv(s', q) && Unrecorded(s, s')
  {
    TablesChange(s, Next(s, Ping(to, info, now), timeout), q);
  }

  lemma AbortKeeps(s: System, c: string, q: nat)
    requires Inv(s, q) && c in s.controllers
    ensures Inv(SetCycle(s, c, Idle), q) && Unrecorded(s, SetCycle(s, c, Idle))
  {
    TablesChange(s, SetCycle(s, c, Idle), q);
  }

  lemma RestartKeeps(s: System, p: string, now: int, timeout: nat, q: nat)
    requires Inv(s, q) && Enabled(s, Restart(p, now), timeout)
    ensures var s' := Next(s, Restart(p, now), timeout); Inv(s', q) && Unrecorded(s, s')
  {
    TablesChange(s, Next(s, Restart(p, now), timeout), q);
  }

  /** The part of a notification that happens at the peer. */
  lemma DeliveryKeeps(s: System, c: string, p: string, now: int, timeout: nat, q: nat)
    requires Inv(s, q) && InFlight(s, c, p)
    ensures var s1 := Delivered(s, c, p, now, timeout);
      Inv(s1, q) && Unrecorded(s, s1) && InFlight(s1, c, p) && s1.controllers == s.controllers
  {
    assert CycleFits(s, c, s.controllers[c].cycle);
    TablesChange(s, Delivered(s, c, p, now, timeout), q);
  }

  lemma LostKeeps(s: System, c: string, p: string, now: int, timeout: nat, q: nat)
    requires Inv(s, q) && InFlight(s, c, p)
    ensures var s' := SetCycle(Delivered(s, c, p, now, timeout), c, Idle); Inv(s', q) && Unrecorded(s, s')
  {
    DeliveryKeeps(s, c, p, now, timeout, q);
    AbortKeeps(Delivered(s, c, p, now, timeout), c, q);
  }

  lemma RefusalKeeps(s: System, c: string, p: string, response: Response, now: int, q: nat)
    requires Inv(s, q) && InFlight(s, c, p) && !response.Accepted?
    requires response.Rejected? ==> response.healthy.Keys <= s.tables.Keys
    ensures var s' := Answered(s, c, p, response, now); Inv(s', q) && Unrecorded(s, s')
  {
    TablesChange(s, Answered(s, c, p, response, now), q);
  }

  // ---------- the start of a cycle and the ack check ----------

  lemma NewAssertionKeeps(s: System, a: Assertion, q: nat)
    requires AssertionsFit(s, q) && Sound(s, a) && a.accepted == {}
    ensures AssertionsFit(s.(assertions := s.assertions + [a]), q)
  {
    var s' := s.(assertions := s.assertions + [a]);
    forall k | 0 <= k < |s'.assertions| ensures Sound(s', s'.assertions[k]) {
      assert k < |s.assertions| ==> Sound(s, s.assertions[k]);
    }
  }

  lemma BeginAssertions(s: System, c: string, token: string, now: int, timeout: nat, q: nat)
    requires AssertionsFit(s, q) && TablesFit(s) && Enabled(s, Begin(c, token, now), timeout)
    ensures AssertionsFit(BeginCycle(s, c, token, now, timeout), q)
  {
    var s' := BeginCycle(s, c, token, now, timeout);
    var healthy := Healthy(s.tables[c].peers, now, timeout);
    assert healthy.Keys <= s.tables[c].peers.Keys;
    if s.controllers[c].term.Some? {
      NewAssertionKeeps(s, Assertion(c, healthy.Keys, {}), q);
      SameAssertions(s.(assertions := s'.assertions), s', q);
    } else {
      SameAssertions(s, s', q);
    }
  }

  lemma BeginCycles(s: System, c: string, token: string, now: int, timeout: nat)
    requires CyclesFit(s) && TablesFit(s) && Enabled(s, Begin(c, token, now), timeout)
    ensures CyclesFit(BeginCycle(s, c, token, now, timeout))
  {
    var s' := BeginCycle(s, c, token, now, timeout);
    assert Healthy(s.tables[c].peers, now, timeout).Keys <= s.tables[c].peers.Keys;
    forall d | d in s'.controllers ensures CycleFits(s', d, s'.controllers[d].cycle) {
      assert CycleFits(s, d, s.controllers[d].cycle);
    }
  }

  lemma BeginKeeps(s: System, c: string, token: string, now: int, timeout: nat, q: nat)
    requires Inv(s, q) && Enabled(s, Begin(c, token, now), timeout)
    ensures Inv(BeginCycle(s, c, token, now, timeout), q)
  {
    BeginAssertions(s, c, token, now, timeout, q);
    BeginCycles(s, c, token, now, timeout);
    SameRecords(s, BeginCycle(s, c, token, now, timeout));
  }

  /** One controller's cycle changes, along with at most its own assertion. */
  lemma OtherCyclesKept(s: System, s': System, c: string)
    requires CyclesFit(s) && c in s.controllers && c in s'.controllers && s'.tables == s.tables
    requires s'.controllers == s.controllers[c := s'.controllers[c]]
    requires CycleFits(s', c, s'.controllers[c].cycle)
    requires |s'.assertions| == |s.assertions| && s.completed <= s'.completed
    requires forall k | 0 <= k < |s.assertions| && s.assertions[k].id != c :: s'.assertions[k] == s.assertions[k]
    ensures CyclesFit(s')
  {
  }

  lemma CheckKeeps(s: System, c: string, q: nat)
    requires Inv(s, q) && c in s.controllers && s.controllers[c].cycle.Checking?
    ensures var s' := Checked(s, c);
      Inv(s', q) && s'.completed == s.completed && s'.assertions == s.assertions && s'.tables == s.tables
  {
    var s' := Checked(s, c);
    assert CycleFits(s, c, s.controllers[c].cycle);
    SameAssertions(s, s', q);
    OtherCyclesKept(s, s', c);
  }

  // ---------- acceptances ----------

  function Accept(s: System, k: nat, p: string): System
    requires k < |s.assertions|
  {
    s.(assertions := s.assertions[k := s.assertions[k].(accepted := s.assertions[k].accepted + {p})])
  }

  /** `p` knows exactly the view of assertion `k` and, if the assertion is backed, what it agreed on. */
  ghost predicate MayAccept(s: System, k: nat, p: string, q: nat) {
    && k < |s.assertions| && p in s.tables && p in s.assertions[k].view
    && s.tables[p].peers.Keys == s.assertions[k].view
    && (Backed(s.assertions[k].view, q) ==> Remembers(s, p, q))
  }

  /** A peer that remembers what it accepted, and now knows exactly the view, has accepted no view that
    * is not contained in it. */
  lemma AcceptKeeps(s: System, k: nat, p: string, q: nat)
    requires AssertionsFit(s, q) && MayAccept(s, k, p, q)
    ensures AssertionsFit(Accept(s, k, p), q)
  {
    var s' := Accept(s, k, p);
    forall l | 0 <= l < |s'.assertions| ensures Sound(s', s'.assertions[l]) {
      assert Sound(s, s.assertions[l]);
    }
    forall l, m | 0 <= l < |s'.assertions| && 0 <= m < |s'.assertions|
      ensures Comparable(s'.assertions[l], s'.assertions[m], q)
    {
      assert Comparable(s.assertions[l], s.assertions[m], q);
    }
  }

  /** The heart of the argument: two quorums share a peer, so the views are comparable, and the peer
    * that completes the later assertion rules out that its view is the smaller one. */
  lemma CompletionGrows(s: System, k: nat, p: string, i: nat, q: nat)
    requires AssertionsFit(s, q) && RecordsFit(s) && Complete(s, k) && i < |s.completed| && |s.tables| < 2 * q
    requires MayAccept(s, k, p, q)
    ensures Widens(CompletedView(s.assertions, s.completed, i), s.assertions[k].view, q)
  {
    var a, b := s.assertions[s.completed[i]], s.assertions[k];
    if Backed(a.view, q) && Backed(b.view, q) {
      assert Complete(s, s.completed[i]) && Sound(s, a) && Sound(s, b);
      var x := QuorumsMeet(s.tables.Keys, a.view, b.view, q);
      assert Comparable(a, b, q);
      if b.view <= a.view {
        assert p in a.accepted;
      }
    }
  }

  /** What an acknowledged bid records: nothing. */
  lemma BidAckedRecords(s: System, c: string, p: string)
    requires InFlight(s, c, p) && s.controllers[c].cycle.Bidding?
    ensures Unrecorded(s, Acked(s, c, p)) && Acked(s, c, p).tables == s.tables
  {
  }

  lemma BidAckedKeeps(s: System, c: string, p: string, q: nat)
    requires Inv(s, q) && InFlight(s, c, p) && s.controllers[c].cycle.Bidding?
    ensures Inv(Acked(s, c, p), q)
  {
    var s' := Acked(s, c, p);
    assert CycleFits(s, c, s.controllers[c].cycle);
    OtherCyclesKept(s, s', c);
    SameAssertions(s, s', q);
    SameRecords(s, s');
  }

  /** What an acknowledged assertion records. */
  lemma AssertionAckedRecords(s: System, c: string, p: string)
    requires InFlight(s, c, p) && s.controllers[c].cycle.Asserting?
    ensures var s', k := Acked(s, c, p), s.controllers[c].cycle.k;
      && s'.tables == s.tables && s'.assertions == Accept(s, k, p).assertions && s'.passes == s.passes
      && (|| s'.completed == s.completed
          || (s'.completed == s.completed + [k] && s.controllers[c].cycle.pending == {p}))
  {
  }

  lemma AcceptedStaysComplete(s: System, k: nat, p: string, l: nat)
    requires k < |s.assertions| && p in s.assertions[k].view && Complete(s, l)
    ensures Complete(Accept(s, k, p), l)
  {
  }

  /** An assertion is completed once: as long as a peer is pending it is not complete. */
  lemma AckedRecordsFit(s: System, c: string, p: string)
    requires RecordsFit(s) && InFlight(s, c, p) && s.controllers[c].cycle.Asserting?
    requires CycleFits(s, c, s.controllers[c].cycle) && Sound(s, s.assertions[s.controllers[c].cycle.k])
    ensures RecordsFit(Acked(s, c, p))
  {
    var k := s.controllers[c].cycle.k;
    var s' := Acked(s, c, p);
    assert s.controllers[c].cycle.pending == {p} ==> s.assertions[k].accepted + {p} == s.assertions[k].view;
    AssertionAckedRecords(s, c, p);
    forall i | 0 <= i < |s.completed| ensures Complete(s', s.completed[i]) && s.completed[i] != k {
      assert Complete(s, s.completed[i]);
      AcceptedStaysComplete(s, k, p, s.completed[i]);
    }
  }

  lemma AckedAssertionsFit(s: System, c: string, p: string, q: nat)
    requires AssertionsFit(s, q) && InFlight(s, c, p) && s.controllers[c].cycle.Asserting?
    requires MayAccept(s, s.controllers[c].cycle.k, p, q)
    ensures AssertionsFit(Acked(s, c, p), q)
  {
    var k := s.controllers[c].cycle.k;
    AcceptKeeps(s, k, p, q);
    AssertionAckedRecords(s, c, p);
    SameAssertions(Accept(s, k, p), Acked(s, c, p), q);
  }

  lemma AssertionAckedCycles(s: System, c: string, p: string)
    requires CyclesFit(s) && InFlight(s, c, p) && s.controllers[c].cycle.Asserting?
    ensures CyclesFit(Acked(s, c, p))
  {
  }

  lemma AckedTables(s: System, c: string, p: string)
    requires TablesFit(s) && InFlight(s, c, p)
    ensures TablesFit(Acked(s, c, p))
  {
  }

  lemma AssertionAckedKeeps(s: System, c: string, p: string, q: nat)
    requires Inv(s, q) && InFlight(s, c, p) && s.controllers[c].cycle.Asserting?
    requires MayAccept(s, s.controllers[c].cycle.k, p, q)
    ensures Inv(Acked(s, c, p), q)
  {
    assert CycleFits(s, c, s.controllers[c].cycle);
    AckedRecordsFit(s, c, p);
    AckedAssertionsFit(s, c, p, q);
    AssertionAckedCycles(s, c, p);
    AckedTables(s, c, p);
  }

  // ---------- completed views grow ----------

  lemma SameViews(before: seq<Assertion>, after: seq<Assertion>, completed: seq<nat>, q: nat)
    requires ViewsGrow(before, completed, q) && |before| <= |after|
    requires forall i | 0 <= i < |completed| :: completed[i] < |before|
    requires forall k | 0 <= k < |before| :: after[k].view == before[k].view
    ensures ViewsGrow(after, completed, q)
  {
    forall i, j | 0 <= i < j < |completed|
      ensures Widens(CompletedView(after, completed, i), CompletedView(after, completed, j), q)
    {
      assert Widens(CompletedView(before, completed, i), CompletedView(before, completed, j), q);
    }
  }

  lemma CompletedInRange(s: System)
    requires RecordsFit(s)
    ensures forall i | 0 <= i < |s.completed| :: s.completed[i] < |s.assertions|
  {
    forall i | 0 <= i < |s.completed| ensures s.completed[i] < |s.assertions| {
      assert Complete(s, s.completed[i]);
    }
  }

  lemma NewCompletionGrows(s: System, k: nat, p: string, q: nat)
    requires AssertionsFit(s, q) && RecordsFit(s) && ViewsGrow(s.assertions, s.completed, q) && Complete(s, k)
    requires |s.tables| < 2 * q && MayAccept(s, k, p, q)
    ensures ViewsGrow(s.assertions, s.completed + [k], q)
  {
    var completed := s.completed + [k];
    forall i, j | 0 <= i < j < |completed|
      ensures Widens(CompletedView(s.assertions, completed, i), CompletedView(s.assertions, completed, j), q)
    {
      assert CompletedView(s.assertions, completed, i) == CompletedView(s.assertions, s.completed, i);
      if j < |s.completed| {
        assert CompletedView(s.assertions, completed, j) == CompletedView(s.assertions, s.completed, j);
        assert Widens(CompletedView(s.assertions, s.completed, i), CompletedView(s.assertions, s.completed, j), q);
      } else {
        CompletionGrows(s, k, p, i, q);
      }
    }
  }

  /** What the acceptance leaves of the premises of the next lemma. */
  lemma AcceptedState(s: System, k: nat, p: string, q: nat)
    requires AssertionsFit(s, q) && RecordsFit(s) && ViewsGrow(s.assertions, s.completed, q) && MayAccept(s, k, p, q)
    ensures var s1 := Accept(s, k, p);
      && AssertionsFit(s1, q) && RecordsFit(s1) && ViewsGrow(s1.assertions, s1.completed, q) && MayAccept(s1, k, p, q)
  {
    var s1 := Accept(s, k, p);
    AcceptKeeps(s, k, p, q);
    forall l | 0 <= l < |s.assertions| && Complete(s, l) ensures Complete(s1, l) {
      AcceptedStaysComplete(s, k, p, l);
    }
    SameRecords(s, s1);
    CompletedInRange(s);
    SameViews(s.assertions, s1.assertions, s.completed, q);
  }

  lemma AssertionAckedGrows(s: System, c: string, p: string, q: nat)
    requires AssertionsFit(s, q) && RecordsFit(s) && ViewsGrow(s.assertions, s.completed, q) && |s.tables| < 2 * q
    requires InFlight(s, c, p) && s.controllers[c].cycle.Asserting? && CycleFits(s, c, s.controllers[c].cycle)
    requires MayAccept(s, s.controllers[c].cycle.k, p, q)
    ensures var s' := Acked(s, c, p); ViewsGrow(s'.assertions, s'.completed, q)
  {
    var k := s.controllers[c].cycle.k;
    AcceptedState(s, k, p, q);
    AssertionAckedRecords(s, c, p);
    if s.controllers[c].cycle.pending == {p} {
      assert Sound(s, s.assertions[k]);
      NewCompletionGrows(Accept(s, k, p), k, p, q);
    }
  }

  // ---------- whole steps ----------

  /** A peer that accepts an assertion does so with exactly the view. */
  lemma AcceptanceFits(s: System, c: string, p: string, now: int, timeout: nat, q: nat)
    requires Inv(s, q) && InFlight(s, c, p) && s.controllers[c].cycle.Asserting?
    requires Fresh(s.tables[p].peers, now, timeout)
    requires Notified(s.tables[p], s.controllers[c].cycle.view, now, timeout).1.Accepted?
    requires Backed(s.controllers[c].cycle.view.healthy.Keys, q) ==> Remembers(Delivered(s, c, p, now, timeout), p, q)
    ensures MayAccept(Delivered(s, c, p, now, timeout), s.controllers[c].cycle.k, p, q)
  {
    AcceptanceMeansAgreement(s.tables[p], s.controllers[c].cycle.view, now, timeout);
    assert CycleFits(s, c, s.controllers[c].cycle);
  }

  lemma AssertionAcceptedKeeps(s: System, c: string, p: string, q: nat)
    requires Holds(s, q) && InFlight(s, c, p) && |s.tables| < 2 * q
    requires s.controllers[c].cycle.Asserting? && MayAccept(s, s.controllers[c].cycle.k, p, q)
    ensures Holds(Acked(s, c, p), q) && Acked(s, c, p).tables == s.tables
  {
    assert CycleFits(s, c, s.controllers[c].cycle);
    AssertionAckedKeeps(s, c, p, q);
    AssertionAckedGrows(s, c, p, q);
    AssertionAckedRecords(s, c, p);
  }

  lemma BidAcceptedKeeps(s: System, c: string, p: string, q: nat)
    requires Holds(s, q) && InFlight(s, c, p) && s.controllers[c].cycle.Bidding?
    ensures Holds(Acked(s, c, p), q) && Acked(s, c, p).tables == s.tables
  {
    BidAckedKeeps(s, c, p, q);
    BidAckedRecords(s, c, p);
  }

  lemma UnrecordedHolds(s: System, s': System, q: nat)
    requires Holds(s, q) && Inv(s', q) && Unrecorded(s, s')
    ensures Holds(s', q)
  {
  }

  /** The notification is accepted. */
  lemma AcceptedKeeps(s: System, c: string, p: string, now: int, timeout: nat, q: nat)
    requires Holds(s, q) && InFlight(s, c, p) && |s.tables| < 2 * q && Fresh(s.tables[p].peers, now, timeout)
    requires Notified(s.tables[p], s.controllers[c].cycle.view, now, timeout).1.Accepted?
    requires Accepts(s, Notify(c, p, now), timeout, q) ==> Remembers(Delivered(s, c, p, now, timeout), p, q)
    ensures var s' := Acked(Delivered(s, c, p, now, timeout), c, p); Holds(s', q) && s'.tables.Keys == s.tables.Keys
  {
    var s1 := Delivered(s, c, p, now, timeout);
    DeliveryKeeps(s, c, p, now, timeout, q);
    UnrecordedHolds(s, s1, q);
    if s.controllers[c].cycle.Asserting? {
      AcceptanceFits(s, c, p, now, timeout, q);
      AssertionAcceptedKeeps(s1, c, p, q);
    } else {
      BidAcceptedKeeps(s1, c, p, q);
    }
  }

  /** The notification is refused. */
  lemma RefusedKeeps(s: System, c: string, p: string, now: int, timeout: nat, q: nat)
    requires Holds(s, q) && InFlight(s, c, p)
    requires !Notified(s.tables[p], s.controllers[c].cycle.view, now, timeout).1.Accepted?
    ensures var response := Notified(s.tables[p], s.controllers[c].cycle.view, now, timeout).1;
      var s' := Answered(Delivered(s, c, p, now, timeout), c, p, response, now);
      Holds(s', q) && s'.tables.Keys == s.tables.Keys
  {
    var s1 := Delivered(s, c, p, now, timeout);
    var response := Notified(s.tables[p], s.controllers[c].cycle.view, now, timeout).1;
    DeliveryKeeps(s, c, p, now, timeout, q);
    UnrecordedHolds(s, s1, q);
    assert response.Rejected? ==> response.healthy.Keys <= s1.tables[p].peers.Keys;
    RefusalKeeps(s1, c, p, response, now, q);
    UnrecordedHolds(s1, Answered(s1, c, p, response, now), q);
  }

  lemma NotifyKeeps(s: System, c: string, p: string, now: int, timeout: nat, q: nat)
    requires Holds(s, q) && InFlight(s, c, p) && |s.tables| < 2 * q && Fresh(s.tables[p].peers, now, timeout)
    requires Accepts(s, Notify(c, p, now), timeout, q) ==> Remembers(Delivered(s, c, p, now, timeout), p, q)
    ensures var s' := Next(s, Notify(c, p, now), timeout); Holds(s', q) && s'.tables.Keys == s.tables.Keys
  {
    if Notified(s.tables[p], s.controllers[c].cycle.view, now, timeout).1.Accepted? {
      AcceptedKeeps(s, c, p, now, timeout, q);
    } else {
      RefusedKeeps(s, c, p, now, timeout, q);
    }
  }

  lemma BeginHolds(s: System, c: string, token: string, now: int, timeout: nat, q: nat)
    requires Holds(s, q) && Enabled(s, Begin(c, token, now), timeout)
    ensures Holds(BeginCycle(s, c, token, now, timeout), q)
  {
    BeginKeeps(s, c, token, now, timeout, q);
    CompletedInRange(s);
    SameViews(s.assertions, BeginCycle(s, c, token, now, timeout).assertions, s.completed, q);
  }

  lemma QuietStepKeeps(s: System, e: Event, timeout: nat, q: nat)
    requires Holds(s, q) && Enabled(s, e, timeout) && !e.Notify?
    ensures var s' := Next(s, e, timeout); Holds(s', q) && s'.tables.Keys == s.tables.Keys
  {
    match e
    case Ping(to, info, now) =>
      PingKeeps(s, to, info, now, timeout, q);
    case Begin(c, token, now) =>
      BeginHolds(s, c, token, now, timeout, q);
    case Lost(c, p, now) =>
      LostKeeps(s, c, p, now, timeout, q);
    case Check(c, now) =>
      CheckKeeps(s, c, q);
    case Abort(c, now) =>
      AbortKeeps(s, c, q);
    case Restart(p, now) =>
      RestartKeeps(s, p, now, timeout, q);
  }

  lemma StepKeeps(s: System, e: Event, timeout: nat, q: nat)
    requires Holds(s, q) && Enabled(s, e, timeout) && |s.tables| < 2 * q && AllFresh(s, e.now, timeout)
    requires Accepts(s, e, timeout, q) ==> Remembers(Delivered(s, e.c, e.p, e.now, timeout), e.p, q)
    ensures var s' := Next(s, e, timeout); Holds(s', q) && s'.tables.Keys == s.tables.Keys
  {
    if e.Notify? {
      NotifyKeeps(s, e.c, e.p, e.now, timeout, q);
    } else {
      QuietStepKeeps(s, e, timeout, q);
    }
  }

  /** A run that meets the conditions of the theorems. */
  ghost predicate IsGoodRun(states: seq<System>, events: seq<Event>, timeout: nat, q: nat) {
    IsRun(states, events, timeout) && AllRemember(states, events, timeout, q) && |states[0].tables| < 2 * q
  }

  lemma InitialHolds(s: System, q: nat)
    requires Initial(s)
    ensures Holds(s, q)
  {
  }

  lemma {:induction false} RunKeeps(states: seq<System>, events: seq<Event>, timeout: nat, q: nat, n: nat)
    requires IsGoodRun(states, events, timeout, q) && n < |states|
    ensures Holds(states[n], q) && states[n].tables.Keys == states[0].tables.Keys
  {
    if n == 0 {
      InitialHolds(states[0], q);
    } else {
      RunKeeps(states, events, timeout, q, n - 1);
      var s, e := states[n - 1], events[n - 1];
      assert |s.tables| == |s.tables.Keys| == |states[0].tables.Keys|;
      StepKeeps(s, e, timeout, q);
    }
  }

  lemma SoundIds(s: System, i: nat, j: nat, q: nat)
    requires Holds(s, q) && i < j < |s.completed|
    ensures s.completed[i] < |s.assertions| && s.completed[j] < |s.assertions|
    ensures var earlier, later := s.assertions[s.completed[i]], s.assertions[s.completed[j]];
      Backed(earlier.view, q) && Backed(later.view, q) ==>
        StringOrder.LessEq(later.id, earlier.id) && earlier.view <= later.view
  {
    assert Complete(s, s.completed[i]) && Complete(s, s.completed[j]);
    assert Widens(CompletedView(s.assertions, s.completed, i), CompletedView(s.assertions, s.completed, j), q);
    assert Sound(s, s.assertions[s.completed[i]]) && Sound(s, s.assertions[s.completed[j]]);
  }

  /** With fewer than `2 * q` machines, no stale entry, and no peer that accepts an assertion backed by
    * `q` peers without knowing, once it has adopted the view, whom it agreed on before: leadership only
    * moves down.  Of any two assertions completed with at least `q` peers, the one completed later has
    * the lower id (or the same), and saw at least the same peers. */
  lemma LeadershipOnlyMovesDown(states: seq<System>, events: seq<Event>, timeout: nat, q: nat, n: nat, i: nat, j: nat)
    requires IsGoodRun(states, events, timeout, q) && n < |states| && i < j < |states[n].completed|
    ensures var s := states[n]; s.completed[i] < |s.assertions| && s.completed[j] < |s.assertions|
    ensures var s := states[n];
      var earlier, later := s.assertions[s.completed[i]], s.assertions[s.completed[j]];
      Backed(earlier.view, q) && Backed(later.view, q) ==>
        StringOrder.LessEq(later.id, earlier.id) && earlier.view <= later.view
  {
    RunKeeps(states, events, timeout, q, n);
    SoundIds(states[n], i, j, q);
  }
}
