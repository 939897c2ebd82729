/** What restarts do to leadership, and the order in which controllers get through the ack check. */
module LeadershipOrder {
  import opened Common
  import opened Gossip
  import opened Leadership
  import StringOrder

  // ---------- whom a peer remembers ----------

  /** The view contains every view, backed by `q` peers, that the peer has accepted. */
  ghost predicate ContainsAccepted(s: System, p: string, view: set<string>, q: nat) {
    forall k | 0 <= k < |s.assertions| && p in s.assertions[k].accepted && Backed(s.assertions[k].view, q) ::
      s.assertions[k].view <= view
  }

  /** A view that contains what the peer agreed on teaches it that, whatever its table was. */
  lemma ViewTeaches(s: System, c: string, p: string, now: int, timeout: nat, q: nat)
    requires InFlight(s, c, p) && ContainsAccepted(s, p, s.controllers[c].cycle.view.healthy.Keys, q)
    ensures Remembers(Delivered(s, c, p, now, timeout), p, q)
  {
    var s1 := Delivered(s, c, p, now, timeout);
    assert s.controllers[c].cycle.view.healthy.Keys <= s1.tables[p].peers.Keys;
  }

  /** So, of a peer that accepts, the condition asks exactly that the view contains what it agreed on. */
  lemma RemembersExactly(s: System, c: string, p: string, now: int, timeout: nat, q: nat)
    requires InFlight(s, c, p) && Fresh(s.tables[p].peers, now, timeout)
    requires Notified(s.tables[p], s.controllers[c].cycle.view, now, timeout).1.Accepted?
    ensures Remembers(Delivered(s, c, p, now, timeout), p, q) <==>
            ContainsAccepted(s, p, s.controllers[c].cycle.view.healthy.Keys, q)
  {
    AcceptanceMeansAgreement(s.tables[p], s.controllers[c].cycle.view, now, timeout);
    if ContainsAccepted(s, p, s.controllers[c].cycle.view.healthy.Keys, q) {
      ViewTeaches(s, c, p, now, timeout, q);
    }
  }

  /** The condition of the theorems, over a whole run and without mention of any table: nobody accepts an
    * assertion backed by `q` peers whose view lacks a peer of such an assertion it accepted before. */
  lemma AllRememberExactly(states: seq<System>, events: seq<Event>, timeout: nat, q: nat)
    requires IsRun(states, events, timeout)
    ensures AllRemember(states, events, timeout, q) <==>
      forall i | 0 <= i < |events| && Accepts(states[i], events[i], timeout, q) ::
        ContainsAccepted(states[i], events[i].p, states[i].controllers[events[i].c].cycle.view.healthy.Keys, q)
  {
    forall i | 0 <= i < |events| && Accepts(states[i], events[i], timeout, q)
      ensures Remembers(Delivered(states[i], events[i].c, events[i].p, events[i].now, timeout), events[i].p, q) <==>
        ContainsAccepted(states[i], events[i].p, states[i].controllers[events[i].c].cycle.view.healthy.Keys, q)
    {
      assert AllFresh(states[i], events[i].now, timeout);
      RemembersExactly(states[i], events[i].c, events[i].p, events[i].now, timeout, q);
    }
  }

  /** The ordinary restart: the peer has an empty table, accepts at once a view that contains what it had
    * agreed on, and meets the condition. */
  lemma RestartedPeerIsRetaught(s: System, c: string, p: string, now: int, timeout: nat, q: nat)
    requires p != c && InFlight(s, c, p) && Enabled(s, Restart(p, now), timeout)
    requires s.controllers[c].cycle.view.healthy != map[]
    requires ContainsAccepted(s, p, s.controllers[c].cycle.view.healthy.Keys, q)
    ensures var s' := Next(s, Restart(p, now), timeout);
      && s'.tables[p].peers == map[] && InFlight(s', c, p)
      && Notified(s'.tables[p], s'.controllers[c].cycle.view, now, timeout).1.Accepted?
      && Remembers(Delivered(s', c, p, now, timeout), p, q)
  {
    var s' := Next(s, Restart(p, now), timeout);
    assert Fresh(s'.tables[p].peers, now, timeout);
    AcceptanceMeansAgreement(s'.tables[p], s'.controllers[c].cycle.view, now, timeout);
    ViewTeaches(s', c, p, now, timeout, q);
  }

  // ---------- early restarts ----------

  /** A machine restarts only before it has accepted any assertion backed by `q` peers. */
  ghost predicate RestartsAreEarly(states: seq<System>, events: seq<Event>, q: nat)
    requires |states| == |events| + 1
  {
    forall i | 0 <= i < |events| && events[i].Restart? :: AcceptedNothing(states[i], events[i].p, q)
  }

  ghost predicate AcceptedNothing(s: System, p: string, q: nat) {
    forall k | 0 <= k < |s.assertions| && Backed(s.assertions[k].view, q) :: p !in s.assertions[k].accepted
  }

  ghost predicate EveryoneRemembers(s: System, q: nat) {
    forall p | p in s.tables :: Remembers(s, p, q)
  }

  /** Assertions gain no acceptance, and whoever has accepted one forgets nobody. */
  lemma NothingForgotten(s: System, s': System, q: nat)
    requires EveryoneRemembers(s, q) && s'.tables.Keys == s.tables.Keys && |s.assertions| <= |s'.assertions|
    requires forall k | 0 <= k < |s'.assertions| ::
      if k < |s.assertions| then s'.assertions[k] == s.assertions[k] else s'.assertions[k].accepted == {}
    requires forall p | p in s.tables :: AcceptedNothing(s, p, q) || s.tables[p].peers.Keys <= s'.tables[p].peers.Keys
    ensures EveryoneRemembers(s', q)
  {
    forall p | p in s'.tables ensures Remembers(s', p, q) {
      assert Remembers(s, p, q);
    }
  }

  lemma AcceptRemembered(s: System, k: nat, p: string, q: nat)
    requires EveryoneRemembers(s, q) && k < |s.assertions| && p in s.tables
    requires s.assertions[k].view <= s.tables[p].peers.Keys
    ensures EveryoneRemembers(Accept(s, k, p), q)
  {
    forall r | r in s.tables ensures Remembers(Accept(s, k, p), r, q) {
      assert Remembers(s, r, q);
    }
  }

  lemma SameRemembered(s: System, s': System, q: nat)
    requires EveryoneRemembers(s, q) && s'.tables == s.tables && s'.assertions == s.assertions
    ensures EveryoneRemembers(s', q)
  {
    forall p | p in s'.tables ensures Remembers(s', p, q) {
      assert Remembers(s, p, q);
    }
  }

  lemma AckRemembered(s: System, c: string, p: string, q: nat)
    requires EveryoneRemembers(s, q) && InFlight(s, c, p) && CycleFits(s, c, s.controllers[c].cycle)
    requires s.controllers[c].cycle.view.healthy.Keys <= s.tables[p].peers.Keys
    ensures EveryoneRemembers(Acked(s, c, p), q)
  {
    if s.controllers[c].cycle.Asserting? {
      AcceptRemembered(s, s.controllers[c].cycle.k, p, q);
      AssertionAckedRecords(s, c, p);
      SameRemembered(Accept(s, s.controllers[c].cycle.k, p), Acked(s, c, p), q);
    } else {
      BidAckedRecords(s, c, p);
      SameRemembered(s, Acked(s, c, p), q);
    }
  }

  lemma NotifyRemembered(s: System, c: string, p: string, now: int, timeout: nat, q: nat)
    requires EveryoneRemembers(s, q) && InFlight(s, c, p) && CycleFits(s, c, s.controllers[c].cycle)
    ensures EveryoneRemembers(Next(s, Notify(c, p, now), timeout), q)
  {
    var s1 := Delivered(s, c, p, now, timeout);
    var response := Notified(s.tables[p], s.controllers[c].cycle.view, now, timeout).1;
    NothingForgotten(s, s1, q);
    if response.Accepted? {
      AckRemembered(s1, c, p, q);
    } else {
      NothingForgotten(s1, Answered(s1, c, p, response, now), q);
    }
  }

  lemma StepRemembered(s: System, e: Event, timeout: nat, q: nat)
    requires EveryoneRemembers(s, q) && CyclesFit(s) && Enabled(s, e, timeout)
    requires e.Restart? ==> AcceptedNothing(s, e.p, q)
    ensures EveryoneRemembers(Next(s, e, timeout), q)
  {
    match e
    case Notify(c, p, now) =>
      assert CycleFits(s, c, s.controllers[c].cycle);
      NotifyRemembered(s, c, p, now, timeout, q);
    case Begin(c, token, now) =>
      NothingForgotten(s, BeginCycle(s, c, token, now, timeout), q);
    case Check(c, _) =>
      SameRemembered(s, Checked(s, c), q);
    case _ =>
      NothingForgotten(s, Next(s, e, timeout), q);
  }

  /** Cycles fit in every run, whatever is remembered: no assertion is backed by more peers than there
    * are machines. */
  lemma {:induction false} RunCycles(states: seq<System>, events: seq<Event>, timeout: nat, n: nat)
    requires IsRun(states, events, timeout) && n < |states|
    ensures Holds(states[n], |states[0].tables| + 1) && states[n].tables.Keys == states[0].tables.Keys
  {
    var q := |states[0].tables| + 1;
    if n == 0 {
      InitialHolds(states[0], q);
    } else {
      RunCycles(states, events, timeout, n - 1);
      var s, e := states[n - 1], events[n - 1];
      assert |s.tables| == |s.tables.Keys| == |states[0].tables.Keys|;
      NobodyIsBacked(s, e, timeout);
      StepKeeps(s, e, timeout, q);
    }
  }

  lemma RunCyclesFit(states: seq<System>, events: seq<Event>, timeout: nat, n: nat)
    requires IsRun(states, events, timeout) && n < |states|
    ensures CyclesFit(states[n])
  {
    RunCycles(states, events, timeout, n);
  }

  lemma NobodyIsBacked(s: System, e: Event, timeout: nat)
    requires CyclesFit(s)
    ensures !Accepts(s, e, timeout, |s.tables| + 1)
  {
    if Accepts(s, e, timeout, |s.tables| + 1) {
      assert |s.tables| == |s.tables.Keys|;
      var cycle := s.controllers[e.c].cycle;
      assert CycleFits(s, e.c, cycle);
      SubsetSize(cycle.view.healthy.Keys, s.tables.Keys);
    }
  }

  lemma {:induction false} EarlyRestartsForgetNobody(states: seq<System>, events: seq<Event>, timeout: nat, q: nat,
                                                     n: nat)
    requires IsRun(states, events, timeout) && RestartsAreEarly(states, events, q) && n < |states|
    ensures EveryoneRemembers(states[n], q)
  {
    if n > 0 {
      EarlyRestartsForgetNobody(states, events, timeout, q, n - 1);
      RunCyclesFit(states, events, timeout, n - 1);
      var s, e := states[n - 1], events[n - 1];
      assert e.Restart? ==> AcceptedNothing(s, e.p, q);
      StepRemembered(s, e, timeout, q);
    }
  }

  /** Runs without restarts, or with early ones alone, meet the condition of the theorems. */
  lemma EarlyRestartsAreHarmless(states: seq<System>, events: seq<Event>, timeout: nat, q: nat)
    requires IsRun(states, events, timeout) && RestartsAreEarly(states, events, q)
    ensures AllRemember(states, events, timeout, q)
  {
    forall i | 0 <= i < |events| && Accepts(states[i], events[i], timeout, q)
      ensures Remembers(Delivered(states[i], events[i].c, events[i].p, events[i].now, timeout), events[i].p, q)
    {
      EarlyRestartsForgetNobody(states, events, timeout, q, i);
      assert Remembers(states[i], events[i].p, q);
    }
  }

  // ---------- the order of passes ----------

  /** Assertion `k` is backed by at least `q` peers. */
  predicate BackedAt(s: System, k: nat, q: nat) {
    k < |s.assertions| && Backed(s.assertions[k].view, q)
  }

  /** Exactly when ids go down from one pass to a later one: when the assertions were completed in that
    * order, or have the same id. */
  lemma PassOrderExactly(states: seq<System>, events: seq<Event>, timeout: nat, q: nat, n: nat,
                         i: nat, j: nat, x: nat, y: nat)
    requires IsGoodRun(states, events, timeout, q) && n < |states|
    requires i < j < |states[n].passes| && x < |states[n].completed| && y < |states[n].completed|
    requires states[n].completed[x] == states[n].passes[i] && states[n].completed[y] == states[n].passes[j]
    requires BackedAt(states[n], states[n].passes[i], q) && BackedAt(states[n], states[n].passes[j], q)
    ensures var a, b := states[n].assertions[states[n].passes[i]], states[n].assertions[states[n].passes[j]];
      StringOrder.LessEq(b.id, a.id) <==> x <= y || a.id == b.id
  {
    var a, b := states[n].assertions[states[n].passes[i]], states[n].assertions[states[n].passes[j]];
    StringOrder.Reflexive(a.id);
    if x < y {
      LeadershipOnlyMovesDown(states, events, timeout, q, n, x, y);
    } else if y < x {
      LeadershipOnlyMovesDown(states, events, timeout, q, n, y, x);
      if StringOrder.LessEq(b.id, a.id) {
        StringOrder.Antisymmetric(a.id, b.id);
      }
    }
  }

  lemma RunRecords(states: seq<System>, events: seq<Event>, timeout: nat, q: nat, n: nat)
    requires IsGoodRun(states, events, timeout, q) && n < |states|
    ensures RecordsFit(states[n])
  {
    RunKeeps(states, events, timeout, q, n);
  }

  /** Every pass has a place among the completed assertions, and only one. */
  lemma PassIsCompleted(states: seq<System>, events: seq<Event>, timeout: nat, q: nat, n: nat, i: nat) returns (x: nat)
    requires IsGoodRun(states, events, timeout, q) && n < |states| && i < |states[n].passes|
    ensures x < |states[n].completed| && states[n].completed[x] == states[n].passes[i]
    ensures forall y | 0 <= y < |states[n].completed| && states[n].completed[y] == states[n].passes[i] :: y == x
  {
    RunRecords(states, events, timeout, q, n);
    assert states[n].passes[i] in states[n].completed;
    x :| 0 <= x < |states[n].completed| && states[n].completed[x] == states[n].passes[i];
  }

  /** No assertion backed by `q` peers was completed after `k`. */
  ghost predicate Latest(s: System, k: nat, q: nat) {
    forall x, y | 0 <= x < y < |s.completed| && s.completed[x] == k :: !BackedAt(s, s.completed[y], q)
  }

  /** The step does not pass an assertion after a later one backed by `q` peers was completed. */
  ghost predicate Prompt(s: System, e: Event, s': System, q: nat) {
    e.Check? && s'.passes != s.passes ==>
      && e.c in s.controllers && s.controllers[e.c].cycle.Checking?
      && (BackedAt(s, s.controllers[e.c].cycle.k, q) ==> Latest(s, s.controllers[e.c].cycle.k, q))
  }

  /** Whoever gets through the ack check with `q` peers does so while its assertion is the latest. */
  ghost predicate ChecksArePrompt(states: seq<System>, events: seq<Event>, q: nat)
    requires |states| == |events| + 1
  {
    forall i | 0 <= i < |events| :: Prompt(states[i], events[i], states[i + 1], q)
  }

  /** Assertion `k` was completed before `l`, if both are backed by `q` peers. */
  ghost predicate Precedes(s: System, q: nat, k: nat, l: nat) {
    BackedAt(s, k, q) && BackedAt(s, l, q) ==>
      forall x, y | 0 <= x < |s.completed| && 0 <= y < |s.completed| && s.completed[x] == k && s.completed[y] == l ::
        x <= y
  }

  /** Passes are in the order in which their assertions were completed. */
  ghost predicate InOrder(s: System, q: nat) {
    forall i, j | 0 <= i < j < |s.passes| :: Precedes(s, q, s.passes[i], s.passes[j])
  }

  /** What one step adds to the records. */
  ghost predicate Records(s: System, s': System) {
    && |s.assertions| <= |s'.assertions|
    && (forall k | 0 <= k < |s.assertions| :: s'.assertions[k].view == s.assertions[k].view)
    && s.completed <= s'.completed
  }

  lemma NotifyRecords(s: System, c: string, p: string, now: int, timeout: nat)
    requires InFlight(s, c, p)
    ensures var s' := Next(s, Notify(c, p, now), timeout); Records(s, s') && s'.passes == s.passes
  {
    var s1 := Delivered(s, c, p, now, timeout);
    if s.controllers[c].cycle.Asserting? {
      AssertionAckedRecords(s1, c, p);
    } else {
      BidAckedRecords(s1, c, p);
    }
  }

  lemma QuietRecords(s: System, e: Event, timeout: nat)
    requires Enabled(s, e, timeout) && !e.Notify?
    ensures var s' := Next(s, e, timeout); Records(s, s') && s'.completed == s.completed
    ensures var s' := Next(s, e, timeout);
      || s'.passes == s.passes
      || (e.Check? && s'.assertions == s.assertions && s'.passes == s.passes + [s.controllers[e.c].cycle.k])
  {
  }

  /** The place of an assertion that was completed before is an old place. */
  lemma OldPlace(s: System, s': System, k: nat, x: nat)
    requires s.completed <= s'.completed && NoRepeats(s'.completed) && k in s.completed
    requires x < |s'.completed| && s'.completed[x] == k
    ensures x < |s.completed|
  {
    var z :| 0 <= z < |s.completed| && s.completed[z] == k;
    assert s'.completed[z] == k;
  }

  lemma OldPairPrecedes(s: System, s': System, q: nat, k: nat, l: nat)
    requires RecordsFit(s) && NoRepeats(s'.completed) && Records(s, s') && k in s.completed && l in s.completed
    requires Precedes(s, q, k, l)
    ensures Precedes(s', q, k, l)
  {
    CompletedInRange(s);
    forall x, y | 0 <= x < |s'.completed| && 0 <= y < |s'.completed| && s'.completed[x] == k && s'.completed[y] == l
        && BackedAt(s', k, q) && BackedAt(s', l, q)
      ensures x <= y
    {
      OldPlace(s, s', k, x);
      OldPlace(s, s', l, y);
    }
  }

  lemma SamePassesKeepOrder(s: System, s': System, q: nat)
    requires RecordsFit(s) && NoRepeats(s'.completed) && InOrder(s, q) && Records(s, s') && s'.passes == s.passes
    ensures InOrder(s', q)
  {
    forall i, j | 0 <= i < j < |s'.passes| ensures Precedes(s', q, s'.passes[i], s'.passes[j]) {
      OldPairPrecedes(s, s', q, s.passes[i], s.passes[j]);
    }
  }

  lemma LatestIsPreceded(s: System, q: nat, k: nat, l: nat)
    requires BackedAt(s, l, q) ==> Latest(s, l, q)
    ensures Precedes(s, q, k, l)
  {
  }

  lemma PassKeepsOrder(s: System, s': System, k: nat, q: nat)
    requires InOrder(s, q) && s'.assertions == s.assertions && s'.completed == s.completed
    requires s'.passes == s.passes + [k]
    requires BackedAt(s, k, q) ==> Latest(s, k, q)
    ensures InOrder(s', q)
  {
    forall i, j | 0 <= i < j < |s'.passes| ensures Precedes(s', q, s'.passes[i], s'.passes[j]) {
      if j == |s.passes| {
        LatestIsPreceded(s, q, s.passes[i], k);
      }
      assert Precedes(s, q, s'.passes[i], s'.passes[j]);
    }
  }

  lemma PromptStepKeepsOrder(s: System, e: Event, timeout: nat, q: nat)
    requires RecordsFit(s) && Enabled(s, e, timeout) && InOrder(s, q) && Prompt(s, e, Next(s, e, timeout), q)
    requires NoRepeats(Next(s, e, timeout).completed)
    ensures InOrder(Next(s, e, timeout), q)
  {
    var s' := Next(s, e, timeout);
    if e.Notify? {
      NotifyRecords(s, e.c, e.p, e.now, timeout);
      SamePassesKeepOrder(s, s', q);
    } else {
      QuietRecords(s, e, timeout);
      if s'.passes == s.passes {
        SamePassesKeepOrder(s, s', q);
      } else {
        PassKeepsOrder(s, s', s.controllers[e.c].cycle.k, q);
      }
    }
  }

  lemma {:induction false} PromptChecksKeepOrder(states: seq<System>, events: seq<Event>, timeout: nat, q: nat, n: nat)
    requires IsGoodRun(states, events, timeout, q) && ChecksArePrompt(states, events, q) && n < |states|
    ensures InOrder(states[n], q)
  {
    if n > 0 {
      PromptChecksKeepOrder(states, events, timeout, q, n - 1);
      RunRecords(states, events, timeout, q, n - 1);
      RunRecords(states, events, timeout, q, n);
      var s, e := states[n - 1], events[n - 1];
      assert Prompt(s, e, states[n], q) && Enabled(s, e, timeout) && states[n] == Next(s, e, timeout);
      PromptStepKeepsOrder(s, e, timeout, q);
    }
  }

  /** If every pass happens while its assertion is the latest with `q` peers, the ids of passes with at
    * least `q` peers never go up. */
  lemma PromptPassesMoveDown(states: seq<System>, events: seq<Event>, timeout: nat, q: nat, n: nat, i: nat, j: nat)
    requires IsGoodRun(states, events, timeout, q) && ChecksArePrompt(states, events, q) && n < |states|
    requires i < j < |states[n].passes|
    requires BackedAt(states[n], states[n].passes[i], q) && BackedAt(states[n], states[n].passes[j], q)
    ensures var s := states[n];
      StringOrder.LessEq(s.assertions[s.passes[j]].id, s.assertions[s.passes[i]].id)
  {
    PromptChecksKeepOrder(states, events, timeout, q, n);
    var x := PassIsCompleted(states, events, timeout, q, n, i);
    var y := PassIsCompleted(states, events, timeout, q, n, j);
    assert Precedes(states[n], q, states[n].passes[i], states[n].passes[j]);
    PassOrderExactly(states, events, timeout, q, n, i, j, x, y);
  }
}
