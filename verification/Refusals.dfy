/** What a controller learns from a refusal, and what its ack check is worth.
  *
  * A refusal reports all peers its sender counts.  The refused controller adopts them, so its next view
  * contains them: without restarts it is refused less often than there are machines.
  */
module Refusals {
  import opened Common
  import opened Gossip
  import opened Leadership
  import LeadershipOrder

  // ---------- what a refusal teaches ----------

  /** The notification of `c` at `p` is refused. */
  predicate IsRefusal(s: System, e: Event, timeout: nat) {
    && e.Notify? && InFlight(s, e.c, e.p)
    && Notified(s.tables[e.p], s.controllers[e.c].cycle.view, e.now, timeout).1.Rejected?
  }

  /** The view that `c` has sent out, if any. */
  function ViewOf(s: System, c: string): set<string> {
    if c in s.controllers && !s.controllers[c].cycle.Idle? then s.controllers[c].cycle.view.healthy.Keys else {}
  }

  /** The peers that the refusal reports. */
  function Reported(s: System, e: Event, timeout: nat): set<string>
    requires IsRefusal(s, e, timeout)
  {
    Notified(s.tables[e.p], s.controllers[e.c].cycle.view, e.now, timeout).1.healthy.Keys
  }

  /** Exactly when a notification is refused: when the peer counts somebody whom the view lacks. */
  lemma RefusedExactly(s: System, c: string, p: string, now: int, timeout: nat)
    requires InFlight(s, c, p)
    ensures IsRefusal(s, Notify(c, p, now), timeout) <==>
      && ViewOf(s, c) != {}
      && exists id :: id in s.tables[p].peers && IsHealthy(s.tables[p].peers[id], now, timeout) && id !in ViewOf(s, c)
  {
    var view := s.controllers[c].cycle.view;
    var peers := Learn(s.tables[p].peers, view.healthy, now);
    if id :| id in s.tables[p].peers && IsHealthy(s.tables[p].peers[id], now, timeout) && id !in ViewOf(s, c) {
      assert id in Healthy(peers, now, timeout);
    }
    if id :| id in Healthy(peers, now, timeout) && id !in view.healthy {
      assert id in s.tables[p].peers;
    }
  }

  /** Whomever the peer counts and the view lacks, the refused controller knows afterwards; and its cycle has
    * ended. */
  lemma RefusalTeaches(s: System, c: string, p: string, now: int, timeout: nat, id: string)
    requires InFlight(s, c, p) && ViewOf(s, c) != {}
    requires id in s.tables[p].peers && IsHealthy(s.tables[p].peers[id], now, timeout) && id !in ViewOf(s, c)
    ensures var s' := Next(s, Notify(c, p, now), timeout);
      id in s'.tables[c].peers && s'.controllers[c].cycle.Idle? && s'.controllers[c].term == s.controllers[c].term
  {
    RefusedExactly(s, c, p, now, timeout);
    var peers := Learn(s.tables[p].peers, s.controllers[c].cycle.view.healthy, now);
    assert id in Healthy(peers, now, timeout);
  }

  /** Without stale entries a refusal reports more than the view, and all of it is known afterwards. */
  lemma ReportIsLearned(s: System, e: Event, timeout: nat)
    requires IsRefusal(s, e, timeout) && AllFresh(s, e.now, timeout)
    ensures ViewOf(s, e.c) < Reported(s, e, timeout)
    ensures Reported(s, e, timeout) <= Next(s, e, timeout).tables[e.c].peers.Keys
    ensures Next(s, e, timeout).controllers[e.c].cycle.Idle?
  {
    RefusedExactly(s, e.c, e.p, e.now, timeout);
    var view := s.controllers[e.c].cycle.view;
    var peers := Learn(s.tables[e.p].peers, view.healthy, e.now);
    forall id | id in view.healthy ensures id in Healthy(peers, e.now, timeout) {
      assert id in peers;
    }
    var id :| id in s.tables[e.p].peers && IsHealthy(s.tables[e.p].peers[id], e.now, timeout) && id !in ViewOf(s, e.c);
    assert id in Healthy(peers, e.now, timeout);
  }

  /** A notification takes effect whether or not its answer arrives. */
  lemma LostAnswersCount(s: System, c: string, p: string, now: int, timeout: nat)
    requires InFlight(s, c, p) && p != c
    ensures Next(s, Lost(c, p, now), timeout).tables[p] == Next(s, Notify(c, p, now), timeout).tables[p]
    ensures Next(s, Lost(c, p, now), timeout).tables[c] == s.tables[c]
    ensures Next(s, Lost(c, p, now), timeout).assertions == s.assertions
  {
  }

  // ---------- what is known stays known ----------

  /** `c` knows all of `ids`, and so does every view it has sent out. */
  ghost predicate Knows(s: System, c: string, ids: set<string>) {
    && c in s.tables && c in s.controllers && ids <= s.tables[c].peers.Keys
    && (!s.controllers[c].cycle.Idle? ==> ids <= ViewOf(s, c))
  }

  lemma NotifyKeepsKnown(s: System, e: Event, timeout: nat, c: string, ids: set<string>)
    requires e.Notify? && Enabled(s, e, timeout) && Knows(s, c, ids)
    ensures Knows(Next(s, e, timeout), c, ids)
  {
    var s1 := Delivered(s, e.c, e.p, e.now, timeout);
    assert Knows(s1, c, ids);
  }

  /** A view is made of all peers that are known. */
  lemma BeginKeepsKnown(s: System, e: Event, timeout: nat, c: string, ids: set<string>)
    requires e.Begin? && Enabled(s, e, timeout) && AllFresh(s, e.now, timeout) && Knows(s, c, ids)
    ensures Knows(Next(s, e, timeout), c, ids)
  {
    if e.c == c {
      assert Healthy(s.tables[c].peers, e.now, timeout).Keys == s.tables[c].peers.Keys;
    }
  }

  lemma StepKeepsKnown(s: System, e: Event, timeout: nat, c: string, ids: set<string>)
    requires Enabled(s, e, timeout) && AllFresh(s, e.now, timeout) && Knows(s, c, ids)
    requires !(e.Restart? && e.p == c)
    ensures Knows(Next(s, e, timeout), c, ids)
  {
    match e
    case Notify(_, _, _) => NotifyKeepsKnown(s, e, timeout, c, ids);
    case Begin(_, _, _) => BeginKeepsKnown(s, e, timeout, c, ids);
    case _ =>
  }

  /** No event from `i` on and before `n` is a restart of `c`. */
  ghost predicate Undisturbed(events: seq<Event>, c: string, i: nat, n: nat)
    requires n <= |events|
  {
    forall k | i <= k < n :: !(events[k].Restart? && events[k].p == c)
  }

  lemma {:induction false} KnownIsKept(states: seq<System>, events: seq<Event>, timeout: nat, c: string,
                                       ids: set<string>, i: nat, n: nat)
    requires IsRun(states, events, timeout) && i <= n <= |events| && Undisturbed(events, c, i, n)
    requires Knows(states[i], c, ids)
    ensures Knows(states[n], c, ids)
  {
    if i < n {
      KnownIsKept(states, events, timeout, c, ids, i, n - 1);
      assert AllFresh(states[n - 1], events[n - 1].now, timeout);
      StepKeepsKnown(states[n - 1], events[n - 1], timeout, c, ids);
    }
  }

  /** Every view that `c` sends out after a refusal, and before it restarts, contains all peers that the
    * refusal reported, and so more than the refused view. */
  lemma NextViewIsLarger(states: seq<System>, events: seq<Event>, timeout: nat, i: nat, n: nat)
    requires IsRun(states, events, timeout) && i < n <= |events| && IsRefusal(states[i], events[i], timeout)
    requires Undisturbed(events, events[i].c, i, n)
    requires events[i].c in states[n].controllers && !states[n].controllers[events[i].c].cycle.Idle?
    ensures Reported(states[i], events[i], timeout) <= ViewOf(states[n], events[i].c)
    ensures ViewOf(states[i], events[i].c) < ViewOf(states[n], events[i].c)
  {
    assert AllFresh(states[i], events[i].now, timeout);
    ReportIsLearned(states[i], events[i], timeout);
    KnownIsKept(states, events, timeout, events[i].c, Reported(states[i], events[i], timeout), i + 1, n);
  }

  /** Refusals of `c`, in the order of the run. */
  ghost predicate AreRefusals(states: seq<System>, events: seq<Event>, timeout: nat, c: string, at: seq<nat>)
    requires |states| == |events| + 1
  {
    && (forall k | 0 <= k < |at| :: at[k] < |events| && IsRefusal(states[at[k]], events[at[k]], timeout))
    && (forall k | 0 <= k < |at| :: events[at[k]].c == c)
    && (forall k, l | 0 <= k < l < |at| :: at[k] < at[l])
  }

  /** Each of these views of `c` is larger than the one before. */
  ghost predicate ViewsGrow(states: seq<System>, c: string, at: seq<nat>) {
    && (forall k | 0 <= k < |at| :: at[k] < |states|)
    && forall k | 0 <= k < |at| - 1 :: ViewOf(states[at[k]], c) < ViewOf(states[at[k + 1]], c)
  }

  lemma {:induction false} GrownViews(states: seq<System>, c: string, at: seq<nat>, n: nat)
    requires ViewsGrow(states, c, at) && n < |at| && ViewOf(states[at[0]], c) != {}
    ensures n < |ViewOf(states[at[n]], c)|
  {
    if n > 0 {
      GrownViews(states, c, at, n - 1);
      SubsetSize(ViewOf(states[at[n - 1]], c), ViewOf(states[at[n]], c));
    }
  }

  lemma RefusedViewIsLarger(states: seq<System>, events: seq<Event>, timeout: nat, c: string, at: seq<nat>, k: nat)
    requires IsRun(states, events, timeout) && AreRefusals(states, events, timeout, c, at) && k + 1 < |at|
    requires Undisturbed(events, c, at[0], at[|at| - 1])
    ensures ViewOf(states[at[k]], c) < ViewOf(states[at[k + 1]], c)
  {
    var i, n := at[k], at[k + 1];
    assert at[0] <= i < n <= at[|at| - 1];
    assert Undisturbed(events, c, i, n);
    NextViewIsLarger(states, events, timeout, i, n);
  }

  lemma RefusedViewsGrow(states: seq<System>, events: seq<Event>, timeout: nat, c: string, at: seq<nat>)
    requires IsRun(states, events, timeout) && AreRefusals(states, events, timeout, c, at) && at != []
    requires Undisturbed(events, c, at[0], at[|at| - 1])
    ensures ViewsGrow(states, c, at)
  {
    forall k | 0 <= k < |at| - 1 ensures ViewOf(states[at[k]], c) < ViewOf(states[at[k + 1]], c) {
      RefusedViewIsLarger(states, events, timeout, c, at, k);
    }
  }

  /** A refused view is not empty, and lacks somebody. */
  lemma RefusedViewIsPartial(states: seq<System>, events: seq<Event>, timeout: nat, n: nat)
    requires IsRun(states, events, timeout) && n < |events| && IsRefusal(states[n], events[n], timeout)
    ensures ViewOf(states[n], events[n].c) != {}
    ensures |ViewOf(states[n], events[n].c)| < |states[0].tables|
  {
    var s, e := states[n], events[n];
    assert AllFresh(s, e.now, timeout) && states[n + 1] == Next(s, e, timeout);
    RefusedExactly(s, e.c, e.p, e.now, timeout);
    ReportIsLearned(s, e, timeout);
    LeadershipOrder.RunCycles(states, events, timeout, n + 1);
    var learned := states[n + 1].tables[e.c].peers.Keys;
    SubsetSize(ViewOf(s, e.c), learned);
    SubsetSize(learned, states[0].tables.Keys);
    assert |states[0].tables| == |states[0].tables.Keys|;
  }

  /** As long as `c` does not restart it is refused less often than there are machines. */
  lemma RefusalsAreFew(states: seq<System>, events: seq<Event>, timeout: nat, c: string, at: seq<nat>)
    requires IsRun(states, events, timeout) && AreRefusals(states, events, timeout, c, at) && at != []
    requires Undisturbed(events, c, at[0], at[|at| - 1])
    ensures |at| < |states[0].tables|
  {
    RefusedViewsGrow(states, events, timeout, c, at);
    RefusedViewIsPartial(states, events, timeout, at[0]);
    RefusedViewIsPartial(states, events, timeout, at[|at| - 1]);
    GrownViews(states, c, at, |at| - 1);
  }

  // ---------- the ack check ----------

  /** Peer `p` accepts a bid of `c` with `token`. */
  predicate IsAcceptedBid(s: System, e: Event, timeout: nat, c: string, p: string, token: string) {
    && e.Notify? && e.c == c && e.p == p && InFlight(s, c, p)
    && s.controllers[c].cycle.Bidding? && s.controllers[c].cycle.view.token == token
    && Notified(s.tables[p], s.controllers[c].cycle.view, e.now, timeout).1.Accepted?
  }

  /** It did so before event `n`. */
  ghost predicate AcceptedBid(states: seq<System>, events: seq<Event>, timeout: nat, c: string, p: string,
                              token: string, n: nat)
    requires n <= |events| < |states|
  {
    exists j :: 0 <= j < n && IsAcceptedBid(states[j], events[j], timeout, c, p, token)
  }

  /** Event `j` is the last acceptance of the bid with which `c` won `term`. */
  ghost predicate Wins(s: System, e: Event, timeout: nat, c: string, term: Term) {
    && e.Notify? && IsAcceptedBid(s, e, timeout, c, e.p, term.token)
    && s.controllers[c].cycle.pending == {e.p} && ViewOf(s, c) == term.acked
  }

  ghost predicate WonBefore(states: seq<System>, events: seq<Event>, timeout: nat, c: string, term: Term, n: nat)
    requires n <= |events| < |states|
  {
    exists j :: 0 <= j < n && Wins(states[j], events[j], timeout, c, term)
  }

  ghost predicate BidFits(states: seq<System>, events: seq<Event>, timeout: nat, c: string, n: nat)
    requires n <= |events| < |states|
  {
    && c in states[n].controllers
    && var ctl := states[n].controllers[c];
       && (ctl.term.Some? ==>
             && WonBefore(states, events, timeout, c, ctl.term.value, n)
             && forall p | p in ctl.term.value.acked ::
                  AcceptedBid(states, events, timeout, c, p, ctl.term.value.token, n))
       && (ctl.cycle.Bidding? ==> forall p | p in ctl.cycle.view.healthy.Keys - ctl.cycle.pending ::
             AcceptedBid(states, events, timeout, c, p, ctl.cycle.view.token, n))
  }

  /** Term and cycle of `c` are as before, or what is left of them. */
  predicate OnlyLoses(ctl: Controller, ctl': Controller) {
    (ctl'.term == ctl.term || ctl'.term.None?) && (ctl'.cycle == ctl.cycle || !ctl'.cycle.Bidding?)
  }

  lemma StepLoses(s: System, e: Event, timeout: nat, c: string)
    requires Enabled(s, e, timeout) && c in s.controllers && !(e.Begin? && e.c == c)
    requires e.Notify? && e.c == c && s.controllers[c].cycle.Bidding? ==>
      !Notified(s.tables[e.p], s.controllers[c].cycle.view, e.now, timeout).1.Accepted?
    ensures c in Next(s, e, timeout).controllers
    ensures OnlyLoses(s.controllers[c], Next(s, e, timeout).controllers[c])
  {
  }

  lemma LaterFits(states: seq<System>, events: seq<Event>, timeout: nat, c: string, n: nat)
    requires n < |events| < |states| && BidFits(states, events, timeout, c, n) && c in states[n + 1].controllers
    requires OnlyLoses(states[n].controllers[c], states[n + 1].controllers[c])
    ensures BidFits(states, events, timeout, c, n + 1)
  {
  }

  lemma AcceptedLater(states: seq<System>, events: seq<Event>, timeout: nat, c: string, p: string, token: string,
                      n: nat)
    requires n < |events| < |states|
    requires AcceptedBid(states, events, timeout, c, p, token, n)
      || IsAcceptedBid(states[n], events[n], timeout, c, p, token)
    ensures AcceptedBid(states, events, timeout, c, p, token, n + 1)
  {
  }

  /** A bid after one more acceptance. */
  function AfterBid(ctl: Controller, p: string): Controller
    requires ctl.cycle.Bidding?
  {
    var pending := ctl.cycle.pending - {p};
    if pending != {} then ctl.(cycle := Bidding(ctl.cycle.view, pending))
    else Controller(Some(Term(ctl.cycle.view.token, ctl.cycle.view.healthy.Keys)), Idle)
  }

  lemma AcceptedBidStep(s: System, e: Event, timeout: nat, c: string, token: string)
    requires Enabled(s, e, timeout) && e.Notify? && IsAcceptedBid(s, e, timeout, c, e.p, token)
    ensures c in Next(s, e, timeout).controllers
    ensures Next(s, e, timeout).controllers[c] == AfterBid(s.controllers[c], e.p)
  {
  }

  lemma BidGrows(states: seq<System>, events: seq<Event>, timeout: nat, c: string, n: nat)
    requires n < |events| < |states| && BidFits(states, events, timeout, c, n)
    requires events[n].Notify? && states[n].controllers[c].cycle.Bidding?
    requires IsAcceptedBid(states[n], events[n], timeout, c, events[n].p, states[n].controllers[c].cycle.view.token)
    ensures var cycle := states[n].controllers[c].cycle;
      forall x | x in cycle.view.healthy.Keys - (cycle.pending - {events[n].p}) ::
        AcceptedBid(states, events, timeout, c, x, cycle.view.token, n + 1)
  {
    var cycle, p := states[n].controllers[c].cycle, events[n].p;
    forall x | x in cycle.view.healthy.Keys - (cycle.pending - {p})
      ensures AcceptedBid(states, events, timeout, c, x, cycle.view.token, n + 1)
    {
      assert x == p || x in cycle.view.healthy.Keys - cycle.pending;
      AcceptedLater(states, events, timeout, c, x, cycle.view.token, n);
    }
  }

  lemma AcceptanceFits(states: seq<System>, events: seq<Event>, timeout: nat, c: string, n: nat)
    requires n < |events| < |states| && BidFits(states, events, timeout, c, n)
    requires events[n].Notify? && states[n].controllers[c].cycle.Bidding?
    requires IsAcceptedBid(states[n], events[n], timeout, c, events[n].p, states[n].controllers[c].cycle.view.token)
    requires c in states[n + 1].controllers
    requires states[n + 1].controllers[c] == AfterBid(states[n].controllers[c], events[n].p)
    ensures BidFits(states, events, timeout, c, n + 1)
  {
    BidGrows(states, events, timeout, c, n);
    if states[n].controllers[c].cycle.pending - {events[n].p} == {} {
      BidIsWon(states, events, timeout, c, n);
    } else {
      TermFits(states, events, timeout, c, n);
    }
  }

  lemma BidIsWon(states: seq<System>, events: seq<Event>, timeout: nat, c: string, n: nat)
    requires n < |events| < |states| && BidFits(states, events, timeout, c, n)
    requires events[n].Notify? && states[n].controllers[c].cycle.Bidding?
    requires IsAcceptedBid(states[n], events[n], timeout, c, events[n].p, states[n].controllers[c].cycle.view.token)
    requires states[n].controllers[c].cycle.pending - {events[n].p} == {}
    ensures var view := states[n].controllers[c].cycle.view;
      && WonBefore(states, events, timeout, c, Term(view.token, view.healthy.Keys), n + 1)
      && forall p | p in view.healthy.Keys :: AcceptedBid(states, events, timeout, c, p, view.token, n + 1)
  {
    var cycle := states[n].controllers[c].cycle;
    BidGrows(states, events, timeout, c, n);
    assert cycle.pending == {events[n].p};
    assert Wins(states[n], events[n], timeout, c, Term(cycle.view.token, cycle.view.healthy.Keys));
    assert cycle.view.healthy.Keys - (cycle.pending - {events[n].p}) == cycle.view.healthy.Keys;
  }

  lemma TermFits(states: seq<System>, events: seq<Event>, timeout: nat, c: string, n: nat)
    requires n < |events| < |states| && BidFits(states, events, timeout, c, n)
    ensures var ctl := states[n].controllers[c];
      ctl.term.Some? ==>
        && WonBefore(states, events, timeout, c, ctl.term.value, n + 1)
        && forall p | p in ctl.term.value.acked ::
             AcceptedBid(states, events, timeout, c, p, ctl.term.value.token, n + 1)
  {
    var ctl := states[n].controllers[c];
    if ctl.term.Some? {
      forall p | p in ctl.term.value.acked
        ensures AcceptedBid(states, events, timeout, c, p, ctl.term.value.token, n + 1)
      {
        AcceptedLater(states, events, timeout, c, p, ctl.term.value.token, n);
      }
    }
  }

  lemma StepBids(states: seq<System>, events: seq<Event>, timeout: nat, c: string, n: nat)
    requires n < |events| < |states| && BidFits(states, events, timeout, c, n)
    requires Enabled(states[n], events[n], timeout) && states[n + 1] == Next(states[n], events[n], timeout)
    ensures BidFits(states, events, timeout, c, n + 1)
  {
    var s, e := states[n], events[n];
    if e.Notify? && e.c == c && s.controllers[c].cycle.Bidding?
      && Notified(s.tables[e.p], s.controllers[c].cycle.view, e.now, timeout).1.Accepted?
    {
      AcceptedBidStep(s, e, timeout, c, s.controllers[c].cycle.view.token);
      AcceptanceFits(states, events, timeout, c, n);
    } else if e.Begin? && e.c == c {
      BeginFits(states, events, timeout, c, n);
    } else {
      StepLoses(s, e, timeout, c);
      LaterFits(states, events, timeout, c, n);
    }
  }

  lemma {:induction false} RunBids(states: seq<System>, events: seq<Event>, timeout: nat, c: string, n: nat)
    requires IsRun(states, events, timeout) && n <= |events| && c in states[0].controllers
    ensures BidFits(states, events, timeout, c, n)
  {
    if n > 0 {
      RunBids(states, events, timeout, c, n - 1);
      assert Enabled(states[n - 1], events[n - 1], timeout) && states[n] == Next(states[n - 1], events[n - 1], timeout);
      StepBids(states, events, timeout, c, n - 1);
    }
  }

  lemma BeginFits(states: seq<System>, events: seq<Event>, timeout: nat, c: string, n: nat)
    requires n < |events| < |states| && BidFits(states, events, timeout, c, n)
    requires Enabled(states[n], events[n], timeout) && states[n + 1] == Next(states[n], events[n], timeout)
    requires events[n].Begin? && events[n].c == c
    ensures BidFits(states, events, timeout, c, n + 1)
  {
    TermFits(states, events, timeout, c, n);
  }

  lemma CheckStep(s: System, e: Event, timeout: nat)
    requires Enabled(s, e, timeout) && e.Check?
    ensures var s', ctl := Next(s, e, timeout), s.controllers[e.c];
      && e.c in s'.controllers
      && (|s'.passes| == |s.passes| + 1 <==> ctl.term.Some? && ViewOf(s, e.c) <= ctl.term.value.acked)
      && (|s'.passes| != |s.passes| + 1 ==> s'.controllers[e.c].term.None?)
  {
  }

  /** Exactly when a leader gets through its ack check: when it has won a term with a bid whose view contains
    * the view it asserts; and then every peer of that view has accepted its token.  Otherwise it resigns. */
  lemma PassedExactly(states: seq<System>, events: seq<Event>, timeout: nat, i: nat)
    requires IsRun(states, events, timeout) && i < |events| && events[i].Check?
    ensures var c := events[i].c;
      && c in states[i].controllers && c in states[i + 1].controllers
      && var ctl := states[i].controllers[c];
         && (|states[i + 1].passes| == |states[i].passes| + 1 <==>
               ctl.term.Some? && exists j :: 0 <= j < i && Wins(states[j], events[j], timeout, c, ctl.term.value)
                                          && ViewOf(states[i], c) <= ViewOf(states[j], c))
         && (|states[i + 1].passes| == |states[i].passes| + 1 ==> forall p | p in ViewOf(states[i], c) ::
               AcceptedBid(states, events, timeout, c, p, ctl.term.value.token, i))
         && (|states[i + 1].passes| != |states[i].passes| + 1 ==> states[i + 1].controllers[c].term.None?)
  {
    var c := events[i].c;
    assert Enabled(states[i], events[i], timeout) && states[i + 1] == Next(states[i], events[i], timeout);
    LeadershipOrder.RunCycles(states, events, timeout, i);
    RunBids(states, events, timeout, c, i);
    CheckStep(states[i], events[i], timeout);
  }
}
