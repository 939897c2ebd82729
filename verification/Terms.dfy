/** Leadership terms of controllers: a controller that has resigned or crashed never again uses a token from
  * before. */
module Terms {
  import opened NodeModel
  import opened ControlPlane

  /** The event ends the term of `c`. */
  predicate EndsTerm(e: Event, c: string) {
    e.Own? && e.c == c && (e.own.Resign? || e.own.Crash?)
  }

  /** Whatever `c` holds or bids with was drawn after `drawn`. */
  predicate IsRenewed(s: System, c: string, drawn: set<string>) {
    drawn <= s.tokens && c in s.controllers && OwnTokens(s.controllers[c]) !! drawn
  }

  lemma OwnRenews(s: System, c: string, o: OwnStep, d: string, drawn: set<string>)
    requires OwnEnabled(s, c, o)
    requires IsRenewed(s, d, drawn) || (EndsTerm(Own(c, o), d) && drawn <= s.tokens)
    ensures IsRenewed(OwnNext(s, c, o), d, drawn)
  {
  }

  lemma StoreRenews(s: System, c: string, t: StoreStep, d: string, drawn: set<string>)
    requires StoreEnabled(s, c, t) && IsRenewed(s, d, drawn)
    ensures IsRenewed(StoreNext(s, c, t), d, drawn)
  {
  }

  lemma SendRenews(s: System, c: string, p: string, r: Request, env: Env, answered: bool, d: string, drawn: set<string>)
    requires SendEnabled(s, c, p, r) && IsRenewed(s, d, drawn)
    ensures IsRenewed(SendNext(s, c, p, r, env, answered), d, drawn)
  {
  }

  lemma StepRenews(s: System, e: Event, s': System, d: string, drawn: set<string>)
    requires Takes(s, e, s') && (IsRenewed(s, d, drawn) || (EndsTerm(e, d) && drawn <= s.tokens))
    ensures IsRenewed(s', d, drawn)
  {
    match e
    case Own(c, o) => OwnRenews(s, c, o, d, drawn);
    case Store(c, t) => StoreRenews(s, c, t, d, drawn);
    case Send(c, p, r, env, answered) => SendRenews(s, c, p, r, env, answered, d, drawn);
    case _ =>
  }

  lemma {:induction false} TermIsRenewed(states: seq<System>, events: seq<Event>, i: nat, j: nat, c: string)
    requires IsRun(states, events) && i < j < |states| && EndsTerm(events[i], c)
    ensures IsRenewed(states[j], c, states[i].tokens)
  {
    if j == i + 1 {
      StepRenews(states[i], events[i], states[j], c, states[i].tokens);
    } else {
      TermIsRenewed(states, events, i, j - 1, c);
      StepRenews(states[j - 1], events[j - 1], states[j], c, states[i].tokens);
    }
  }

  /** What a controller does takes effect whether or not it is told so. */
  lemma LostRepliesCount(s: System, c: string, p: string, r: Request, env: Env)
    requires SendEnabled(s, c, p, r)
    ensures var s1, s2 := SendNext(s, c, p, r, env, true), SendNext(s, c, p, r, env, false);
      s2.nodes == s1.nodes && s2.stops == s1.stops && s2.nodes[p] == Handle(s.nodes[p], r, env).node
  {
  }

  lemma LostStoreRepliesCount(s: System, c: string, p: string, id: nat, writes: set<Write>)
    ensures StoreEnabled(s, c, AddCommand(id, true)) ==>
      StoreNext(s, c, AddCommand(id, false)).commands == StoreNext(s, c, AddCommand(id, true)).commands
    ensures StoreEnabled(s, c, Restore(p, id, writes, true)) ==>
      StoreNext(s, c, Restore(p, id, writes, false)).data == StoreNext(s, c, Restore(p, id, writes, true)).data
  {
  }

  lemma SentUnderTerm(s: System, e: Event, s': System)
    requires Takes(s, e, s') && e.Send?
    ensures e.c in s.controllers && e.request.header.leadershipToken in OwnTokens(s.controllers[e.c])
  {
  }

  /** Whatever a controller sends after it resigned or crashed carries a token that was drawn since. */
  lemma OldTokensAreSilent(states: seq<System>, events: seq<Event>, i: nat, j: nat)
    requires IsRun(states, events) && i < j < |events| && events[j].Send? && EndsTerm(events[i], events[j].c)
    ensures events[j].request.header.leadershipToken !in states[i].tokens
  {
    TermIsRenewed(states, events, i, j, events[j].c);
    SentUnderTerm(states[j], events[j], states[j + 1]);
  }
}
