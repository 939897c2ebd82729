/** The life of a restore command: who wrote it, and that it is gone for good once it has been removed. */
module Commands {
  import opened NodeModel
  import opened ControlPlane

  // ---------- where commands come from ----------

  /** The event writes command `id`, which names `backup`. */
  ghost predicate Writes(s: System, e: Event, id: nat, backup: string) {
    || e == UserCommand(id, backup)
    || (&& e.Store? && e.store.AddCommand? && e.store.id == id && e.c in s.controllers
        && s.controllers[e.c].phase.Saved? && s.controllers[e.c].phase.backup == backup)
  }

  lemma SendKeepsCommands(s: System, c: string, p: string, r: Request, env: Env, answered: bool)
    requires SendEnabled(s, c, p, r)
    ensures var s' := SendNext(s, c, p, r, env, answered); s'.commands == s.commands && s'.commandIds == s.commandIds
  {
  }

  lemma OwnKeepsCommands(s: System, c: string, o: OwnStep)
    requires OwnEnabled(s, c, o)
    ensures OwnNext(s, c, o).commands == s.commands && OwnNext(s, c, o).commandIds == s.commandIds
  {
  }

  lemma StoreCommands(s: System, c: string, t: StoreStep, id: nat)
    requires StoreEnabled(s, c, t)
    ensures var s' := StoreNext(s, c, t);
      && s.commandIds <= s'.commandIds
      && (id in s'.commands ==>
            (id in s.commands && s'.commands[id] == s.commands[id])
            || (id !in s.commandIds && Writes(s, Store(c, t), id, s'.commands[id])))
  {
  }

  /** A command is written under a new name, and does not change. */
  lemma StepCommands(s: System, e: Event, id: nat)
    requires Enabled(s, e)
    ensures var s' := Next(s, e);
      && s.commandIds <= s'.commandIds
      && (id in s'.commands ==>
            (id in s.commands && s'.commands[id] == s.commands[id])
            || (id !in s.commandIds && Writes(s, e, id, s'.commands[id])))
  {
    match e
    case Own(c, o) => OwnKeepsCommands(s, c, o);
    case Store(c, t) => StoreCommands(s, c, t, id);
    case Send(c, p, r, env, answered) => SendKeepsCommands(s, c, p, r, env, answered);
    case _ =>
  }

  lemma StepCommandsBy(s: System, e: Event, s': System, id: nat)
    requires Takes(s, e, s')
    ensures s.commandIds <= s'.commandIds
    ensures id in s'.commands ==>
      (id in s.commands && s'.commands[id] == s.commands[id])
      || (id !in s.commandIds && Writes(s, e, id, s'.commands[id]))
  {
    StepCommands(s, e, id);
  }

  /** Every command in the store was written by the operator or by an upgrade, and names what it named then. */
  lemma {:induction false} CommandOrigin(states: seq<System>, events: seq<Event>, n: nat, id: nat) returns (i: nat)
    requires IsRun(states, events) && n < |states| && id in states[n].commands
    ensures i < n && Writes(states[i], events[i], id, states[n].commands[id])
  {
    StepCommandsBy(states[n - 1], events[n - 1], states[n], id);
    if id in states[n - 1].commands && states[n].commands[id] == states[n - 1].commands[id] {
      i := CommandOrigin(states, events, n - 1, id);
    } else {
      i := n - 1;
    }
  }

  // ---------- removed commands ----------

  /** The command was written once, and is not there any more. */
  predicate Gone(s: System, id: nat) {
    id in s.commandIds && id !in s.commands
  }

  lemma StepKeepsGone(s: System, e: Event, s': System, id: nat)
    requires Takes(s, e, s') && Gone(s, id)
    ensures Gone(s', id)
  {
    StepCommandsBy(s, e, s', id);
  }

  /** The event is the removal of command `id` by the controller that restored it. */
  ghost predicate RemovesRestored(s: System, e: Event, id: nat) {
    && e.Store? && e.store.RemoveCommand? && e.c in s.controllers
    && s.controllers[e.c].phase.Restored? && s.controllers[e.c].phase.command == id
  }

  lemma RemovalIsGone(s: System, e: Event, s': System, id: nat)
    requires Inv(s) && Takes(s, e, s') && RemovesRestored(s, e, id)
    ensures Gone(s', id) && e.c in s'.controllers && s'.controllers[e.c].commands == map[]
  {
    assert ControllerFits(s, s.controllers[e.c]);
  }

  /** Controller `c` has the command in its cache. */
  predicate Caches(s: System, c: string, id: nat) {
    c in s.controllers && id in s.controllers[c].commands
  }

  lemma RemovedInRun(states: seq<System>, events: seq<Event>, i: nat, id: nat)
    requires IsRun(states, events) && i < |events| && RemovesRestored(states[i], events[i], id)
    ensures Gone(states[i + 1], id) && !Caches(states[i + 1], events[i].c, id)
  {
    RunKeeps(states, events, i);
    RemovalIsGone(states[i], events[i], states[i + 1], id);
  }

  /** A command that was restored and removed is never in the store again. */
  lemma {:induction false} RemovedStaysRemoved(states: seq<System>, events: seq<Event>, i: nat, j: nat, id: nat)
    requires IsRun(states, events) && i < j < |states| && RemovesRestored(states[i], events[i], id)
    ensures Gone(states[j], id)
  {
    if j == i + 1 {
      RemovedInRun(states, events, i, id);
    } else {
      RemovedStaysRemoved(states, events, i, j - 1, id);
      StepKeepsGone(states[j - 1], events[j - 1], states[j], id);
    }
  }

  // ---------- cached commands ----------

  /** The event makes controller `c` read the commands again, or forget what it had read. */
  predicate Rereads(e: Event, c: string) {
    || (e.Own? && e.c == c && (e.own.Elected? || e.own.Refresh? || e.own.Crash?))
    || (e.Store? && e.c == c && e.store.RemoveCommand?)
  }

  lemma OwnCaches(s: System, c: string, o: OwnStep, d: string, id: nat)
    requires OwnEnabled(s, c, o) && Gone(s, id) && Caches(OwnNext(s, c, o), d, id)
    ensures Caches(s, d, id) && !Rereads(Own(c, o), d)
  {
  }

  lemma StoreCaches(s: System, c: string, t: StoreStep, d: string, id: nat)
    requires StoreEnabled(s, c, t) && Caches(StoreNext(s, c, t), d, id)
    ensures Caches(s, d, id) && !Rereads(Store(c, t), d)
  {
  }

  /** What is gone from the store does not get into a cache, and leaves it when the commands are read. */
  lemma StepCaches(s: System, e: Event, d: string, id: nat)
    requires Enabled(s, e) && Gone(s, id) && Caches(Next(s, e), d, id)
    ensures Caches(s, d, id) && !Rereads(e, d)
  {
    match e
    case Own(c, o) => OwnCaches(s, c, o, d, id);
    case Store(c, t) => StoreCaches(s, c, t, d, id);
    case _ =>
  }

  lemma StepCachesBy(s: System, e: Event, s': System, d: string, id: nat)
    requires Takes(s, e, s') && Gone(s, id) && Caches(s', d, id)
    ensures Caches(s, d, id) && !Rereads(e, d)
  {
    StepCaches(s, e, d, id);
  }

  /** Controller `d` has not read the commands after event `i` and before event `j`. */
  ghost predicate NeverRereads(events: seq<Event>, d: string, i: nat, j: nat)
    requires j <= |events|
  {
    forall k | i < k < j :: !Rereads(events[k], d)
  }

  lemma CachedBefore(states: seq<System>, events: seq<Event>, i: nat, j: nat, d: string, id: nat)
    requires IsRun(states, events) && i + 1 < j < |states| && RemovesRestored(states[i], events[i], id)
    requires Caches(states[j], d, id)
    ensures Caches(states[j - 1], d, id) && !Rereads(events[j - 1], d)
  {
    RemovedStaysRemoved(states, events, i, j - 1, id);
    StepCachesBy(states[j - 1], events[j - 1], states[j], d, id);
  }

  lemma {:induction false} CachedBack(states: seq<System>, events: seq<Event>, i: nat, m: nat, j: nat, d: string,
                                      id: nat)
    requires IsRun(states, events) && i < m <= j < |states| && RemovesRestored(states[i], events[i], id)
    requires Caches(states[j], d, id)
    ensures Caches(states[m], d, id)
    decreases j
  {
    if m < j {
      CachedBefore(states, events, i, j, d, id);
      CachedBack(states, events, i, m, j - 1, d, id);
    }
  }

  lemma NotReread(states: seq<System>, events: seq<Event>, i: nat, k: nat, j: nat, d: string, id: nat)
    requires IsRun(states, events) && i < k < j < |states| && RemovesRestored(states[i], events[i], id)
    requires Caches(states[j], d, id)
    ensures !Rereads(events[k], d)
  {
    CachedBack(states, events, i, k + 1, j, d, id);
    CachedBefore(states, events, i, k + 1, d, id);
  }

  lemma CachedSince(states: seq<System>, events: seq<Event>, i: nat, j: nat, d: string, id: nat)
    requires IsRun(states, events) && i < j < |states| && RemovesRestored(states[i], events[i], id)
    requires Caches(states[j], d, id)
    ensures d != events[i].c && Caches(states[i + 1], d, id) && NeverRereads(events, d, i, j)
  {
    CachedBack(states, events, i, i + 1, j, d, id);
    RemovedInRun(states, events, i, id);
    forall k | i < k < j ensures !Rereads(events[k], d) {
      NotReread(states, events, i, k, j, d, id);
    }
  }

  lemma RestoreIsCached(s: System, e: Event, s': System)
    requires Takes(s, e, s') && e.Store? && e.store.Restore?
    ensures Caches(s, e.c, e.store.id)
  {
  }

  /** Whoever restores a command that was restored and removed before has had it in its cache all the time, and
    * has not read the commands since; so it is not the controller that removed it. */
  lemma RestoredAgainIsStale(states: seq<System>, events: seq<Event>, i: nat, j: nat, id: nat)
    requires IsRun(states, events) && i < j < |events| && RemovesRestored(states[i], events[i], id)
    requires events[j].Store? && events[j].store.Restore? && events[j].store.id == id
    ensures events[j].c != events[i].c && Caches(states[i + 1], events[j].c, id)
    ensures NeverRereads(events, events[j].c, i, j)
  {
    RestoreIsCached(states[j], events[j], states[j + 1]);
    CachedSince(states, events, i, j, events[j].c, id);
  }
}
