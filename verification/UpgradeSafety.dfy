/** What an upgrade by stopping the cluster leaves to recover from, and what can take that away. */
module UpgradeSafety {
  import opened NodeModel
  import opened ControlPlane
  import Retention

  // ---------- restored backups ----------

  /** What was restored was there: the cluster it was restored into held the whole backup when it last
    * ran.  Contents are a history, which a stop of the cluster does not end. */
  ghost predicate RestoredFits(s: System) {
    forall b | b in s.restored :: b in s.backups && s.backups[b].writes <= Contents(s, s.restored[b])
  }

  /** Backups stay as they are and clusters only gain. */
  lemma RestoredKept(s: System, s': System)
    requires RestoredFits(s) && s'.restored == s.restored
    requires forall b | b in s.backups :: b in s'.backups && s'.backups[b] == s.backups[b]
    requires forall t :: Contents(s, t) <= Contents(s', t)
    ensures RestoredFits(s')
  {
  }

  lemma RestoreStepFits(s: System, c: string, p: string, id: nat, copied: set<Write>, answered: bool)
    requires RestoredFits(s) && StoreEnabled(s, c, Restore(p, id, copied, answered))
    ensures RestoredFits(StoreNext(s, c, Restore(p, id, copied, answered)))
  {
    var s' := StoreNext(s, c, Restore(p, id, copied, answered));
    assert forall t :: Contents(s, t) <= Contents(s', t);
    forall b | b in s'.restored ensures b in s'.backups && s'.backups[b].writes <= Contents(s', s'.restored[b]) {
      assert b in s.restored ==> s.backups[b].writes <= Contents(s, s.restored[b]);
    }
  }

  lemma StoreStepRestored(s: System, c: string, t: StoreStep)
    requires RestoredFits(s) && StoreEnabled(s, c, t)
    ensures RestoredFits(StoreNext(s, c, t))
  {
    if t.Restore? {
      RestoreStepFits(s, c, t.p, t.id, t.copied, t.answered);
    } else {
      RestoredKept(s, StoreNext(s, c, t));
    }
  }

  /** Backups, contents, restores and withdrawals are as before. */
  ghost predicate StoresUntouched(s: System, s': System) {
    s'.backups == s.backups && s'.data == s.data && s'.restored == s.restored && s'.withdrawn == s.withdrawn
  }

  lemma OwnUntouched(s: System, c: string, o: OwnStep)
    requires OwnEnabled(s, c, o)
    ensures StoresUntouched(s, OwnNext(s, c, o))
  {
  }

  lemma SendUntouched(s: System, c: string, p: string, r: Request, env: Env, answered: bool)
    requires SendEnabled(s, c, p, r)
    ensures StoresUntouched(s, SendNext(s, c, p, r, env, answered))
  {
  }

  lemma UntouchedRestored(s: System, s': System)
    requires RestoredFits(s) && StoresUntouched(s, s')
    ensures RestoredFits(s')
  {
    RestoredKept(s, s');
  }

  lemma WriteRestored(s: System, p: string, id: nat)
    requires RestoredFits(s) && WriteEnabled(s, p)
    ensures RestoredFits(WriteNext(s, p, id))
  {
    RestoredKept(s, WriteNext(s, p, id));
  }

  lemma UserRestored(s: System, s': System)
    requires RestoredFits(s) && s'.backups == s.backups && s'.data == s.data && s'.restored == s.restored
    ensures RestoredFits(s')
  {
    RestoredKept(s, s');
  }

  lemma StepRestored(s: System, e: Event)
    requires RestoredFits(s) && Enabled(s, e)
    ensures RestoredFits(Next(s, e))
  {
    var s' := Next(s, e);
    match e
    case Own(c, o) =>
      OwnUntouched(s, c, o);
      UntouchedRestored(s, s');
    case Store(c, t) =>
      StoreStepRestored(s, c, t);
    case Send(c, p, r, env, answered) =>
      SendUntouched(s, c, p, r, env, answered);
      UntouchedRestored(s, s');
    case Notify(c, p) =>
      UntouchedRestored(s, NotifyNext(s, c, p));
    case NodeEvent(p, event) =>
      UntouchedRestored(s, NodeEventNext(s, p, event));
    case ClientWrite(p, id) =>
      WriteRestored(s, p, id);
    case UserCommand(id, name) =>
      UserRestored(s, UserNext(s, id, name));
    case UserDelete(id) =>
      UserRestored(s, DeleteNext(s, id));
    case Cleanup(_, _, _, _, left) =>
      UserRestored(s, CleanupNext(s, left));
  }

  lemma {:induction false} RunRestored(states: seq<System>, events: seq<Event>, i: nat)
    requires IsRun(states, events) && i < |states|
    ensures RestoredFits(states[i])
  {
    if i > 0 {
      RunRestored(states, events, i - 1);
      assert Takes(states[i - 1], events[i - 1], states[i]);
      StepRestored(states[i - 1], events[i - 1]);
    }
  }

  // ---------- withdrawn commands and removed backups ----------

  lemma StoreStepTakesNothing(s: System, c: string, t: StoreStep)
    requires StoreEnabled(s, c, t)
    ensures StoreNext(s, c, t).withdrawn == s.withdrawn && StoreNext(s, c, t).removed == s.removed
  {
  }

  lemma OwnStepTakesNothing(s: System, c: string, o: OwnStep)
    requires OwnEnabled(s, c, o)
    ensures OwnNext(s, c, o).withdrawn == s.withdrawn && OwnNext(s, c, o).removed == s.removed
  {
  }

  lemma SendTakesNothing(s: System, c: string, p: string, r: Request, env: Env, answered: bool)
    requires SendEnabled(s, c, p, r)
    ensures var s' := SendNext(s, c, p, r, env, answered); s'.withdrawn == s.withdrawn && s'.removed == s.removed
  {
  }

  /** Only the operator withdraws a command, and only a cleanup removes a backup. */
  lemma StepTakes(s: System, e: Event, b: string)
    requires Enabled(s, e)
    ensures b in Next(s, e).withdrawn ==> b in s.withdrawn || (e.UserDelete? && s.commands[e.id] == b)
    ensures b in Next(s, e).removed ==> b in s.removed || (e.Cleanup? && b in InStore(s) && b !in e.left)
  {
    match e
    case Own(c, o) => OwnStepTakesNothing(s, c, o);
    case Store(c, t) => StoreStepTakesNothing(s, c, t);
    case Send(c, p, r, env, answered) => SendTakesNothing(s, c, p, r, env, answered);
    case _ =>
  }

  /** The event deletes a command that names `b`. */
  ghost predicate Withdraws(s: System, e: Event, b: string) {
    e.UserDelete? && e.id in s.commands && s.commands[e.id] == b
  }

  /** The event is a cleanup that removes `b`. */
  ghost predicate Removes(s: System, e: Event, b: string) {
    && e.Cleanup? && CleanupEnabled(s, e.policy, e.listing, e.now, e.failing, e.left)
    && b in InStore(s) && b !in e.left
  }

  lemma StepTakesBy(s: System, e: Event, s': System, b: string)
    requires Takes(s, e, s')
    ensures b in s'.withdrawn && b !in s.withdrawn ==> Withdraws(s, e, b)
    ensures b in s'.removed && b !in s.removed ==> Removes(s, e, b)
  {
    StepTakes(s, e, b);
  }

  /** A withdrawn backup is one whose command the operator deleted. */
  lemma {:induction false} OperatorWithdrew(states: seq<System>, events: seq<Event>, i: nat, b: string) returns (j: nat)
    requires IsRun(states, events) && i < |states| && b in states[i].withdrawn
    ensures j < i && Withdraws(states[j], events[j], b)
  {
    StepTakesBy(states[i - 1], events[i - 1], states[i], b);
    if b in states[i - 1].withdrawn {
      j := OperatorWithdrew(states, events, i - 1, b);
    } else {
      j := i - 1;
    }
  }

  /** A removed backup is one that a cleanup removed. */
  lemma {:induction false} CleanupRemoved(states: seq<System>, events: seq<Event>, i: nat, b: string) returns (j: nat)
    requires IsRun(states, events) && i < |states| && b in states[i].removed
    ensures j < i && Removes(states[j], events[j], b)
  {
    StepTakesBy(states[i - 1], events[i - 1], states[i], b);
    if b in states[i - 1].removed {
      j := CleanupRemoved(states, events, i - 1, b);
    } else {
      j := i - 1;
    }
  }

  /** Exactly when deleting a command leaves its backup recoverable: when it has been restored, or
    * another command names it. */
  lemma DeleteExactly(s: System, id: nat)
    requires DeleteEnabled(s, id)
    ensures var s', b := DeleteNext(s, id), s.commands[id];
      (Pending(s', b) || b in s'.restored) <==>
      b in s.restored || exists other :: other != id && other in s.commands && s.commands[other] == b
  {
    var s', b := DeleteNext(s, id), s.commands[id];
    if other :| other != id && other in s.commands && s.commands[other] == b {
      assert other in s'.commands && s'.commands[other] == b;
    }
    if other :| other in s'.commands && s'.commands[other] == b {
      assert other != id && other in s.commands && s.commands[other] == b;
    }
  }

  /** The cleanup finds the backup young, or the one its bucket keeps, or fails to remove it, or cannot
    * read its name. */
  ghost predicate Spares(s: System, e: Event, b: string)
    requires e.Cleanup?
  {
    || b in e.failing || e.policy.parse(b).None? || Retention.IsYoung(e.now, e.policy.parse(b).value)
    || Retention.Represents(e.policy, InStore(s), e.now, b)
  }

  /** Exactly when a cleanup leaves a backup in the store. */
  lemma CleanupExactly(s: System, e: Event, b: string)
    requires e.Cleanup? && CleanupEnabled(s, e.policy, e.listing, e.now, e.failing, e.left) && b in InStore(s)
    requires !Retention.Forgets(e.policy, e.listing, |e.listing|, e.now)
    ensures b in InStore(CleanupNext(s, e.left)) <==> Spares(s, e, b)
  {
  }

  /** A backup that every cleanup spares is never removed. */
  lemma SparedBackupStays(states: seq<System>, events: seq<Event>, i: nat, b: string)
    requires IsRun(states, events) && i < |states|
    requires forall j | 0 <= j < i && events[j].Cleanup? ::
      && !Retention.Forgets(events[j].policy, events[j].listing, |events[j].listing|, events[j].now)
      && Spares(states[j], events[j], b)
    ensures b !in states[i].removed
  {
    if b in states[i].removed {
      var j := CleanupRemoved(states, events, i, b);
      CleanupExactly(states[j], events[j], b);
    }
  }

  /** The failing input: of the two backups that an upgrade takes in one hour, before and after the
    * quarantine, a cleanup removes the second, which is the one the command names, once it is an hour
    * old. */
  lemma SecondBackupIsRemoved(s: System, e: Event, x: string, y: string, t: int, u: int)
    requires e.Cleanup? && CleanupEnabled(s, e.policy, e.listing, e.now, e.failing, e.left)
    requires !Retention.Forgets(e.policy, e.listing, |e.listing|, e.now)
    requires x in InStore(s) && y in InStore(s) && y !in e.failing
    requires Retention.At(e.policy, x, t) && Retention.At(e.policy, y, u)
    requires t < u && Retention.HourOf(t) == Retention.HourOf(u)
    requires Retention.Hour <= Retention.Age(e.now, u) && Retention.Age(e.now, t) < e.policy.hourly
    ensures y in CleanupNext(s, e.left).removed
  {
    Retention.LaterOfHourIsRemoved(e.policy, InStore(s), e.now, x, y, t, u);
  }

  // ---------- what one step can take away ----------

  /** The backup can be restored now: a command names it, and it is in the store. */
  ghost predicate Restorable(s: System, b: string) {
    Pending(s, b) && b in InStore(s)
  }

  lemma StoreStepGains(s: System, c: string, t: StoreStep)
    requires StoreEnabled(s, c, t)
    ensures var s' := StoreNext(s, c, t); s.restored.Keys <= s'.restored.Keys && s.backups.Keys <= s'.backups.Keys
  {
  }

  lemma StepGains(s: System, e: Event)
    requires Enabled(s, e)
    ensures s.restored.Keys <= Next(s, e).restored.Keys && s.backups.Keys <= Next(s, e).backups.Keys
  {
    match e
    case Own(c, o) => OwnUntouched(s, c, o);
    case Store(c, t) => StoreStepGains(s, c, t);
    case Send(c, p, r, env, answered) => SendUntouched(s, c, p, r, env, answered);
    case _ =>
  }

  /** The command is still there, or what it named has been restored. */
  ghost predicate CommandKept(s: System, s': System, id: nat)
    requires id in s.commands
  {
    (id in s'.commands && s'.commands[id] == s.commands[id]) || s.commands[id] in s'.restored
  }

  lemma OwnKeepsCommand(s: System, c: string, o: OwnStep, id: nat)
    requires OwnEnabled(s, c, o) && id in s.commands
    ensures CommandKept(s, OwnNext(s, c, o), id)
  {
  }

  lemma StoreKeepsCommand(s: System, c: string, t: StoreStep, id: nat)
    requires StoreEnabled(s, c, t) && id in s.commands
    requires s.commands.Keys <= s.commandIds && ControllerFits(s, s.controllers[c])
    ensures CommandKept(s, StoreNext(s, c, t), id)
  {
  }

  lemma SendKeepsCommand(s: System, c: string, p: string, r: Request, env: Env, answered: bool, id: nat)
    requires SendEnabled(s, c, p, r) && id in s.commands
    ensures CommandKept(s, SendNext(s, c, p, r, env, answered), id)
  {
  }

  /** Nobody but the operator takes a command away before its backup has been restored. */
  lemma StepKeepsCommand(s: System, e: Event, id: nat)
    requires Inv(s) && Enabled(s, e) && !e.UserDelete? && id in s.commands
    ensures CommandKept(s, Next(s, e), id)
  {
    match e
    case Own(c, o) => OwnKeepsCommand(s, c, o, id);
    case Store(c, t) =>
      assert ControllerFits(s, s.controllers[c]);
      StoreKeepsCommand(s, c, t, id);
    case Send(c, p, r, env, answered) => SendKeepsCommand(s, c, p, r, env, answered, id);
    case _ =>
  }

  /** The operator deletes the last command that names `b`. */
  ghost predicate WithdrawsLast(s: System, e: Event, b: string) {
    Withdraws(s, e, b) && forall other | other in s.commands && s.commands[other] == b :: other == e.id
  }

  lemma StepKeepsRestorable(s: System, e: Event, b: string)
    requires Inv(s) && Enabled(s, e) && Restorable(s, b) && !e.UserDelete? && !e.Cleanup?
    ensures Restorable(Next(s, e), b) || b in Next(s, e).restored
  {
    var id :| id in s.commands && s.commands[id] == b;
    StepKeepsCommand(s, e, id);
    StepGains(s, e);
    StepTakes(s, e, b);
  }

  /** Exactly which steps make a backup that could be restored, or has been, one that neither can nor has
    * been: the deletion of the last command that names it, and a cleanup that does not spare it, as long
    * as it has not been restored. */
  lemma RecoveryExactly(s: System, e: Event, b: string)
    requires Inv(s) && Enabled(s, e) && (Restorable(s, b) || b in s.restored)
    requires e.Cleanup? ==> !Retention.Forgets(e.policy, e.listing, |e.listing|, e.now)
    ensures Restorable(Next(s, e), b) || b in Next(s, e).restored <==>
      b in s.restored || (!WithdrawsLast(s, e, b) && (e.Cleanup? ==> Spares(s, e, b)))
  {
    StepGains(s, e);
    if b !in s.restored {
      if e.UserDelete? {
        if s.commands[e.id] == b {
          DeleteExactly(s, e.id);
        } else {
          var id :| id in s.commands && s.commands[id] == b;
          assert id in Next(s, e).commands;
        }
      } else if e.Cleanup? {
        CleanupExactly(s, e, b);
      } else {
        StepKeepsRestorable(s, e, b);
      }
    }
  }

  // ---------- the theorems ----------

  /** The backup has been restored, and the cluster it was restored into held all of it. */
  predicate WasRestored(s: System, b: string) {
    b in s.restored && b in s.backups && s.backups[b].writes <= Contents(s, s.restored[b])
  }

  /** At every point of every run, whatever stopForUpgrade has stopped can be recovered: its backup is in
    * the store and a restore command names it, or it has been restored, or the operator deleted a
    * command that named it, or a cleanup removed it.  The backup was taken after every member had
    * confirmed its quarantine, and it holds every write to its cluster that the stopped node had
    * acknowledged when it was stopped. */
  lemma UpgradeIsRecoverable(states: seq<System>, events: seq<Event>, i: nat, u: UpgradeStop)
    requires IsRun(states, events) && i < |states| && u in states[i].stops
    ensures u.node in u.members && u.backup in states[i].backups
    ensures var s := states[i];
      && (|| Restorable(s, u.backup) || WasRestored(s, u.backup)
          || u.backup in s.withdrawn || u.backup in s.removed)
      && s.backups[u.backup].quarantined == u.members
      && forall w | w in u.writes && w.cluster == s.backups[u.backup].cluster :: w in s.backups[u.backup].writes
  {
    RunKeeps(states, events, i);
    RunRestored(states, events, i);
    assert StopFits(states[i], u);
  }

  /** A stopForUpgrade that ran to its end stopped every member, after all of them had confirmed
    * their quarantine; and unless the operator deleted a command that named its backup or a cleanup
    * removed it, every write to its cluster that any of them had acknowledged by then is in a backup
    * that can be restored, or in the cluster that the backup was restored into. */
  lemma FinishedUpgradeLosesNothing(states: seq<System>, events: seq<Event>, i: nat, u: UpgradeDone, p: string)
    returns (stop: UpgradeStop)
    requires IsRun(states, events) && i < |states| && u in states[i].upgrades && p in u.members
    ensures stop in states[i].stops && stop.node == p && stop.backup == u.backup && stop.members == u.members
    ensures u.backup in states[i].backups && states[i].backups[u.backup].quarantined == u.members
    ensures var s := states[i];
      u.backup !in s.withdrawn && u.backup !in s.removed ==>
        forall w | w in stop.writes && w.cluster == s.backups[u.backup].cluster ::
          || (Restorable(s, u.backup) && w in s.backups[u.backup].writes)
          || (u.backup in s.restored && w in Contents(s, s.restored[u.backup]))
  {
    RunKeeps(states, events, i);
    assert UpgradeFits(states[i], u);
    assert StoppedFor(states[i], p, u.backup);
    stop :| stop in states[i].stops && stop.node == p && stop.backup == u.backup;
    UpgradeIsRecoverable(states, events, i, stop);
  }
}
