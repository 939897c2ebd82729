/** Any number of controllers driving any number of nodes through the control store and the backup
  * store, as a step system.
  *
  * One step is one request handled at one node, one read or write of a store, one timer, crash or
  * reboot of a node, one crash of a controller, or one write by an etcd client.  A request may be
  * lost before it takes effect, or take effect and lose its reply.  Between two of its steps a
  * controller is interleaved with all others in any way.  A controller that found the created
  * marker may send any request in any order, except while it runs stopForUpgrade or removes the
  * command it restored, whose steps are followed one by one.
  */
module ControlPlane {
  import opened Common
  import opened NodeModel
  import NodeHistory
  import Retention
  import StringOrder

  datatype Phase =
    | Idle
    | Electing(token: string)                                                // BecomeLeader
    | Asserting                                                              // AssertLeadership
    | Asserted                                                               // before the marker is read
    | Creating                                                               // no marker: new-cluster branch
    | Managing                                                               // marker: everything else
    | Quarantining(members: set<string>, done: set<string>)                  // stopForUpgrade, in order
    | Saved(members: set<string>, backup: string)
    | Scheduled(members: set<string>, backup: string)
    | Stopping(members: set<string>, backup: string, stopped: set<string>)
    | Restored(command: nat, backup: string)                                 // DoRestore done, command not removed

  /** `commands` is the controller's cached copy of the restore commands. */
  datatype Controller = Controller(term: Option<string>, phase: Phase, commands: map<nat, string>)

  /** A client write: which etcd cluster it went to, and which write it was. */
  datatype Write = Write(cluster: string, id: nat)

  /** A backup: the cluster and the writes it holds, and the nodes that had confirmed their
    * quarantine to the controller when it was taken. */
  datatype Backup = Backup(cluster: string, writes: set<Write>, quarantined: set<string>)

  /** History: stopForUpgrade of the cluster of `members` stopped `node`, having named `backup`, when
    * the node had acknowledged `writes`. */
  datatype UpgradeStop = UpgradeStop(node: string, members: set<string>, backup: string, writes: set<Write>)

  /** History: stopForUpgrade ran to its end. */
  datatype UpgradeDone = UpgradeDone(members: set<string>, backup: string)

  datatype System = System(
    nodes: map<string, Node>,
    controllers: map<string, Controller>,
    tokens: set<string>,                    // leadership tokens ever drawn
    marker: bool,                           // control store: created marker
    commands: map<nat, string>,             // control store: restore commands, each naming a backup
    commandIds: set<nat>,                   // command files ever written
    backups: map<string, Backup>,           // history: every backup ever taken
    removed: set<string>,                   // those of them that a cleanup has removed from the backup store
    data: map<string, set<Write>>,          // contents of each etcd cluster
    acknowledged: map<string, set<Write>>,  // writes each node has acknowledged to its clients
    restored: map<string, string>,          // history: backups whose restore succeeded, and into which cluster
    withdrawn: set<string>,                 // history: backups whose command the operator deleted
    stops: set<UpgradeStop>,
    upgrades: set<UpgradeDone>)

  /** Steps of a controller that touch nothing but itself, the marker and the histories. */
  datatype OwnStep =
    | Elect(token: string)
    | Elected
    | BeginAssert
    | EndAssert
    | Resign
    | ReadMarker
    | MarkCreated
    | EndCycle
    | Crash
    | Refresh
    | BeginUpgrade(members: set<string>)
    | SeeCommand
    | FinishUpgrade

  /** Steps of a controller at the backup store or the command queue. */
  datatype StoreStep =
    | TakeBackup(p: string, name: string)
    | SaveBackup(p: string, name: string)
    | AddCommand(id: nat, answered: bool)
    | Restore(p: string, id: nat, copied: set<Write>, answered: bool)
    | RemoveCommand

  datatype Event =
    | Own(c: string, own: OwnStep)
    | Store(c: string, store: StoreStep)
    | Notify(c: string, p: string)
    | Send(c: string, p: string, request: Request, env: Env, answered: bool)
    | NodeEvent(p: string, event: NodeHistory.Event)
    | ClientWrite(p: string, id: nat)
    | UserCommand(id: nat, name: string)
    | UserDelete(id: nat)
    | Cleanup(policy: Retention.Policy, listing: seq<string>, now: int, failing: set<string>, left: set<string>)

  // ---------- steps ----------

  /** The requests a controller may send to node `p` in a phase. */
  predicate Allowed(phase: Phase, p: string, r: Request) {
    match phase
    case Creating => r.StopEtcd? || (r.JoinCluster? && (r.phase == Prepare || r.phase == InitialCluster))
    case Managing => true
    case Quarantining(members, done) => p in members - done && r == Reconfigure(r.header, true, "", false)
    case Stopping(members, _, stopped) => p in members - stopped && r.StopEtcd?
    case _ => false
  }

  /** The phase after a reply. */
  function AfterReply(phase: Phase, p: string, reply: Reply): Phase {
    match phase
    case Quarantining(members, done) => if reply == Ok then Quarantining(members, done + {p}) else Idle
    case Stopping(members, backup, stopped) => if reply == Ok then Stopping(members, backup, stopped + {p}) else Idle
    case Creating => if reply == Ok then Creating else Idle
    case _ => phase
  }

  /** A live etcd process. */
  predicate Serving(n: Node) {
    n.process.Some? && !n.process.value.exited
  }

  predicate Known(s: System, c: string, p: string) {
    c in s.controllers && p in s.nodes
  }

  /** Controller `c` is accepted by node `p`, and etcd runs there: DoBackup and DoRestore get through. */
  predicate Reaches(s: System, c: string, p: string) {
    Known(s, c, p) && s.controllers[c].term.Some? && s.nodes[p].leader == s.controllers[c].term && Serving(s.nodes[p])
  }

  predicate OwnEnabled(s: System, c: string, o: OwnStep) {
    && c in s.controllers
    && var ctl := s.controllers[c];
       match o
       case Elect(token) => ctl.phase.Idle? && ctl.term.None? && token !in s.tokens
       case Elected => ctl.phase.Electing?
       case BeginAssert => ctl.phase.Idle? && ctl.term.Some?
       case EndAssert => ctl.phase.Asserting?
       case Resign => ctl.phase.Asserted?
       case ReadMarker => ctl.phase.Asserted?
       case MarkCreated => ctl.phase.Creating?
       case EndCycle => true
       case Crash => true
       case Refresh => true
       case BeginUpgrade(members) => ctl.phase.Managing? && members <= s.nodes.Keys
       case SeeCommand => ctl.phase.Scheduled? && s.commands != map[]
       case FinishUpgrade => ctl.phase.Stopping? && ctl.phase.stopped == ctl.phase.members
  }

  predicate StoreEnabled(s: System, c: string, t: StoreStep) {
    && c in s.controllers
    && var ctl := s.controllers[c];
       match t
       case TakeBackup(p, name) => Reaches(s, c, p) && ctl.phase.Managing? && name !in s.backups
       case SaveBackup(p, name) =>
         && Reaches(s, c, p) && name !in s.backups
         && ctl.phase.Quarantining? && p in ctl.phase.members && ctl.phase.done == ctl.phase.members
       case AddCommand(id, _) => ctl.phase.Saved? && id !in s.commandIds
       case Restore(p, id, copied, answered) =>
         && Reaches(s, c, p) && ctl.phase.Managing? && id in ctl.commands && ctl.commands[id] in InStore(s)
         && var writes := s.backups[ctl.commands[id]].writes; copied <= writes && (answered ==> copied == writes)
       case RemoveCommand => ctl.phase.Restored?
  }

  predicate SendEnabled(s: System, c: string, p: string, r: Request) {
    && Known(s, c, p) && Allowed(s.controllers[c].phase, p, r)
    && s.controllers[c].term == Some(r.header.leadershipToken)
  }

  predicate NotifyEnabled(s: System, c: string, p: string) {
    && Known(s, c, p) && !IsDown(s.nodes[p])
    && var ctl := s.controllers[c];
       ctl.phase.Electing? || (ctl.phase.Asserting? && ctl.term.Some?)
  }

  predicate NodeEventEnabled(s: System, p: string, event: NodeHistory.Event) {
    p in s.nodes && (event.Timer? || event.Exit? || event.Reboot?)
  }

  predicate WriteEnabled(s: System, p: string) {
    p in s.nodes && p in s.acknowledged && Serving(s.nodes[p]) && !s.nodes[p].process.value.quarantined
  }

  predicate UserEnabled(s: System, id: nat, name: string) {
    id !in s.commandIds && name in s.backups
  }

  predicate DeleteEnabled(s: System, id: nat) {
    id in s.commands
  }

  /** The backups in the store. */
  function InStore(s: System): set<string> {
    s.backups.Keys - s.removed
  }

  /** `left` is what a cleanup at `now` leaves in the store.  When it forgets a zero time, which no clock
    * of today does, that may be anything. */
  ghost predicate CleanupEnabled(s: System, policy: Retention.Policy, listing: seq<string>, now: int,
                                 failing: set<string>, left: set<string>) {
    && StringOrder.Sorted(listing) && Retention.Seen(listing, |listing|) == InStore(s) && left <= InStore(s)
    && (!Retention.Forgets(policy, listing, |listing|, now) ==>
          left == Retention.Apply(policy, InStore(s), Retention.Cleanup(now, failing)))
  }

  ghost predicate Enabled(s: System, e: Event) {
    match e
    case Own(c, o) => OwnEnabled(s, c, o)
    case Store(c, t) => StoreEnabled(s, c, t)
    case Notify(c, p) => NotifyEnabled(s, c, p)
    case Send(c, p, r, _, _) => SendEnabled(s, c, p, r)
    case NodeEvent(p, event) => NodeEventEnabled(s, p, event)
    case ClientWrite(p, _) => WriteEnabled(s, p)
    case UserCommand(id, name) => UserEnabled(s, id, name)
    case UserDelete(id) => DeleteEnabled(s, id)
    case Cleanup(policy, listing, now, failing, left) => CleanupEnabled(s, policy, listing, now, failing, left)
  }

  function SetPhase(s: System, c: string, phase: Phase): System
    requires c in s.controllers
  {
    s.(controllers := s.controllers[c := s.controllers[c].(phase := phase)])
  }

  function Contents(s: System, cluster: string): set<Write> {
    if cluster in s.data then s.data[cluster] else {}
  }

  function Acknowledged(s: System, p: string): set<Write> {
    if p in s.acknowledged then s.acknowledged[p] else {}
  }

  /** What a request changes at the node. */
  function AtNode(s: System, c: string, p: string, r: Request, env: Env): System
    requires Known(s, c, p)
  {
    var n := s.nodes[p];
    var n' := Handle(n, r, env).node;
    var phase := s.controllers[c].phase;
    s.(nodes := s.nodes[p := n'],
       stops := if phase.Stopping? && Configured(n) && !Configured(n')
                then s.stops + {UpgradeStop(p, phase.members, phase.backup, Acknowledged(s, p))} else s.stops)
  }

  function OwnNext(s: System, c: string, o: OwnStep): System
    requires OwnEnabled(s, c, o)
  {
    var ctl := s.controllers[c];
    match o
    case Elect(token) => SetPhase(s, c, Electing(token)).(tokens := s.tokens + {token})
    case Elected => s.(controllers := s.controllers[c := Controller(Some(ctl.phase.token), Idle, s.commands)])
    case BeginAssert => SetPhase(s, c, Asserting)
    case EndAssert => SetPhase(s, c, Asserted)
    case Resign => s.(controllers := s.controllers[c := ctl.(term := None, phase := Idle)])
    case ReadMarker => SetPhase(s, c, if s.marker then Managing else Creating)
    case MarkCreated => SetPhase(s, c, Idle).(marker := true)
    case EndCycle => SetPhase(s, c, Idle)
    case Crash => s.(controllers := s.controllers[c := Controller(None, Idle, map[])])
    case Refresh => s.(controllers := s.controllers[c := ctl.(commands := s.commands)])
    case BeginUpgrade(members) => SetPhase(s, c, Quarantining(members, {}))
    case SeeCommand => SetPhase(s, c, Stopping(ctl.phase.members, ctl.phase.backup, {}))
    case FinishUpgrade =>
      SetPhase(s, c, Idle).(upgrades := s.upgrades + {UpgradeDone(ctl.phase.members, ctl.phase.backup)})
  }

  function StoreNext(s: System, c: string, t: StoreStep): System
    requires StoreEnabled(s, c, t)
  {
    var ctl := s.controllers[c];
    match t
    case TakeBackup(p, name) =>
      var cluster := s.nodes[p].process.value.cluster.token;
      s.(backups := s.backups[name := Backup(cluster, Contents(s, cluster), {})])
    case SaveBackup(p, name) =>
      var cluster := s.nodes[p].process.value.cluster.token;
      SetPhase(s, c, Saved(ctl.phase.members, name))
        .(backups := s.backups[name := Backup(cluster, Contents(s, cluster), ctl.phase.members)])
    case AddCommand(id, answered) =>
      SetPhase(s, c, if answered then Scheduled(ctl.phase.members, ctl.phase.backup) else Idle)
        .(commands := s.commands[id := ctl.phase.backup], commandIds := s.commandIds + {id})
    case Restore(p, id, copied, answered) =>
      var cluster := s.nodes[p].process.value.cluster.token;
      SetPhase(s, c, if answered then Restored(id, ctl.commands[id]) else Idle)
        .(data := s.data[cluster := Contents(s, cluster) + copied],
          restored := if answered then s.restored[ctl.commands[id] := cluster] else s.restored)
    case RemoveCommand =>
      s.(commands := s.commands - {ctl.phase.command},
         controllers := s.controllers[c := ctl.(phase := Idle, commands := map[])])
  }

  function NotifyNext(s: System, c: string, p: string): System
    requires NotifyEnabled(s, c, p)
  {
    var ctl := s.controllers[c];
    var token := if ctl.phase.Electing? then ctl.phase.token else ctl.term.value;
    s.(nodes := s.nodes[p := s.nodes[p].(leader := Some(token))])
  }

  function SendNext(s: System, c: string, p: string, r: Request, env: Env, answered: bool): System
    requires SendEnabled(s, c, p, r)
  {
    var reply := Handle(s.nodes[p], r, env).reply;
    SetPhase(AtNode(s, c, p, r, env), c, if answered then AfterReply(s.controllers[c].phase, p, reply) else Idle)
  }

  function NodeEventNext(s: System, p: string, event: NodeHistory.Event): System
    requires NodeEventEnabled(s, p, event)
  {
    s.(nodes := s.nodes[p := NodeHistory.Step(s.nodes[p], event)])
  }

  function WriteNext(s: System, p: string, id: nat): System
    requires WriteEnabled(s, p)
  {
    var w := Write(s.nodes[p].process.value.cluster.token, id);
    s.(data := s.data[w.cluster := Contents(s, w.cluster) + {w}],
       acknowledged := s.acknowledged[p := s.acknowledged[p] + {w}])
  }

  function UserNext(s: System, id: nat, name: string): System {
    s.(commands := s.commands[id := name], commandIds := s.commandIds + {id})
  }

  /** delete-command, one command at a time. */
  function DeleteNext(s: System, id: nat): System
    requires DeleteEnabled(s, id)
  {
    s.(commands := s.commands - {id}, withdrawn := s.withdrawn + {s.commands[id]})
  }

  /** MaybeDoBackupMaintenance, by whichever controller. */
  function CleanupNext(s: System, left: set<string>): System {
    s.(removed := s.removed + (InStore(s) - left))
  }

  ghost function Next(s: System, e: Event): System
    requires Enabled(s, e)
  {
    match e
    case Own(c, o) => OwnNext(s, c, o)
    case Store(c, t) => StoreNext(s, c, t)
    case Notify(c, p) => NotifyNext(s, c, p)
    case Send(c, p, r, env, answered) => SendNext(s, c, p, r, env, answered)
    case NodeEvent(p, event) => NodeEventNext(s, p, event)
    case ClientWrite(p, id) => WriteNext(s, p, id)
    case UserCommand(id, name) => UserNext(s, id, name)
    case UserDelete(id) => DeleteNext(s, id)
    case Cleanup(_, _, _, _, left) => CleanupNext(s, left)
  }

  /** No node is configured, no cluster was ever created, nobody leads. */
  ghost predicate Initial(s: System) {
    && (forall p | p in s.nodes :: s.nodes[p].state.None? && s.nodes[p].process.None? && s.nodes[p].disk.Absent?)
    && (forall p | p in s.nodes :: s.nodes[p].leader.None?)
    && (forall c | c in s.controllers :: s.controllers[c] == Controller(None, Idle, map[]))
    && s.tokens == {} && !s.marker && s.commands == map[] && s.commandIds == {}
    && s.acknowledged == (map p | p in s.nodes :: {})
    && s.removed == {} && s.withdrawn == {} && s.data == map[] && s.restored == map[]
    && s.stops == {} && s.upgrades == {}
  }

  /** The event leads from `s` to `s'`. */
  ghost predicate Takes(s: System, e: Event, s': System) {
    Enabled(s, e) && s' == Next(s, e)
  }

  ghost predicate IsRun(states: seq<System>, events: seq<Event>) {
    && |states| == |events| + 1
    && Initial(states[0])
    && forall i | 0 <= i < |events| :: Takes(states[i], events[i], states[i + 1])
  }

  // ---------- what every step keeps ----------

  /** The tokens a controller holds or is bidding with. */
  function OwnTokens(c: Controller): set<string> {
    (if c.term.Some? then {c.term.value} else {}) + (if c.phase.Electing? then {c.phase.token} else {})
  }

  /** No two controllers share a token. */
  ghost predicate TokensDiffer(s: System) {
    forall c, d | c in s.controllers && d in s.controllers && c != d ::
      OwnTokens(s.controllers[c]) !! OwnTokens(s.controllers[d])
  }

  predicate ReleasedOnDisk(n: Node) {
    n.disk.Stored? && n.disk.state.cluster.Some? && !n.disk.state.quarantined
  }

  /** The node is sound, and closed to clients until the created marker is written. */
  ghost predicate NodeFits(n: Node, marker: bool) {
    NodeHistory.Valid(n) && (Released(n) || ReleasedOnDisk(n) ==> marker)
  }

  /** The nodes that a controller in the middle of its work relies on being closed to clients. */
  function Guarded(s: System, phase: Phase): set<string> {
    match phase
    case Creating => s.nodes.Keys
    case Quarantining(members, done) => done
    case Saved(members, _) => members
    case Scheduled(members, _) => members
    case Stopping(members, _, _) => members
    case _ => {}
  }

  predicate HasBackup(phase: Phase) {
    phase.Saved? || phase.Scheduled? || phase.Stopping?
  }

  /** The writes of backup `b`'s cluster that node `p` has acknowledged. */
  function Owed(s: System, p: string, b: Backup): set<Write> {
    set w | w in Acknowledged(s, p) && w.cluster == b.cluster
  }

  /** As long as a guarded node still answers to the controller it is closed, and a backup made for
    * an upgrade lacks no write it has acknowledged. */
  ghost predicate GuardHolds(s: System, c: Controller) {
    forall p | p in Guarded(s, c.phase) && p in s.nodes && s.nodes[p].leader == c.term ::
      && !Released(s.nodes[p])
      && (HasBackup(c.phase) && c.phase.backup in s.backups ==>
            Owed(s, p, s.backups[c.phase.backup]) <= s.backups[c.phase.backup].writes)
  }

  /** A restore command names the backup. */
  ghost predicate Pending(s: System, backup: string) {
    exists id :: id in s.commands && s.commands[id] == backup
  }

  /** The backup can still be, or has been, restored, unless the operator took its command away. */
  ghost predicate Recoverable(s: System, backup: string) {
    Pending(s, backup) || backup in s.restored || backup in s.withdrawn
  }

  /** Command `id`, if it is still there, names `backup`. */
  ghost predicate Names(s: System, id: nat, backup: string) {
    id in s.commandIds && (id in s.commands ==> s.commands[id] == backup)
  }

  ghost predicate ControllerFits(s: System, c: Controller) {
    && OwnTokens(c) <= s.tokens
    && (c.phase.Electing? ==> c.term.None?)
    && (c.phase.Idle? || c.phase.Electing? || c.term.Some?)
    && (c.phase.Idle? || c.phase.Electing? || c.phase.Asserting? || c.phase.Asserted? || c.phase.Creating? || s.marker)
    && (HasBackup(c.phase) ==> c.phase.backup in s.backups && s.backups[c.phase.backup].quarantined == c.phase.members)
    && GuardHolds(s, c)
    && (forall id | id in c.commands :: Names(s, id, c.commands[id]))
    && (c.phase.Restored? ==> c.phase.backup in s.restored && Names(s, c.phase.command, c.phase.backup))
    && (c.phase.Scheduled? || c.phase.Stopping? ==> Recoverable(s, c.phase.backup))
    && (c.phase.Stopping? ==> forall p | p in c.phase.stopped :: StoppedFor(s, p, c.phase.backup))
  }

  ghost predicate StoppedFor(s: System, p: string, backup: string) {
    exists u :: u in s.stops && u.node == p && u.backup == backup
  }

  /** Everything stopForUpgrade has stopped can be recovered, and nothing it acknowledged is missing. */
  ghost predicate StopFits(s: System, u: UpgradeStop) {
    && Recoverable(s, u.backup) && u.backup in s.backups
    && u.node in u.members && s.backups[u.backup].quarantined == u.members
    && forall w | w in u.writes && w.cluster == s.backups[u.backup].cluster :: w in s.backups[u.backup].writes
  }

  ghost predicate UpgradeFits(s: System, u: UpgradeDone) {
    && u.backup in s.backups && s.backups[u.backup].quarantined == u.members
    && forall p | p in u.members :: StoppedFor(s, p, u.backup)
  }

  ghost predicate StoresFit(s: System) {
    && s.commands.Keys <= s.commandIds
    && (forall p, w | p in s.nodes && w in Acknowledged(s, p) :: w in Contents(s, w.cluster))
    && (forall u | u in s.stops :: StopFits(s, u))
    && (forall u | u in s.upgrades :: UpgradeFits(s, u))
  }

  ghost predicate Inv(s: System) {
    && TokensDiffer(s)
    && (forall p | p in s.nodes :: NodeFits(s.nodes[p], s.marker))
    && (forall c | c in s.controllers :: ControllerFits(s, s.controllers[c]))
    && StoresFit(s)
  }

  // ---------- how steps relate to controllers that do not take them ----------

  /** Stores only gain, except that a command goes away once its backup has been restored or the
    * operator deletes it. */
  ghost predicate Extends(s: System, s': System) {
    && s'.nodes.Keys == s.nodes.Keys && s.tokens <= s'.tokens && (s.marker ==> s'.marker)
    && s.restored.Keys <= s'.restored.Keys && s.withdrawn <= s'.withdrawn && s.stops <= s'.stops
    && s.commandIds <= s'.commandIds
    && (forall b | b in s.backups :: b in s'.backups && s'.backups[b] == s.backups[b])
    && (forall id | id in s.commandIds && id in s'.commands :: id in s.commands && s'.commands[id] == s.commands[id])
    && (forall id | id in s.commands && id !in s'.commands ::
          s.commands[id] in s'.restored || s.commands[id] in s'.withdrawn)
  }

  /** A node that answers to `term` already did, and if it was closed then it still is and has
    * acknowledged nothing new. */
  ghost predicate Undisturbed(s: System, s': System, term: Option<string>) {
    forall p | p in s.nodes && p in s'.nodes && s'.nodes[p].leader == term ::
      && s.nodes[p].leader == term
      && (Released(s.nodes[p]) || (!Released(s'.nodes[p]) && Acknowledged(s', p) == Acknowledged(s, p)))
  }

  lemma RecoverableKept(s: System, s': System, backup: string)
    requires Extends(s, s') && s.commands.Keys <= s.commandIds && Recoverable(s, backup)
    ensures Recoverable(s', backup)
  {
  }

  lemma GuardKept(s: System, s': System, c: Controller)
    requires GuardHolds(s, c) && Extends(s, s') && Undisturbed(s, s', c.term)
    requires HasBackup(c.phase) ==> c.phase.backup in s.backups
    ensures GuardHolds(s', c)
  {
  }

  lemma ControllerKept(s: System, s': System, c: Controller)
    requires ControllerFits(s, c) && s.commands.Keys <= s.commandIds && Extends(s, s')
    requires c.term.Some? ==> Undisturbed(s, s', c.term)
    ensures ControllerFits(s', c)
  {
    if c.term.Some? {
      GuardKept(s, s', c);
    }
    if c.phase.Scheduled? || c.phase.Stopping? {
      RecoverableKept(s, s', c.phase.backup);
    }
    if c.phase.Stopping? {
      forall p | p in c.phase.stopped ensures StoppedFor(s', p, c.phase.backup) {
        assert StoppedFor(s, p, c.phase.backup);
      }
    }
  }

  lemma StopsKept(s: System, s': System)
    requires StoresFit(s) && Extends(s, s')
    ensures forall u | u in s.stops :: StopFits(s', u)
  {
  }

  lemma UpgradesKept(s: System, s': System)
    requires StoresFit(s) && Extends(s, s')
    ensures forall u | u in s.upgrades :: UpgradeFits(s', u)
  {
  }

  /** All but controller `c` are as before and undisturbed. */
  ghost predicate OthersKeep(s: System, s': System, c: string) {
    && s'.controllers.Keys == s.controllers.Keys
    && (forall d | d in s.controllers && d != c ::
          && s'.controllers[d] == s.controllers[d]
          && (s.controllers[d].term.Some? ==> Undisturbed(s, s', s.controllers[d].term)))
    && (c in s.controllers ==> OwnTokens(s'.controllers[c]) <= OwnTokens(s.controllers[c]) + (s'.tokens - s.tokens))
  }

  lemma OtherFits(s: System, s': System, c: string, d: string)
    requires Inv(s) && Extends(s, s') && OthersKeep(s, s', c) && d in s'.controllers && d != c
    ensures ControllerFits(s', s'.controllers[d])
  {
    assert ControllerFits(s, s.controllers[d]);
    ControllerKept(s, s', s.controllers[d]);
  }

  lemma Assemble(s: System, s': System, c: string)
    requires Inv(s) && Extends(s, s') && OthersKeep(s, s', c)
    requires c in s.controllers ==> ControllerFits(s', s'.controllers[c])
    requires forall p | p in s'.nodes :: NodeFits(s'.nodes[p], s'.marker)
    requires StoresFit(s')
    ensures Inv(s')
  {
    forall d | d in s'.controllers ensures ControllerFits(s', s'.controllers[d]) {
      if d != c {
        OtherFits(s, s', c, d);
      }
    }
    forall d, d' | d in s'.controllers && d' in s'.controllers && d != d'
      ensures OwnTokens(s'.controllers[d]) !! OwnTokens(s'.controllers[d'])
    {
      assert ControllerFits(s, s.controllers[d]) && ControllerFits(s, s.controllers[d']);
      assert OwnTokens(s.controllers[d]) !! OwnTokens(s.controllers[d']);
    }
  }

  // ---------- steps of a controller on its own ----------

  /** `s'` is `s` but for controller `c` and new tokens, marker and finished upgrades. */
  ghost predicate OnlyController(s: System, s': System, c: string) {
    && c in s.controllers && c in s'.controllers
    && s' == s.(controllers := s.controllers[c := s'.controllers[c]], tokens := s'.tokens, marker := s'.marker,
                upgrades := s'.upgrades)
    && s.tokens <= s'.tokens && (s.marker ==> s'.marker) && s.upgrades <= s'.upgrades
  }

  lemma LocalExtends(s: System, s': System, c: string, term: Option<string>)
    requires OnlyController(s, s', c)
    ensures Extends(s, s') && Undisturbed(s, s', term)
  {
  }

  lemma LocalStores(s: System, s': System, c: string)
    requires StoresFit(s) && OnlyController(s, s', c)
    requires forall u | u in s'.upgrades && u !in s.upgrades :: UpgradeFits(s', u)
    ensures StoresFit(s')
  {
  }

  lemma LocalStep(s: System, s': System, c: string)
    requires Inv(s) && OnlyController(s, s', c)
    requires ControllerFits(s', s'.controllers[c])
    requires OwnTokens(s'.controllers[c]) <= OwnTokens(s.controllers[c]) + (s'.tokens - s.tokens)
    requires forall u | u in s'.upgrades && u !in s.upgrades :: UpgradeFits(s', u)
    ensures Inv(s')
  {
    LocalStores(s, s', c);
    forall d | d in s.controllers ensures Extends(s, s') && Undisturbed(s, s', s.controllers[d].term) {
      LocalExtends(s, s', c, s.controllers[d].term);
    }
    assert forall p | p in s.nodes :: NodeFits(s.nodes[p], s.marker);
    Assemble(s, s', c);
  }

  lemma NamesKept(s: System, s': System, c: string)
    requires c in s.controllers && ControllerFits(s, s.controllers[c])
    requires s'.commands == s.commands && s'.commandIds == s.commandIds
    ensures forall id | id in s.controllers[c].commands :: Names(s', id, s.controllers[c].commands[id])
  {
  }

  lemma ElectKeeps(s: System, c: string, token: string)
    requires Inv(s) && OwnEnabled(s, c, Elect(token))
    ensures Inv(OwnNext(s, c, Elect(token)))
  {
    var s' := OwnNext(s, c, Elect(token));
    NamesKept(s, s', c);
    LocalStep(s, s', c);
  }

  lemma ElectedKeeps(s: System, c: string)
    requires Inv(s) && OwnEnabled(s, c, Elected)
    ensures Inv(OwnNext(s, c, Elected))
  {
    var s' := OwnNext(s, c, Elected);
    assert ControllerFits(s, s.controllers[c]);
    LocalStep(s, s', c);
  }

  lemma AssertPhasesKeep(s: System, c: string, o: OwnStep)
    requires Inv(s) && OwnEnabled(s, c, o) && (o.BeginAssert? || o.EndAssert? || o.Resign?)
    ensures Inv(OwnNext(s, c, o))
  {
    var s' := OwnNext(s, c, o);
    assert ControllerFits(s, s.controllers[c]);
    NamesKept(s, s', c);
    LocalStep(s, s', c);
  }

  lemma ReadMarkerKeeps(s: System, c: string)
    requires Inv(s) && OwnEnabled(s, c, ReadMarker)
    ensures Inv(OwnNext(s, c, ReadMarker))
  {
    var s' := OwnNext(s, c, ReadMarker);
    assert ControllerFits(s, s.controllers[c]);
    NamesKept(s, s', c);
    forall p | p in s'.nodes && !s.marker ensures !Released(s'.nodes[p]) {
      assert NodeFits(s.nodes[p], s.marker);
    }
    LocalStep(s, s', c);
  }

  lemma CycleEndKeeps(s: System, c: string, o: OwnStep)
    requires Inv(s) && OwnEnabled(s, c, o) && (o.MarkCreated? || o.EndCycle? || o.Crash?)
    ensures Inv(OwnNext(s, c, o))
  {
    var s' := OwnNext(s, c, o);
    assert ControllerFits(s, s.controllers[c]);
    NamesKept(s, s', c);
    LocalStep(s, s', c);
  }

  lemma RefreshFits(s: System, s': System, c: string)
    requires c in s.controllers && ControllerFits(s, s.controllers[c]) && s.commands.Keys <= s.commandIds
    requires s' == s.(controllers := s.controllers[c := s.controllers[c].(commands := s.commands)])
    ensures ControllerFits(s', s'.controllers[c])
  {
    var before, after := s.controllers[c], s'.controllers[c];
    LocalExtends(s, s', c, before.term);
    ControllerKept(s, s', before);
    assert GuardHolds(s', after) by {
      assert GuardHolds(s', before) && Guarded(s', after.phase) == Guarded(s', before.phase);
    }
  }

  lemma RefreshKeeps(s: System, c: string)
    requires Inv(s) && OwnEnabled(s, c, Refresh)
    ensures Inv(OwnNext(s, c, Refresh))
  {
    var s' := OwnNext(s, c, Refresh);
    RefreshFits(s, s', c);
    LocalStep(s, s', c);
  }

  lemma SeeCommandFits(s: System, c: string)
    requires OwnEnabled(s, c, SeeCommand) && ControllerFits(s, s.controllers[c]) && s.commands.Keys <= s.commandIds
    ensures var s' := OwnNext(s, c, SeeCommand); ControllerFits(s', s'.controllers[c])
  {
  }

  lemma SeeCommandKeeps(s: System, c: string)
    requires Inv(s) && OwnEnabled(s, c, SeeCommand)
    ensures Inv(OwnNext(s, c, SeeCommand))
  {
    assert ControllerFits(s, s.controllers[c]);
    SeeCommandFits(s, c);
    LocalStep(s, OwnNext(s, c, SeeCommand), c);
  }

  lemma BeginUpgradeKeeps(s: System, c: string, members: set<string>)
    requires Inv(s) && OwnEnabled(s, c, BeginUpgrade(members))
    ensures Inv(OwnNext(s, c, BeginUpgrade(members)))
  {
    var s' := OwnNext(s, c, BeginUpgrade(members));
    assert ControllerFits(s, s.controllers[c]);
    NamesKept(s, s', c);
    LocalStep(s, s', c);
  }

  lemma FinishKeeps(s: System, c: string)
    requires Inv(s) && OwnEnabled(s, c, FinishUpgrade)
    ensures Inv(OwnNext(s, c, FinishUpgrade))
  {
    var s' := OwnNext(s, c, FinishUpgrade);
    var phase := s.controllers[c].phase;
    assert ControllerFits(s, s.controllers[c]);
    NamesKept(s, s', c);
    forall p | p in phase.members ensures StoppedFor(s', p, phase.backup) {
      assert StoppedFor(s, p, phase.backup);
    }
    LocalStep(s, s', c);
  }

  // ---------- steps at a node ----------

  /** `s'` is `s` but for node `p`, controller `c` and new stops. */
  ghost predicate OnlyNode(s: System, s': System, p: string, c: string) {
    && p in s.nodes && p in s'.nodes && s'.controllers.Keys == s.controllers.Keys
    && s' == s.(nodes := s.nodes[p := s'.nodes[p]], stops := s'.stops, controllers := s'.controllers)
    && s.stops <= s'.stops
    && (forall d | d in s.controllers && d != c :: s'.controllers[d] == s.controllers[d])
    && (c in s.controllers ==> OwnTokens(s'.controllers[c]) <= OwnTokens(s.controllers[c]))
  }

  /** From the point of view of a controller with token `term`, the change of the node is harmless. */
  predicate Harmless(n: Node, n': Node, term: string) {
    n'.leader == Some(term) ==> n.leader == Some(term) && (Released(n') ==> Released(n))
  }

  lemma HarmlessUndisturbed(s: System, s': System, p: string, c: string, term: string)
    requires OnlyNode(s, s', p, c) && Harmless(s.nodes[p], s'.nodes[p], term)
    ensures Undisturbed(s, s', Some(term)) && Extends(s, s')
  {
  }

  lemma NodeStep(s: System, s': System, p: string, c: string)
    requires Inv(s) && OnlyNode(s, s', p, c) && NodeFits(s'.nodes[p], s.marker)
    requires forall d | d in s.controllers && d != c && s.controllers[d].term.Some? ::
               Harmless(s.nodes[p], s'.nodes[p], s.controllers[d].term.value)
    requires c in s.controllers ==> ControllerFits(s', s'.controllers[c])
    requires forall u | u in s'.stops && u !in s.stops :: StopFits(s', u)
    ensures Inv(s')
  {
    forall d | d in s.controllers && d != c && s.controllers[d].term.Some?
      ensures Undisturbed(s, s', s.controllers[d].term)
    {
      HarmlessUndisturbed(s, s', p, c, s.controllers[d].term.value);
    }
    assert forall q | q in s'.nodes && q != p :: NodeFits(s.nodes[q], s.marker);
    StopsKept(s, s');
    UpgradesKept(s, s');
    assert StoresFit(s') by {
      forall q, w | q in s'.nodes && w in Acknowledged(s', q) ensures w in Contents(s', w.cluster) {
        assert w in Acknowledged(s, q);
        assert w in Contents(s, w.cluster);
      }
    }
    Assemble(s, s', c);
  }

  lemma NotifyKeeps(s: System, c: string, p: string)
    requires Inv(s) && NotifyEnabled(s, c, p)
    ensures Inv(NotifyNext(s, c, p))
  {
    var s' := NotifyNext(s, c, p);
    var ctl := s.controllers[c];
    assert ControllerFits(s, ctl);
    NamesKept(s, s', c);
    var token := s'.nodes[p].leader.value;
    assert token in OwnTokens(ctl);
    forall d | d in s.controllers && d != c && s.controllers[d].term.Some?
      ensures Harmless(s.nodes[p], s'.nodes[p], s.controllers[d].term.value)
    {
      assert OwnTokens(ctl) !! OwnTokens(s.controllers[d]);
      assert s.controllers[d].term.value in OwnTokens(s.controllers[d]);
    }
    assert NodeFits(s.nodes[p], s.marker);
    NodeStep(s, s', p, c);
  }

  lemma TimerAtNode(n: Node, event: NodeHistory.Event, marker: bool, term: string)
    requires NodeFits(n, marker) && (event.Timer? || event.Exit? || event.Reboot?)
    ensures NodeFits(NodeHistory.Step(n, event), marker) && Harmless(n, NodeHistory.Step(n, event), term)
  {
  }

  lemma NodeEventKeeps(s: System, p: string, event: NodeHistory.Event)
    requires Inv(s) && NodeEventEnabled(s, p, event)
    ensures Inv(NodeEventNext(s, p, event))
  {
    var s' := NodeEventNext(s, p, event);
    assert NodeFits(s.nodes[p], s.marker);
    TimerAtNode(s.nodes[p], event, s.marker, "");
    forall d | d in s.controllers && s.controllers[d].term.Some?
      ensures Harmless(s.nodes[p], s'.nodes[p], s.controllers[d].term.value)
    {
      TimerAtNode(s.nodes[p], event, s.marker, s.controllers[d].term.value);
    }
    if p in s.controllers {  // a controller shares the name of its node
      assert ControllerFits(s, s.controllers[p]);
      if s.controllers[p].term.Some? {
        HarmlessUndisturbed(s, s', p, p, s.controllers[p].term.value);
      }
      ControllerKept(s, s', s.controllers[p]);
    }
    NodeStep(s, s', p, p);
  }

  /** A request that can open a node to clients. */
  predicate Opens(r: Request) {
    (r.Reconfigure? && !r.quarantined) || (r.JoinCluster? && r.phase == JoinExisting)
  }

  lemma JoinAtNode(n: Node, r: Request, env: Env)
    requires r.JoinCluster?
    ensures var n' := HandleJoin(n, r, env).node;
      && n'.leader == n.leader && (n.leader != Some(r.header.leadershipToken) ==> n' == n)
      && (r.phase != JoinExisting && Released(n') ==> Released(n))
      && (r.phase != JoinExisting && ReleasedOnDisk(n') ==> ReleasedOnDisk(n))
  {
  }

  /** What a request can do to a node, seen from outside. */
  lemma RequestAtNode(n: Node, r: Request, env: Env)
    requires NodeHistory.Valid(n)
    ensures var o := Handle(n, r, env);
      && NodeHistory.Valid(o.node) && o.node.leader == n.leader
      && (n.leader != Some(r.header.leadershipToken) ==> o.node == n)
      && (!Opens(r) && Released(o.node) ==> Released(n))
      && (!Opens(r) && ReleasedOnDisk(o.node) ==> ReleasedOnDisk(n) || Released(n))
      && (r.Reconfigure? && r.quarantined && o.reply == Ok ==> !Released(o.node))
      && (r.StopEtcd? && o.reply == Ok ==> Configured(n) && !Configured(o.node))
  {
    NodeHistory.StepKeepsValid(n, NodeHistory.Request(r, env));
    if r.JoinCluster? {
      JoinAtNode(n, r, env);
    }
  }

  /** Another controller is not affected: its nodes refuse the request. */
  lemma OtherTermsHarmless(s: System, c: string, d: string, n: Node, r: Request, env: Env)
    requires Inv(s) && c in s.controllers && d in s.controllers && c != d
    requires s.controllers[c].term == Some(r.header.leadershipToken) && s.controllers[d].term.Some?
    requires NodeHistory.Valid(n)
    ensures Harmless(n, Handle(n, r, env).node, s.controllers[d].term.value)
  {
    RequestAtNode(n, r, env);
    assert OwnTokens(s.controllers[c]) !! OwnTokens(s.controllers[d]);
    assert s.controllers[c].term.value in OwnTokens(s.controllers[c]);
    assert s.controllers[d].term.value in OwnTokens(s.controllers[d]);
  }

  /** A stop of stopForUpgrade that takes effect: the node still answered to the controller. */
  lemma StopRecorded(s: System, c: string, p: string, r: Request, env: Env)
    requires Inv(s) && SendEnabled(s, c, p, r) && s.controllers[c].phase.Stopping?
    requires Configured(s.nodes[p]) && !Configured(Handle(s.nodes[p], r, env).node)
    ensures var s1 := AtNode(s, c, p, r, env);
      StopFits(s1, UpgradeStop(p, s.controllers[c].phase.members, s.controllers[c].phase.backup, Acknowledged(s, p)))
  {
    var ctl := s.controllers[c];
    assert ControllerFits(s, ctl) && NodeFits(s.nodes[p], s.marker);
    RequestAtNode(s.nodes[p], r, env);
    var s1 := AtNode(s, c, p, r, env);
    assert Recoverable(s1, ctl.phase.backup);
    var b := s.backups[ctl.phase.backup];
    forall w | w in Acknowledged(s, p) && w.cluster == b.cluster ensures w in b.writes {
      assert w in Owed(s, p, b);
    }
  }

  lemma SendNodeFits(s: System, c: string, p: string, r: Request, env: Env)
    requires Inv(s) && SendEnabled(s, c, p, r)
    ensures NodeFits(Handle(s.nodes[p], r, env).node, s.marker)
  {
    assert ControllerFits(s, s.controllers[c]) && NodeFits(s.nodes[p], s.marker);
    RequestAtNode(s.nodes[p], r, env);
  }

  /** The sender itself, before it looks at the reply. */
  lemma SenderKept(s: System, c: string, p: string, r: Request, env: Env)
    requires Inv(s) && SendEnabled(s, c, p, r) && !Opens(r)
    ensures ControllerFits(AtNode(s, c, p, r, env), s.controllers[c])
  {
    var s1 := AtNode(s, c, p, r, env);
    assert ControllerFits(s, s.controllers[c]) && NodeFits(s.nodes[p], s.marker);
    RequestAtNode(s.nodes[p], r, env);
    HarmlessUndisturbed(s, s1, p, c, s.controllers[c].term.value);
    ControllerKept(s, s1, s.controllers[c]);
  }

  /** The sender, having moved to `phase`, fits a state that differs from `s1` in that controller only. */
  lemma FitsElsewhere(s1: System, s': System, c: Controller)
    requires ControllerFits(s1, c) && s' == s1.(controllers := s'.controllers)
    ensures ControllerFits(s', c)
  {
  }

  lemma QuarantineConfirmed(s1: System, c: Controller, p: string)
    requires ControllerFits(s1, c) && c.phase.Quarantining? && p in s1.nodes && !Released(s1.nodes[p])
    ensures ControllerFits(s1, c.(phase := Quarantining(c.phase.members, c.phase.done + {p})))
  {
  }

  lemma StopConfirmed(s1: System, c: Controller, p: string)
    requires ControllerFits(s1, c) && c.phase.Stopping? && StoppedFor(s1, p, c.phase.backup)
    ensures ControllerFits(s1, c.(phase := Stopping(c.phase.members, c.phase.backup, c.phase.stopped + {p})))
  {
  }

  /** The sender once it has seen a good reply. */
  lemma ReplyFits(s: System, c: string, p: string, r: Request, env: Env)
    requires Inv(s) && SendEnabled(s, c, p, r) && !Opens(r) && Handle(s.nodes[p], r, env).reply == Ok
    ensures var ctl := s.controllers[c];
      ControllerFits(AtNode(s, c, p, r, env), ctl.(phase := AfterReply(ctl.phase, p, Ok)))
  {
    var ctl := s.controllers[c];
    var s1 := AtNode(s, c, p, r, env);
    SenderKept(s, c, p, r, env);
    assert NodeFits(s.nodes[p], s.marker);
    RequestAtNode(s.nodes[p], r, env);
    if ctl.phase.Quarantining? {
      QuarantineConfirmed(s1, ctl, p);
    } else if ctl.phase.Stopping? {
      assert UpgradeStop(p, ctl.phase.members, ctl.phase.backup, Acknowledged(s, p)) in s1.stops;
      assert StoppedFor(s1, p, ctl.phase.backup);
      StopConfirmed(s1, ctl, p);
    }
  }

  lemma SenderFits(s: System, c: string, p: string, r: Request, env: Env, answered: bool)
    requires Inv(s) && SendEnabled(s, c, p, r)
    ensures var s' := SendNext(s, c, p, r, env, answered); ControllerFits(s', s'.controllers[c])
  {
    var s' := SendNext(s, c, p, r, env, answered);
    var ctl' := s'.controllers[c];
    assert ControllerFits(s, s.controllers[c]);
    if ctl'.phase.Idle? || ctl'.phase.Managing? {
      NamesKept(s, s', c);
    } else {
      ReplyFits(s, c, p, r, env);
      FitsElsewhere(AtNode(s, c, p, r, env), s', ctl');
    }
  }

  lemma SendStopsFit(s: System, c: string, p: string, r: Request, env: Env, answered: bool)
    requires Inv(s) && SendEnabled(s, c, p, r)
    ensures var s' := SendNext(s, c, p, r, env, answered); forall u | u in s'.stops && u !in s.stops :: StopFits(s', u)
  {
    var s' := SendNext(s, c, p, r, env, answered);
    forall u | u in s'.stops && u !in s.stops ensures StopFits(s', u) {
      StopRecorded(s, c, p, r, env);
      var s1 := AtNode(s, c, p, r, env);
      assert StopFits(s1, u);
      assert Recoverable(s', u.backup);
    }
  }

  lemma SendKeeps(s: System, c: string, p: string, r: Request, env: Env, answered: bool)
    requires Inv(s) && SendEnabled(s, c, p, r)
    ensures Inv(SendNext(s, c, p, r, env, answered))
  {
    var s' := SendNext(s, c, p, r, env, answered);
    assert NodeFits(s.nodes[p], s.marker);
    SendNodeFits(s, c, p, r, env);
    SenderFits(s, c, p, r, env, answered);
    SendStopsFit(s, c, p, r, env, answered);
    forall d | d in s.controllers && d != c && s.controllers[d].term.Some?
      ensures Harmless(s.nodes[p], s'.nodes[p], s.controllers[d].term.value)
    {
      OtherTermsHarmless(s, c, d, s.nodes[p], r, env);
    }
    NodeStep(s, s', p, c);
  }

  // ---------- steps at a store ----------

  /** Nodes and histories are as before; the contents of clusters only grow. */
  ghost predicate OnlyStores(s: System, s': System, c: string) {
    && s'.nodes == s.nodes && s'.stops == s.stops && s'.upgrades == s.upgrades && s'.tokens == s.tokens
    && s'.marker == s.marker
    && s'.acknowledged == s.acknowledged && s'.commands.Keys <= s'.commandIds
    && (forall t :: Contents(s, t) <= Contents(s', t))
    && s'.controllers.Keys == s.controllers.Keys
    && (forall d | d in s.controllers && d != c :: s'.controllers[d] == s.controllers[d])
    && (c in s.controllers ==> OwnTokens(s'.controllers[c]) <= OwnTokens(s.controllers[c]))
  }

  lemma StoresStep(s: System, s': System, c: string)
    requires Inv(s) && Extends(s, s') && OnlyStores(s, s', c)
    requires c in s.controllers ==> ControllerFits(s', s'.controllers[c])
    ensures Inv(s')
  {
    assert forall p | p in s.nodes :: Acknowledged(s', p) == Acknowledged(s, p) && NodeFits(s.nodes[p], s.marker);
    assert StoresFit(s') by {
      StopsKept(s, s');
      UpgradesKept(s, s');
      forall p, w | p in s'.nodes && w in Acknowledged(s', p) ensures w in Contents(s', w.cluster) {
        assert w in Contents(s, w.cluster);
      }
    }
    Assemble(s, s', c);
  }

  lemma ClientWriteExtends(s: System, p: string, id: nat, term: Option<string>)
    requires WriteEnabled(s, p) && NodeHistory.Valid(s.nodes[p])
    ensures var s' := WriteNext(s, p, id);
      && Extends(s, s') && Undisturbed(s, s', term) && s'.nodes == s.nodes
      && forall q, w | w in Acknowledged(s', q) :: w in Acknowledged(s, q) || w in Contents(s', w.cluster)
    ensures forall t :: Contents(s, t) <= Contents(WriteNext(s, p, id), t)
  {
  }

  lemma ClientWriteKeeps(s: System, p: string, id: nat)
    requires Inv(s) && WriteEnabled(s, p)
    ensures Inv(WriteNext(s, p, id))
  {
    var s' := WriteNext(s, p, id);
    assert NodeFits(s.nodes[p], s.marker);
    ClientWriteExtends(s, p, id, None);
    forall c | c in s.controllers ensures ControllerFits(s', s.controllers[c]) {
      assert ControllerFits(s, s.controllers[c]);
      ClientWriteExtends(s, p, id, s.controllers[c].term);
      ControllerKept(s, s', s.controllers[c]);
    }
    StopsKept(s, s');
    UpgradesKept(s, s');
    forall q, w | q in s'.nodes && w in Acknowledged(s', q) ensures w in Contents(s', w.cluster) {
      assert w in Acknowledged(s, q) ==> w in Contents(s, w.cluster);
    }
  }

  lemma TakeBackupKeeps(s: System, c: string, p: string, name: string)
    requires Inv(s) && StoreEnabled(s, c, TakeBackup(p, name))
    ensures Inv(StoreNext(s, c, TakeBackup(p, name)))
  {
    var s' := StoreNext(s, c, TakeBackup(p, name));
    assert ControllerFits(s, s.controllers[c]);
    NamesKept(s, s', c);
    StoresStep(s, s', c);
  }

  /** The backup is taken when all members have confirmed quarantine; the ones that still answer
    * have acknowledged nothing that is not in the cluster's contents. */
  lemma SaveBackupFits(s: System, c: string, p: string, name: string)
    requires StoreEnabled(s, c, SaveBackup(p, name)) && ControllerFits(s, s.controllers[c]) && StoresFit(s)
    ensures var s' := StoreNext(s, c, SaveBackup(p, name));
      Extends(s, s') && OnlyStores(s, s', c) && ControllerFits(s', s'.controllers[c])
  {
    var s' := StoreNext(s, c, SaveBackup(p, name));
    var ctl, ctl' := s.controllers[c], s'.controllers[c];
    NamesKept(s, s', c);
    var b := s'.backups[name];
    forall q | q in Guarded(s', ctl'.phase) && q in s'.nodes && s'.nodes[q].leader == ctl'.term
      ensures !Released(s'.nodes[q]) && Owed(s', q, b) <= b.writes
    {
      assert q in Guarded(s, ctl.phase);
      forall w | w in Owed(s', q, b) ensures w in b.writes {
        assert w in Acknowledged(s, q);
      }
    }
  }

  lemma SaveBackupKeeps(s: System, c: string, p: string, name: string)
    requires Inv(s) && StoreEnabled(s, c, SaveBackup(p, name))
    ensures Inv(StoreNext(s, c, SaveBackup(p, name)))
  {
    SaveBackupFits(s, c, p, name);
    StoresStep(s, StoreNext(s, c, SaveBackup(p, name)), c);
  }

  /** Stores for which `Extends` holds by inspection. */
  lemma CommandAdded(s: System, s': System, id: nat, backup: string)
    requires id !in s.commandIds && s.commands.Keys <= s.commandIds
    requires s' == s.(commands := s.commands[id := backup], commandIds := s.commandIds + {id},
                      controllers := s'.controllers)
    ensures Extends(s, s') && Recoverable(s', backup)
    ensures forall term :: Undisturbed(s, s', term)
  {
    assert s'.commands[id] == backup;
    assert forall p :: Acknowledged(s', p) == Acknowledged(s, p);
  }

  lemma AddCommandFits(s: System, c: string, id: nat, answered: bool)
    requires StoreEnabled(s, c, AddCommand(id, answered)) && ControllerFits(s, s.controllers[c])
    requires s.commands.Keys <= s.commandIds
    ensures var s' := StoreNext(s, c, AddCommand(id, answered));
      Extends(s, s') && OnlyStores(s, s', c) && ControllerFits(s', s'.controllers[c])
  {
    var s' := StoreNext(s, c, AddCommand(id, answered));
    var ctl, ctl' := s.controllers[c], s'.controllers[c];
    CommandAdded(s, s', id, ctl.phase.backup);
    ControllerKept(s, s', ctl);
    assert GuardHolds(s', ctl') by {
      assert GuardHolds(s', ctl) && (ctl'.phase.Idle? || Guarded(s', ctl'.phase) == Guarded(s', ctl.phase));
    }
  }

  lemma AddCommandKeeps(s: System, c: string, id: nat, answered: bool)
    requires Inv(s) && StoreEnabled(s, c, AddCommand(id, answered))
    ensures Inv(StoreNext(s, c, AddCommand(id, answered)))
  {
    AddCommandFits(s, c, id, answered);
    StoresStep(s, StoreNext(s, c, AddCommand(id, answered)), c);
  }

  lemma UserCommandKeeps(s: System, id: nat, name: string)
    requires Inv(s) && UserEnabled(s, id, name)
    ensures Inv(UserNext(s, id, name))
  {
    var s' := UserNext(s, id, name);
    CommandAdded(s, s', id, name);
    if "" in s.controllers {
      assert ControllerFits(s, s.controllers[""]);
      ControllerKept(s, s', s.controllers[""]);
    }
    StoresStep(s, s', "");
  }

  lemma UserDeleteKeeps(s: System, id: nat)
    requires Inv(s) && DeleteEnabled(s, id)
    ensures Inv(DeleteNext(s, id))
  {
    var s' := DeleteNext(s, id);
    assert forall p :: Acknowledged(s', p) == Acknowledged(s, p);
    if "" in s.controllers {
      assert ControllerFits(s, s.controllers[""]);
      ControllerKept(s, s', s.controllers[""]);
    }
    StoresStep(s, s', "");
  }

  lemma CleanupKeeps(s: System, left: set<string>)
    requires Inv(s)
    ensures Inv(CleanupNext(s, left))
  {
    var s' := CleanupNext(s, left);
    assert forall p :: Acknowledged(s', p) == Acknowledged(s, p);
    if "" in s.controllers {
      assert ControllerFits(s, s.controllers[""]);
      ControllerKept(s, s', s.controllers[""]);
    }
    StoresStep(s, s', "");
  }

  lemma RestoreExtends(s: System, c: string, p: string, id: nat, copied: set<Write>, answered: bool)
    requires StoreEnabled(s, c, Restore(p, id, copied, answered)) && ControllerFits(s, s.controllers[c])
    requires s.commands.Keys <= s.commandIds
    ensures var s' := StoreNext(s, c, Restore(p, id, copied, answered)); Extends(s, s') && OnlyStores(s, s', c)
  {
  }

  lemma RestoreFits(s: System, c: string, p: string, id: nat, copied: set<Write>, answered: bool)
    requires StoreEnabled(s, c, Restore(p, id, copied, answered)) && ControllerFits(s, s.controllers[c])
    requires s.commands.Keys <= s.commandIds
    ensures var s' := StoreNext(s, c, Restore(p, id, copied, answered));
      Extends(s, s') && OnlyStores(s, s', c) && ControllerFits(s', s'.controllers[c])
  {
    var s' := StoreNext(s, c, Restore(p, id, copied, answered));
    RestoreExtends(s, c, p, id, copied, answered);
    assert Names(s, id, s.controllers[c].commands[id]);
    NamesKept(s, s', c);
  }

  lemma RestoreKeeps(s: System, c: string, p: string, id: nat, copied: set<Write>, answered: bool)
    requires Inv(s) && StoreEnabled(s, c, Restore(p, id, copied, answered))
    ensures Inv(StoreNext(s, c, Restore(p, id, copied, answered)))
  {
    RestoreFits(s, c, p, id, copied, answered);
    StoresStep(s, StoreNext(s, c, Restore(p, id, copied, answered)), c);
  }

  lemma RemoveCommandFits(s: System, c: string)
    requires StoreEnabled(s, c, RemoveCommand) && ControllerFits(s, s.controllers[c]) && s.commands.Keys <= s.commandIds
    ensures var s' := StoreNext(s, c, RemoveCommand);
      Extends(s, s') && OnlyStores(s, s', c) && ControllerFits(s', s'.controllers[c])
  {
  }

  lemma RemoveCommandKeeps(s: System, c: string)
    requires Inv(s) && StoreEnabled(s, c, RemoveCommand)
    ensures Inv(StoreNext(s, c, RemoveCommand))
  {
    RemoveCommandFits(s, c);
    StoresStep(s, StoreNext(s, c, RemoveCommand), c);
  }

  lemma OwnStepKeeps(s: System, c: string, o: OwnStep)
    requires Inv(s) && OwnEnabled(s, c, o)
    ensures Inv(OwnNext(s, c, o))
  {
    match o
    case Elect(token) => ElectKeeps(s, c, token);
    case Elected => ElectedKeeps(s, c);
    case ReadMarker => ReadMarkerKeeps(s, c);
    case Refresh => RefreshKeeps(s, c);
    case BeginUpgrade(members) => BeginUpgradeKeeps(s, c, members);
    case SeeCommand => SeeCommandKeeps(s, c);
    case FinishUpgrade => FinishKeeps(s, c);
    case BeginAssert => AssertPhasesKeep(s, c, o);
    case EndAssert => AssertPhasesKeep(s, c, o);
    case Resign => AssertPhasesKeep(s, c, o);
    case _ => CycleEndKeeps(s, c, o);
  }

  lemma StoreStepKeeps(s: System, c: string, t: StoreStep)
    requires Inv(s) && StoreEnabled(s, c, t)
    ensures Inv(StoreNext(s, c, t))
  {
    match t
    case TakeBackup(p, name) => TakeBackupKeeps(s, c, p, name);
    case SaveBackup(p, name) => SaveBackupKeeps(s, c, p, name);
    case AddCommand(id, answered) => AddCommandKeeps(s, c, id, answered);
    case Restore(p, id, copied, answered) => RestoreKeeps(s, c, p, id, copied, answered);
    case RemoveCommand => RemoveCommandKeeps(s, c);
  }

  lemma StepKeeps(s: System, e: Event)
    requires Inv(s) && Enabled(s, e)
    ensures Inv(Next(s, e))
  {
    match e
    case Own(c, o) => OwnStepKeeps(s, c, o);
    case Store(c, t) => StoreStepKeeps(s, c, t);
    case Notify(c, p) => NotifyKeeps(s, c, p);
    case Send(c, p, r, env, answered) => SendKeeps(s, c, p, r, env, answered);
    case NodeEvent(p, event) => NodeEventKeeps(s, p, event);
    case ClientWrite(p, id) => ClientWriteKeeps(s, p, id);
    case UserCommand(id, name) => UserCommandKeeps(s, id, name);
    case UserDelete(id) => UserDeleteKeeps(s, id);
    case Cleanup(_, _, _, _, left) => CleanupKeeps(s, left);
  }

  lemma {:induction false} RunKeeps(states: seq<System>, events: seq<Event>, i: nat)
    requires IsRun(states, events) && i < |states|
    ensures Inv(states[i])
  {
    if i == 0 {
      var s := states[0];
      assert forall c | c in s.controllers :: ControllerFits(s, s.controllers[c]);
      assert forall p | p in s.nodes :: Acknowledged(s, p) == {};
    } else {
      RunKeeps(states, events, i - 1);
      assert Takes(states[i - 1], events[i - 1], states[i]);
      StepKeeps(states[i - 1], events[i - 1]);
    }
  }

  // ---------- the theorems ----------

  /** Fencing.  Whatever a controller sends from the new-cluster branch, StopEtcd included, changes
    * nothing at a node that is open to clients, in every interleaving of any number of controllers. */
  lemma Fencing(states: seq<System>, events: seq<Event>, i: nat)
    requires IsRun(states, events) && i < |events| && events[i].Send?
    requires Known(states[i], events[i].c, events[i].p)
    requires states[i].controllers[events[i].c].phase.Creating? && Released(states[i].nodes[events[i].p])
    ensures states[i + 1].nodes == states[i].nodes
  {
    var s, e := states[i], events[i];
    RunKeeps(states, events, i);
    assert Takes(s, e, states[i + 1]);
    assert ControllerFits(s, s.controllers[e.c]);
    assert e.p in Guarded(s, s.controllers[e.c].phase);
  }

  /** A node is open to clients, in memory or on disk, only once the created marker is written. */
  lemma MarkerPrecedesRelease(states: seq<System>, events: seq<Event>, i: nat, p: string)
    requires IsRun(states, events) && i < |states| && p in states[i].nodes
    requires Released(states[i].nodes[p]) || ReleasedOnDisk(states[i].nodes[p])
    ensures states[i].marker
  {
    RunKeeps(states, events, i);
    assert NodeFits(states[i].nodes[p], states[i].marker);
  }
}
