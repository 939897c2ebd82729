/** A run in which a cleanup removes the backup that an upgrade relies on, while the command that names it
  * is still pending.
  *
  * Controller `d` creates a cluster of one node and takes its first backup, and is held up before the
  * cleanup that follows it.  Then `c` is elected, takes a backup, opens the node, and a client writes.
  * Next `c` upgrades: it takes a backup, quarantines the node, takes another, adds the restore command
  * and stops the node.  At last `d` does its cleanup.  The cycles in between that change nothing are not
  * part of the run.
  */
module UpgradeRun {
  import opened Common
  import opened NodeModel
  import opened ControlPlane
  import UpgradeSafety
  import Retention
  import StringOrder

  // ---------- pieces of runs ----------

  datatype Path = Path(states: seq<System>, events: seq<Event>)

  ghost predicate IsPath(x: Path, s: System, s': System) {
    && |x.states| == |x.events| + 1 && x.states[0] == s && x.states[|x.events|] == s'
    && forall i | 0 <= i < |x.events| :: Takes(x.states[i], x.events[i], x.states[i + 1])
  }

  lemma OneStep(s: System, e: Event, s': System) returns (x: Path)
    requires Takes(s, e, s')
    ensures IsPath(x, s, s')
  {
    x := Path([s, s'], [e]);
  }

  lemma Append(x: Path, y: Path, s: System, mid: System, s': System) returns (z: Path)
    requires IsPath(x, s, mid) && IsPath(y, mid, s')
    ensures IsPath(z, s, s')
  {
    var n := |x.events|;
    z := Path(x.states[..n] + y.states, x.events + y.events);
    forall i | 0 <= i < |z.events| ensures Takes(z.states[i], z.events[i], z.states[i + 1]) {
      if i < n {
        assert Takes(x.states[i], x.events[i], x.states[i + 1]);
      } else {
        assert Takes(y.states[i - n], y.events[i - n], y.states[i - n + 1]);
      }
    }
  }

  lemma PathIsRun(x: Path, s: System, s': System)
    requires IsPath(x, s, s') && Initial(s)
    ensures IsRun(x.states, x.events)
  {
  }

  lemma ByOwn(s: System, c: string, o: OwnStep, s': System) returns (x: Path)
    requires OwnEnabled(s, c, o) && s' == OwnNext(s, c, o)
    ensures IsPath(x, s, s')
  {
    x := OneStep(s, Own(c, o), s');
  }

  lemma ByStore(s: System, c: string, t: StoreStep, s': System) returns (x: Path)
    requires StoreEnabled(s, c, t) && s' == StoreNext(s, c, t)
    ensures IsPath(x, s, s')
  {
    x := OneStep(s, Store(c, t), s');
  }

  lemma BySend(s: System, c: string, p: string, r: Request, s': System) returns (x: Path)
    requires SendEnabled(s, c, p, r) && s' == SendNext(s, c, p, r, Fine, true)
    ensures IsPath(x, s, s')
  {
    x := OneStep(s, Send(c, p, r, Fine, true), s');
  }

  /** Requests that a join consists of may be sent. */
  predicate IsWorking(phase: ControlPlane.Phase) {
    phase.Creating? || phase.Managing?
  }

  /** A request of such a controller that succeeds changes nothing but the node. */
  lemma ByRequest(s: System, c: string, p: string, r: Request, n': Node) returns (x: Path)
    requires SendEnabled(s, c, p, r) && IsWorking(s.controllers[c].phase)
    requires Handle(s.nodes[p], r, Fine) == Outcome(n', Ok)
    ensures IsPath(x, s, s.(nodes := s.nodes[p := n']))
  {
    var ctl := s.controllers[c];
    assert AfterReply(ctl.phase, p, Ok) == ctl.phase;
    assert s.controllers[c := ctl.(phase := ctl.phase)] == s.controllers;
    x := BySend(s, c, p, r, s.(nodes := s.nodes[p := n']));
  }

  lemma LastPhase(s: System, c: string, first: ControlPlane.Phase, last: ControlPlane.Phase)
    requires c in s.controllers
    ensures SetPhase(SetPhase(s, c, first), c, last) == SetPhase(s, c, last)
  {
    assert s.controllers[c := s.controllers[c].(phase := first)][c := s.controllers[c].(phase := last)]
        == s.controllers[c := s.controllers[c].(phase := last)];
  }

  // ---------- one node ----------

  /** Everything the node tries succeeds. */
  const Fine := Env(0, Written, Written, true, true)

  /** The node serves `cluster`, having accepted `leader`. */
  predicate Runs(n: Node, leader: string, cluster: string, quarantined: bool) {
    && n.leader == Some(leader) && Serving(n) && Configured(n) && cluster != ""
    && n.state.value.cluster.value.token == n.process.value.cluster.token == cluster
    && n.state.value.quarantined == n.process.value.quarantined == quarantined
    && SelfIndex(n.state.value.cluster.value.nodes, n.config.self.name).Some?
    && n.state.value.etcdVersion in n.config.versions
  }

  lemma Reconfigures(n: Node, leader: string, cluster: string, was: bool, quarantined: bool)
    requires Runs(n, leader, cluster, was)
    ensures var o := Handle(n, Reconfigure(Header(leader, n.config.clusterName), quarantined, "", false), Fine);
      o.reply == Ok && Runs(o.node, leader, cluster, quarantined) && o.node.config == n.config
  {
  }

  lemma Stops(n: Node, leader: string, cluster: string, quarantined: bool)
    requires Runs(n, leader, cluster, quarantined)
    ensures var o := Handle(n, StopEtcd(Header(leader, n.config.clusterName)), Fine);
      o.reply == Ok && !Configured(o.node) && !o.node.disk.Unreadable? && o.node.config == n.config
  {
  }

  lemma OwnIndex(self: EtcdNode)
    ensures SelfIndex([self], self.name) == Some(0)
  {
    assert OnlySelf([self], self.name, 0);
  }

  function Join(n: Node, leader: string, phase: NodeModel.Phase, cluster: string, version: string): Request {
    JoinCluster(Header(leader, n.config.clusterName), phase, cluster, version, [n.config.self])
  }

  lemma Prepares(n: Node, leader: string, cluster: string, version: string)
    requires n.prepared.None? && n.process.None? && n.leader == Some(leader)
    requires version in n.config.versions
    ensures Handle(n, Join(n, leader, Prepare, cluster, version), Fine) ==
            Outcome(n.(prepared := Some(Prepared(PreparedValidity, cluster))), Ok)
  {
  }

  lemma Commits(n: Node, leader: string, cluster: string, version: string)
    requires n.process.None? && n.leader == Some(leader) && cluster != ""
    requires n.prepared == Some(Prepared(PreparedValidity, cluster)) && version in n.config.versions
    ensures var o := Handle(n, Join(n, leader, InitialCluster, cluster, version), Fine);
      o.reply == Ok && Runs(o.node, leader, cluster, true) && o.node.config == n.config
  {
    OwnIndex(n.config.self);
  }

  // ---------- a controller is elected ----------

  /** `c` has been elected with `token`, node `p` has accepted it, and `c` has read the marker. */
  function Won(s: System, c: string, p: string, token: string): System
    requires c in s.controllers && p in s.nodes
  {
    s.(tokens := s.tokens + {token}, nodes := s.nodes[p := s.nodes[p].(leader := Some(token))],
       controllers := s.controllers[c := Controller(Some(token), if s.marker then Managing else Creating, s.commands)])
  }

  /** From the start of a cycle to the reading of the marker. */
  lemma Asserts(s: System, c: string, ctl: Controller) returns (x: Path)
    requires c in s.controllers && s.controllers[c] == ctl && ctl.phase.Idle? && ctl.term.Some?
    ensures IsPath(x, s, SetPhase(s, c, if s.marker then Managing else Creating))
  {
    var last := if s.marker then Managing else Creating;
    var s1, s2 := SetPhase(s, c, Asserting), SetPhase(s, c, Asserted);
    LastPhase(s, c, Asserting, Asserted);
    LastPhase(s, c, Asserted, last);
    x := ByOwn(s, c, BeginAssert, s1);
    var y := ByOwn(s1, c, EndAssert, s2);
    x := Append(x, y, s, s1, s2);
    y := ByOwn(s2, c, ReadMarker, SetPhase(s, c, last));
    x := Append(x, y, s, s2, SetPhase(s, c, last));
  }

  lemma IsElected(s: System, c: string, p: string, token: string) returns (x: Path)
    requires Known(s, c, p) && s.controllers[c].phase.Idle? && s.controllers[c].term.None?
    requires token !in s.tokens && !IsDown(s.nodes[p])
    ensures IsPath(x, s, SetPhase(Won(s, c, p, token), c, Idle))
  {
    var s1 := SetPhase(s, c, Electing(token)).(tokens := s.tokens + {token});
    var s2 := s1.(nodes := s.nodes[p := s.nodes[p].(leader := Some(token))]);
    var s3 := SetPhase(Won(s, c, p, token), c, Idle);
    x := ByOwn(s, c, Elect(token), s1);
    var y := OneStep(s1, Notify(c, p), s2);
    var z := ByOwn(s2, c, Elected, s3);
    x := Append(x, y, s, s1, s2);
    x := Append(x, z, s, s2, s3);
  }

  lemma Wins(s: System, c: string, p: string, token: string) returns (x: Path)
    requires Known(s, c, p) && s.controllers[c].phase.Idle? && s.controllers[c].term.None?
    requires token !in s.tokens && !IsDown(s.nodes[p])
    ensures IsPath(x, s, Won(s, c, p, token))
  {
    x := IsElected(s, c, p, token);
    var s1 := SetPhase(Won(s, c, p, token), c, Idle);
    var y := Asserts(s1, c, s1.controllers[c]);
    assert SetPhase(s1, c, if s1.marker then Managing else Creating) == Won(s, c, p, token);
    x := Append(x, y, s, s1, Won(s, c, p, token));
  }

  /** A cycle in between: the controller starts over, asserts its leadership and goes on, and nothing has
    * changed. */
  lemma NextCycle(s: System, c: string) returns (x: Path)
    requires c in s.controllers && s.controllers[c].phase.Managing? && s.controllers[c].term.Some? && s.marker
    ensures IsPath(x, s, s)
  {
    var s1 := SetPhase(s, c, Idle);
    x := ByOwn(s, c, EndCycle, s1);
    var y := Asserts(s1, c, s1.controllers[c]);
    LastPhase(s, c, Idle, Managing);
    assert s.controllers[c := s.controllers[c].(phase := Managing)] == s.controllers;
    x := Append(x, y, s, s1, s);
  }

  // ---------- the cluster is created ----------

  /** The node is a cluster of its own, and the leader has the marker. */
  function Formed(s: System, d: string, p: string, n: Node): System
    requires d in s.controllers
  {
    SetPhase(s.(nodes := s.nodes[p := n], marker := true), d, Managing)
  }

  lemma SendsPrepare(s: System, d: string, p: string, leader: string, cluster: string, version: string)
    returns (x: Path)
    requires Known(s, d, p) && IsWorking(s.controllers[d].phase) && s.controllers[d].term == Some(leader)
    requires var n := s.nodes[p];
      n.prepared.None? && n.process.None? && n.leader == Some(leader) && version in n.config.versions
    ensures IsPath(x, s,
      s.(nodes := s.nodes[p := s.nodes[p].(prepared := Some(Prepared(PreparedValidity, cluster)))]))
  {
    var n := s.nodes[p];
    Prepares(n, leader, cluster, version);
    x := ByRequest(s, d, p, Join(n, leader, Prepare, cluster, version),
                   n.(prepared := Some(Prepared(PreparedValidity, cluster))));
  }

  lemma SendsCommit(s: System, d: string, p: string, leader: string, cluster: string, version: string)
    returns (x: Path, n': Node)
    requires Known(s, d, p) && IsWorking(s.controllers[d].phase) && s.controllers[d].term == Some(leader)
    requires cluster != ""
    requires var n := s.nodes[p];
      && n.process.None? && n.leader == Some(leader) && version in n.config.versions
      && n.prepared == Some(Prepared(PreparedValidity, cluster))
    ensures IsPath(x, s, s.(nodes := s.nodes[p := n']))
    ensures Runs(n', leader, cluster, true) && n'.config == s.nodes[p].config
  {
    var n := s.nodes[p];
    Commits(n, leader, cluster, version);
    var r := Join(n, leader, InitialCluster, cluster, version);
    n' := Handle(n, r, Fine).node;
    x := ByRequest(s, d, p, r, n');
  }

  lemma Marks(s: System, d: string) returns (x: Path)
    requires d in s.controllers && s.controllers[d].phase.Creating? && s.controllers[d].term.Some?
    ensures IsPath(x, s, SetPhase(s.(marker := true), d, Managing))
  {
    var s1 := SetPhase(s, d, Idle).(marker := true);
    x := ByOwn(s, d, MarkCreated, s1);
    var y := Asserts(s1, d, s1.controllers[d]);
    x := Append(x, y, s, s1, SetPhase(s1, d, Managing));
  }

  lemma Creates(s: System, d: string, p: string, leader: string, cluster: string, version: string)
    returns (x: Path, n': Node)
    requires Known(s, d, p) && s.controllers[d].phase.Creating? && s.controllers[d].term == Some(leader)
    requires cluster != ""
    requires var n := s.nodes[p];
      n.prepared.None? && n.process.None? && n.leader == Some(leader) && version in n.config.versions
    ensures IsPath(x, s, Formed(s, d, p, n')) && Runs(n', leader, cluster, true) && n'.config == s.nodes[p].config
  {
    x := SendsPrepare(s, d, p, leader, cluster, version);
    var s1 := s.(nodes := s.nodes[p := s.nodes[p].(prepared := Some(Prepared(PreparedValidity, cluster)))]);
    var y;
    y, n' := SendsCommit(s1, d, p, leader, cluster, version);
    var s2 := s.(nodes := s.nodes[p := n']);
    assert s1.(nodes := s1.nodes[p := n']) == s2;
    x := Append(x, y, s, s1, s2);
    y := Marks(s2, d);
    assert SetPhase(s2.(marker := true), d, Managing) == Formed(s, d, p, n');
    x := Append(x, y, s, s2, Formed(s, d, p, n'));
  }

  // ---------- backups, and a client's write ----------

  /** A backup `b` was taken. */
  function BackedUp(s: System, b: string, cluster: string): System {
    s.(backups := s.backups[b := Backup(cluster, Contents(s, cluster), {})])
  }

  lemma BacksUp(s: System, c: string, p: string, b: string, leader: string, cluster: string, quarantined: bool)
    returns (x: Path)
    requires Known(s, c, p) && s.controllers[c].phase.Managing? && s.controllers[c].term == Some(leader)
    requires Runs(s.nodes[p], leader, cluster, quarantined) && b !in s.backups
    ensures IsPath(x, s, BackedUp(s, b, cluster))
  {
    x := ByStore(s, c, TakeBackup(p, b), BackedUp(s, b, cluster));
  }

  lemma Opens(s: System, c: string, p: string, leader: string, cluster: string) returns (x: Path, n': Node)
    requires Known(s, c, p) && s.controllers[c].phase.Managing? && s.controllers[c].term == Some(leader)
    requires Runs(s.nodes[p], leader, cluster, true)
    ensures IsPath(x, s, s.(nodes := s.nodes[p := n']))
    ensures Runs(n', leader, cluster, false) && n'.config == s.nodes[p].config
  {
    var n := s.nodes[p];
    Reconfigures(n, leader, cluster, true, false);
    var r := Reconfigure(Header(leader, n.config.clusterName), false, "", false);
    n' := Handle(n, r, Fine).node;
    x := ByRequest(s, c, p, r, n');
  }

  /** The node opened, and then a client wrote. */
  function OpenedAndWritten(s: System, p: string, cluster: string, n: Node): System
    requires p in s.acknowledged
  {
    var w := Write(cluster, 0);
    s.(nodes := s.nodes[p := n], data := s.data[cluster := Contents(s, cluster) + {w}],
       acknowledged := s.acknowledged[p := s.acknowledged[p] + {w}])
  }

  lemma OpensAndServes(s: System, c: string, p: string, leader: string, cluster: string) returns (x: Path, n': Node)
    requires Known(s, c, p) && s.controllers[c].phase.Managing? && s.controllers[c].term == Some(leader)
    requires Runs(s.nodes[p], leader, cluster, true) && p in s.acknowledged
    ensures IsPath(x, s, OpenedAndWritten(s, p, cluster, n'))
    ensures Runs(n', leader, cluster, false) && n'.config == s.nodes[p].config
  {
    x, n' := Opens(s, c, p, leader, cluster);
    var s1 := s.(nodes := s.nodes[p := n']);
    var z := OneStep(s1, ClientWrite(p, 0), OpenedAndWritten(s, p, cluster, n'));
    x := Append(x, z, s, s1, OpenedAndWritten(s, p, cluster, n'));
  }

  // ---------- the upgrade ----------

  /** The node is quarantined again and a second backup `y` was taken. */
  function Secured(s: System, c: string, p: string, y: string, cluster: string, n: Node): System
    requires c in s.controllers
  {
    SetPhase(s.(nodes := s.nodes[p := n], backups := s.backups[y := Backup(cluster, Contents(s, cluster), {p})]),
             c, Saved({p}, y))
  }

  lemma Quarantines(s: System, c: string, p: string, leader: string, cluster: string) returns (x: Path, n': Node)
    requires Known(s, c, p) && s.controllers[c].phase == Quarantining({p}, {}) && s.controllers[c].term == Some(leader)
    requires Runs(s.nodes[p], leader, cluster, false)
    ensures IsPath(x, s, SetPhase(s.(nodes := s.nodes[p := n']), c, Quarantining({p}, {p})))
    ensures Runs(n', leader, cluster, true) && n'.config == s.nodes[p].config
  {
    var n := s.nodes[p];
    Reconfigures(n, leader, cluster, false, true);
    var r := Reconfigure(Header(leader, n.config.clusterName), true, "", false);
    n' := Handle(n, r, Fine).node;
    assert {} + {p} == {p};
    x := BySend(s, c, p, r, SetPhase(s.(nodes := s.nodes[p := n']), c, Quarantining({p}, {p})));
  }

  lemma Saves(s: System, c: string, p: string, y: string, leader: string, cluster: string) returns (x: Path)
    requires Known(s, c, p) && s.controllers[c].phase == Quarantining({p}, {p}) && s.controllers[c].term == Some(leader)
    requires Runs(s.nodes[p], leader, cluster, true) && y !in s.backups
    ensures IsPath(x, s, SetPhase(s.(backups := s.backups[y := Backup(cluster, Contents(s, cluster), {p})]),
                                  c, Saved({p}, y)))
  {
    x := ByStore(s, c, SaveBackup(p, y),
                 SetPhase(s.(backups := s.backups[y := Backup(cluster, Contents(s, cluster), {p})]), c, Saved({p}, y)));
  }

  lemma QuarantinesAndSaves(s: System, c: string, p: string, y: string, leader: string, cluster: string)
    returns (x: Path, n': Node)
    requires Known(s, c, p) && s.controllers[c].phase.Managing? && s.controllers[c].term == Some(leader)
    requires Runs(s.nodes[p], leader, cluster, false) && y !in s.backups
    ensures IsPath(x, s, Secured(s, c, p, y, cluster, n'))
    ensures Runs(n', leader, cluster, true) && n'.config == s.nodes[p].config
  {
    var s1 := SetPhase(s, c, Quarantining({p}, {}));
    x := ByOwn(s, c, BeginUpgrade({p}), s1);
    var z;
    z, n' := Quarantines(s1, c, p, leader, cluster);
    var s2 := SetPhase(s1.(nodes := s1.nodes[p := n']), c, Quarantining({p}, {p}));
    x := Append(x, z, s, s1, s2);
    z := Saves(s2, c, p, y, leader, cluster);
    x := Append(x, z, s, s2, Secured(s, c, p, y, cluster, n'));
  }

  /** The command was added and the node stopped. */
  function Stopped(s: System, c: string, p: string, y: string, n: Node): System
    requires c in s.controllers
  {
    SetPhase(s.(nodes := s.nodes[p := n], commands := s.commands[0 := y], commandIds := s.commandIds + {0},
                stops := s.stops + {UpgradeStop(p, {p}, y, Acknowledged(s, p))}), c, Stopping({p}, y, {p}))
  }

  lemma AddsCommand(s: System, c: string, p: string, y: string) returns (x: Path)
    requires Known(s, c, p) && s.controllers[c].phase == Saved({p}, y) && 0 !in s.commandIds
    ensures IsPath(x, s, SetPhase(s.(commands := s.commands[0 := y], commandIds := s.commandIds + {0}),
                                  c, Stopping({p}, y, {})))
  {
    var s0 := s.(commands := s.commands[0 := y], commandIds := s.commandIds + {0});
    var s1, s2 := SetPhase(s0, c, Scheduled({p}, y)), SetPhase(s0, c, Stopping({p}, y, {}));
    x := ByStore(s, c, AddCommand(0, true), s1);
    assert 0 in s1.commands;
    var z := ByOwn(s1, c, SeeCommand, s2);
    x := Append(x, z, s, s1, s2);
  }

  lemma StopsNode(s: System, c: string, p: string, y: string, leader: string, cluster: string)
    returns (x: Path, n': Node)
    requires Known(s, c, p) && s.controllers[c].phase == Stopping({p}, y, {}) && s.controllers[c].term == Some(leader)
    requires Runs(s.nodes[p], leader, cluster, true)
    ensures IsPath(x, s, SetPhase(s.(nodes := s.nodes[p := n'],
                                     stops := s.stops + {UpgradeStop(p, {p}, y, Acknowledged(s, p))}),
                                  c, Stopping({p}, y, {p})))
    ensures !n'.disk.Unreadable? && n'.config == s.nodes[p].config
  {
    var n := s.nodes[p];
    Stops(n, leader, cluster, true);
    var r := StopEtcd(Header(leader, n.config.clusterName));
    n' := Handle(n, r, Fine).node;
    assert {} + {p} == {p};
    x := BySend(s, c, p, r, SetPhase(s.(nodes := s.nodes[p := n'],
                                        stops := s.stops + {UpgradeStop(p, {p}, y, Acknowledged(s, p))}),
                                     c, Stopping({p}, y, {p})));
  }

  lemma StopsForUpgrade(s: System, c: string, p: string, y: string, leader: string, cluster: string)
    returns (x: Path, n': Node)
    requires Known(s, c, p) && s.controllers[c].phase == Saved({p}, y) && s.controllers[c].term == Some(leader)
    requires Runs(s.nodes[p], leader, cluster, true) && 0 !in s.commandIds
    ensures IsPath(x, s, Stopped(s, c, p, y, n')) && !n'.disk.Unreadable? && n'.config == s.nodes[p].config
  {
    x := AddsCommand(s, c, p, y);
    var s1 := SetPhase(s.(commands := s.commands[0 := y], commandIds := s.commandIds + {0}), c, Stopping({p}, y, {}));
    var z;
    z, n' := StopsNode(s1, c, p, y, leader, cluster);
    x := Append(x, z, s, s1, Stopped(s, c, p, y, n'));
  }

  // ---------- the run ----------

  /** Who and what the run is about: node `p`, the deposed leader `d` and the upgrading one `c`, and the
    * backups in the order in which they are taken. */
  datatype Cast = Cast(p: string, config: Config, d: string, c: string, leaderD: string, leaderC: string,
                       cluster: string, version: string, first: string, early: string, late: string, last: string)

  predicate ValidCast(a: Cast) {
    && a.d != a.c && a.leaderD != a.leaderC && a.cluster != "" && a.version in a.config.versions
    && a.first !in {a.early, a.late, a.last} && a.early !in {a.late, a.last} && a.late != a.last
  }

  function Start(a: Cast): System {
    System(map[a.p := Node(a.config, None, None, None, Absent, None)],
           map[a.d := Controller(None, Idle, map[]), a.c := Controller(None, Idle, map[])],
           {}, false, map[], {}, map[], {}, map[], map[a.p := {}], map[], {}, {}, {})
  }

  lemma StartIsInitial(a: Cast)
    ensures Initial(Start(a))
  {
    assert Start(a).acknowledged == map p | p in Start(a).nodes :: {};
  }

  /** What `d` leaves: a closed cluster of one node, and the first backup. */
  ghost predicate IsFormed(s: System, a: Cast) {
    && Known(s, a.c, a.p) && s.controllers[a.c] == Controller(None, Idle, map[]) && Unaware(s, a)
    && Runs(s.nodes[a.p], a.leaderD, a.cluster, true) && s.nodes[a.p].config == a.config
    && s.marker && s.tokens == {a.leaderD}
    && s.commands == map[] && s.commandIds == {} && Untouched(s)
    && s.backups == map[a.first := Backup(a.cluster, {}, {})] && s.data == map[] && s.acknowledged == map[a.p := {}]
  }

  /** `d` still manages the cluster, and has seen no command. */
  ghost predicate Unaware(s: System, a: Cast) {
    a.d in s.controllers && s.controllers[a.d] == Controller(Some(a.leaderD), Managing, map[])
  }

  predicate Untouched(s: System) {
    s.removed == {} && s.withdrawn == {} && s.restored == map[]
  }

  lemma Forms(a: Cast) returns (x: Path, s': System)
    requires ValidCast(a)
    ensures IsPath(x, Start(a), s') && IsFormed(s', a)
  {
    var s := Start(a);
    x := Wins(s, a.d, a.p, a.leaderD);
    var s1 := Won(s, a.d, a.p, a.leaderD);
    var y, n := Creates(s1, a.d, a.p, a.leaderD, a.cluster, a.version);
    var s2 := Formed(s1, a.d, a.p, n);
    x := Append(x, y, s, s1, s2);
    y := BacksUp(s2, a.d, a.p, a.first, a.leaderD, a.cluster, true);
    s' := BackedUp(s2, a.first, a.cluster);
    x := Append(x, y, s, s2, s');
    assert s2.backups == map[] && Contents(s2, a.cluster) == {};
    assert s'.controllers[a.d] == Controller(Some(a.leaderD), Managing, map[]);
    assert s'.tokens == {a.leaderD};
  }

  /** `c` leads, the node is open, and a client has written between the backups of `c`. */
  ghost predicate IsServing(s: System, a: Cast) {
    && Known(s, a.c, a.p) && s.controllers[a.c] == Controller(Some(a.leaderC), Managing, map[]) && Unaware(s, a)
    && Runs(s.nodes[a.p], a.leaderC, a.cluster, false) && s.nodes[a.p].config == a.config
    && s.marker && s.tokens == {a.leaderD, a.leaderC} && s.commands == map[] && s.commandIds == {} && Untouched(s)
    && s.backups == map[a.first := Backup(a.cluster, {}, {}), a.early := Backup(a.cluster, {}, {}),
                        a.late := Backup(a.cluster, {Write(a.cluster, 0)}, {})]
    && s.data == map[a.cluster := {Write(a.cluster, 0)}] && s.acknowledged == map[a.p := {Write(a.cluster, 0)}]
  }

  lemma Serves(s: System, a: Cast) returns (x: Path, s': System)
    requires ValidCast(a) && IsFormed(s, a)
    ensures IsPath(x, s, s') && IsServing(s', a)
  {
    x := Wins(s, a.c, a.p, a.leaderC);
    var s1 := Won(s, a.c, a.p, a.leaderC);
    var y := BacksUp(s1, a.c, a.p, a.early, a.leaderC, a.cluster, true);
    var s2 := BackedUp(s1, a.early, a.cluster);
    x := Append(x, y, s, s1, s2);
    var n;
    y, n := OpensAndServes(s2, a.c, a.p, a.leaderC, a.cluster);
    var s3 := OpenedAndWritten(s2, a.p, a.cluster, n);
    x := Append(x, y, s, s2, s3);
    var w := Write(a.cluster, 0);
    assert s2.acknowledged[a.p] + {w} == {w} && Contents(s2, a.cluster) + {w} == {w};
    y := BacksUp(s3, a.c, a.p, a.late, a.leaderC, a.cluster, false);
    s' := BackedUp(s3, a.late, a.cluster);
    x := Append(x, y, s, s3, s');
  }

  /** The node was stopped for the upgrade. */
  ghost predicate IsStopped(s: System, a: Cast) {
    && Known(s, a.c, a.p) && s.controllers[a.c].phase == Stopping({a.p}, a.last, {a.p}) && Unaware(s, a)
    && s.nodes[a.p].config == a.config && !s.nodes[a.p].disk.Unreadable?
    && s.marker && s.tokens == {a.leaderD, a.leaderC} && s.commands == map[0 := a.last] && Untouched(s)
    && s.backups == map[a.first := Backup(a.cluster, {}, {}), a.early := Backup(a.cluster, {}, {}),
                        a.late := Backup(a.cluster, {Write(a.cluster, 0)}, {}),
                        a.last := Backup(a.cluster, {Write(a.cluster, 0)}, {a.p})]
    && UpgradeStop(a.p, {a.p}, a.last, {Write(a.cluster, 0)}) in s.stops
  }

  lemma Upgrades(s: System, a: Cast) returns (x: Path, s': System)
    requires ValidCast(a) && IsServing(s, a)
    ensures IsPath(x, s, s') && IsStopped(s', a)
  {
    var z, quarantined := QuarantinesAndSaves(s, a.c, a.p, a.last, a.leaderC, a.cluster);
    var s1 := Secured(s, a.c, a.p, a.last, a.cluster, quarantined);
    var stopped;
    x, stopped := StopsForUpgrade(s1, a.c, a.p, a.last, a.leaderC, a.cluster);
    s' := Stopped(s1, a.c, a.p, a.last, stopped);
    x := Append(z, x, s, s1, s');
  }

  /** When the backups were taken, by their names. */
  datatype Times = Times(first: int, early: int, late: int, last: int)

  /** The names are listed in the order of their times, which are all of one hour; at `now` that hour is
    * over, and within the hourly window. */
  ghost predicate OfOneHour(a: Cast, policy: Retention.Policy, t: Times, now: int) {
    && StringOrder.Sorted([a.first, a.early, a.late, a.last])
    && Retention.At(policy, a.first, t.first) && Retention.At(policy, a.early, t.early)
    && Retention.At(policy, a.late, t.late) && Retention.At(policy, a.last, t.last)
    && 0 < t.first < t.early < t.late < t.last
    && Retention.HourOf(t.first) == Retention.HourOf(t.late) == Retention.HourOf(t.last)
    && Retention.Hour <= Retention.Age(now, t.last) && Retention.Age(now, t.first) < policy.hourly
  }

  /** The cleanup that `d` does at `now`. */
  ghost function LateCleanup(s: System, a: Cast, policy: Retention.Policy, now: int): Event {
    Cleanup(policy, [a.first, a.early, a.late, a.last], now, {},
            Retention.Apply(policy, InStore(s), Retention.Cleanup(now, {})))
  }

  lemma NothingIsForgotten(policy: Retention.Policy, names: seq<string>, now: int)
    requires forall name | name in names :: !Retention.At(policy, name, 0)
    ensures !Retention.Forgets(policy, names, |names|, now)
  {
  }

  lemma ListsStore(s: System, a: Cast, listing: seq<string>)
    requires IsStopped(s, a) && listing == [a.first, a.early, a.late, a.last]
    ensures Retention.Seen(listing, |listing|) == InStore(s)
  {
    assert listing[0] == a.first && listing[1] == a.early && listing[2] == a.late && listing[3] == a.last;
    assert InStore(s) == {a.first, a.early, a.late, a.last} == Retention.Seen(listing, 4);
  }

  lemma CleanupIsEnabled(s: System, a: Cast, policy: Retention.Policy, t: Times, now: int)
    requires ValidCast(a) && IsStopped(s, a) && OfOneHour(a, policy, t, now)
    ensures var e := LateCleanup(s, a, policy, now);
      Enabled(s, e) && !Retention.Forgets(policy, e.listing, |e.listing|, now)
  {
    var listing := [a.first, a.early, a.late, a.last];
    ListsStore(s, a, listing);
    assert forall name | name in listing :: name in {a.first, a.early, a.late, a.last};
    NothingIsForgotten(policy, listing, now);
  }

  lemma CleansUp(s: System, a: Cast, policy: Retention.Policy, t: Times, now: int)
    requires ValidCast(a) && IsStopped(s, a) && OfOneHour(a, policy, t, now)
    ensures var e := LateCleanup(s, a, policy, now);
      Takes(s, e, CleanupNext(s, e.left)) && {a.late, a.last} <= CleanupNext(s, e.left).removed
  {
    var e := LateCleanup(s, a, policy, now);
    CleanupIsEnabled(s, a, policy, t, now);
    UpgradeSafety.SecondBackupIsRemoved(s, e, a.first, a.late, t.first, t.late);
    UpgradeSafety.SecondBackupIsRemoved(s, e, a.first, a.last, t.first, t.last);
  }

  /** The node was stopped, and the command still names its backup, but the backup is gone and no other
    * holds the write that the node had acknowledged, although nothing was restored or deleted by hand. */
  ghost predicate IsLost(s: System, a: Cast) {
    && UpgradeStop(a.p, {a.p}, a.last, {Write(a.cluster, 0)}) in s.stops
    && Pending(s, a.last) && a.last in s.removed && a.last !in s.restored && a.last !in s.withdrawn
    && a.last in s.backups && Write(a.cluster, 0) in s.backups[a.last].writes
    && (forall b | b in InStore(s) :: Write(a.cluster, 0) !in s.backups[b].writes)
  }

  lemma StoppedIsLost(s: System, a: Cast, left: set<string>)
    requires ValidCast(a) && IsStopped(s, a) && {a.late, a.last} <= CleanupNext(s, left).removed
    ensures IsLost(CleanupNext(s, left), a)
  {
    var s' := CleanupNext(s, left);
    assert 0 in s'.commands && s'.commands[0] == a.last;
  }

  /** The whole run, for any such cast and times. */
  lemma CleanupDefeatsUpgrade(a: Cast, policy: Retention.Policy, t: Times, now: int)
    returns (states: seq<System>, events: seq<Event>)
    requires ValidCast(a) && OfOneHour(a, policy, t, now)
    ensures IsRun(states, events) && IsLost(states[|events|], a)
  {
    StartIsInitial(a);
    var x, s := Forms(a);
    var y, s' := Serves(s, a);
    x := Append(x, y, Start(a), s, s');
    y, s := Upgrades(s', a);
    x := Append(x, y, Start(a), s', s);
    CleansUp(s, a, policy, t, now);
    var e := LateCleanup(s, a, policy, now);
    s' := CleanupNext(s, e.left);
    y := OneStep(s, e, s');
    x := Append(x, y, Start(a), s, s');
    StoppedIsLost(s, a, e.left);
    PathIsRun(x, Start(a), s');
    states, events := x.states, x.events;
  }
}
