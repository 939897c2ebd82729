/** Recovery is possible: from every state in which a command names a stored backup there is a way on to an open
  * cluster that holds the whole backup.  So what the upgrade theorems call recoverable is worth something. */
module Recovery {
  import opened Common
  import opened NodeModel
  import opened ControlPlane
  import opened UpgradeRun
  import UpgradeSafety
  import NodeHistory

  /** Nothing happens. */
  lemma Stays(s: System) returns (x: Path)
    ensures IsPath(x, s, s)
  {
    x := Path([s], []);
  }

  /** Controller `c` and node `p` have started again. */
  function Restarted(s: System, c: string, p: string): System
    requires Known(s, c, p)
  {
    s.(controllers := s.controllers[c := Controller(None, Idle, map[])],
       nodes := s.nodes[p := StartUp(s.nodes[p].config, s.nodes[p].disk)])
  }

  lemma Restarts(s: System, c: string, p: string) returns (x: Path)
    requires Known(s, c, p)
    ensures IsPath(x, s, Restarted(s, c, p))
  {
    var s1 := s.(controllers := s.controllers[c := Controller(None, Idle, map[])]);
    x := ByOwn(s, c, Crash, s1);
    var y := OneStep(s1, NodeEvent(p, NodeHistory.Reboot), Restarted(s, c, p));
    x := Append(x, y, s, s1, Restarted(s, c, p));
  }

  /** A node without a process that has accepted `leader`. */
  predicate IsFree(n: Node, leader: string) {
    n.leader == Some(leader) && n.process.None? && n.prepared.None?
  }

  lemma Frees(s: System, c: string, p: string, leader: string) returns (x: Path, n': Node)
    requires Known(s, c, p) && s.controllers[c].phase.Managing? && s.controllers[c].term == Some(leader)
    requires IsFree(s.nodes[p], leader)
    ensures IsPath(x, s, s.(nodes := s.nodes[p := n']))
    ensures IsFree(n', leader) && !Configured(n') && n'.config == s.nodes[p].config
  {
    var n := s.nodes[p];
    if Configured(n) {
      var r := StopEtcd(Header(leader, n.config.clusterName));
      n' := Handle(n, r, Fine).node;
      x := ByRequest(s, c, p, r, n');
    } else {
      n' := n;
      assert s.nodes[p := n] == s.nodes;
      x := Stays(s);
    }
  }

  /** The new-cluster steps of a restore, at one node. */
  lemma Rebuilds(s: System, c: string, p: string, leader: string, cluster: string, version: string)
    returns (x: Path, n': Node)
    requires Known(s, c, p) && s.controllers[c].phase.Managing? && s.controllers[c].term == Some(leader)
    requires IsFree(s.nodes[p], leader) && cluster != "" && version in s.nodes[p].config.versions
    ensures IsPath(x, s, s.(nodes := s.nodes[p := n'])) && Runs(n', leader, cluster, true)
  {
    var free, y;
    x, free := Frees(s, c, p, leader);
    var s1 := s.(nodes := s.nodes[p := free]);
    y := SendsPrepare(s1, c, p, leader, cluster, version);
    var s2 := s1.(nodes := s1.nodes[p := free.(prepared := Some(Prepared(PreparedValidity, cluster)))]);
    x := Append(x, y, s, s1, s2);
    y, n' := SendsCommit(s2, c, p, leader, cluster, version);
    var s3 := s.(nodes := s.nodes[p := n']);
    assert s2.(nodes := s2.nodes[p := n']) == s3;
    x := Append(x, y, s, s2, s3);
  }

  /** The backup that command `id` names is in `cluster`, and the command is gone. */
  function AfterRestore(s: System, c: string, id: nat, b: string, cluster: string): System
    requires c in s.controllers && b in s.backups
  {
    s.(data := s.data[cluster := Contents(s, cluster) + s.backups[b].writes], restored := s.restored[b := cluster],
       commands := s.commands - {id},
       controllers := s.controllers[c := Controller(s.controllers[c].term, Managing, map[])])
  }

  lemma RestoresAndRemoves(s: System, c: string, p: string, id: nat, b: string, leader: string, cluster: string)
    returns (x: Path)
    requires Known(s, c, p) && s.controllers[c].phase.Managing? && s.controllers[c].term == Some(leader)
    requires Runs(s.nodes[p], leader, cluster, true) && b in InStore(s)
    requires id in s.controllers[c].commands && s.controllers[c].commands[id] == b
    ensures IsPath(x, s, SetPhase(AfterRestore(s, c, id, b, cluster), c, Idle))
  {
    var writes := s.backups[b].writes;
    var s1 := SetPhase(s.(data := s.data[cluster := Contents(s, cluster) + writes],
                          restored := s.restored[b := cluster]), c, Restored(id, b));
    x := ByStore(s, c, Restore(p, id, writes, true), s1);
    var s2 := SetPhase(AfterRestore(s, c, id, b, cluster), c, Idle);
    var y := ByStore(s1, c, RemoveCommand, s2);
    x := Append(x, y, s, s1, s2);
  }

  lemma Recovers(s: System, c: string, p: string, id: nat, b: string, leader: string, cluster: string)
    returns (x: Path, n': Node)
    requires Known(s, c, p) && s.controllers[c].phase.Managing? && s.controllers[c].term == Some(leader) && s.marker
    requires Runs(s.nodes[p], leader, cluster, true) && b in InStore(s)
    requires id in s.controllers[c].commands && s.controllers[c].commands[id] == b
    ensures IsPath(x, s, AfterRestore(s, c, id, b, cluster).(nodes := s.nodes[p := n']))
    ensures Runs(n', leader, cluster, false)
  {
    x := RestoresAndRemoves(s, c, p, id, b, leader, cluster);
    var s2 := AfterRestore(s, c, id, b, cluster);
    var s1 := SetPhase(s2, c, Idle);
    var y := Asserts(s1, c, s1.controllers[c]);
    LastPhase(s2, c, Idle, Managing);
    assert SetPhase(s2, c, Managing) == s2;
    x := Append(x, y, s, s1, s2);
    y, n' := UpgradeRun.Opens(s2, c, p, leader, cluster);
    x := Append(x, y, s, s2, s2.(nodes := s2.nodes[p := n']));
  }

  /** From any state in which a command names a stored backup, and with any controller, any node whose state file
    * can be read, a new leadership token and any cluster token, there is a way on to a state in which the node
    * serves that cluster, open to clients, the cluster holds the whole backup, and the command is gone. */
  lemma RecoveryIsPossible(s: System, b: string, c: string, p: string, leader: string, cluster: string, version: string)
    returns (x: Path, s': System, id: nat)
    requires UpgradeSafety.Restorable(s, b) && s.marker && Known(s, c, p) && !s.nodes[p].disk.Unreadable?
    requires leader !in s.tokens && cluster != "" && version in s.nodes[p].config.versions
    ensures IsPath(x, s, s') && id in s.commands && s.commands[id] == b && s'.commands == s.commands - {id}
    ensures p in s'.nodes && Runs(s'.nodes[p], leader, cluster, false)
    ensures b in s'.restored && s'.restored[b] == cluster && s.backups[b].writes <= Contents(s', cluster)
    ensures s'.upgrades == s.upgrades
  {
    id :| id in s.commands && s.commands[id] == b;
    x := Restarts(s, c, p);
    var s1 := Restarted(s, c, p);
    var y := Wins(s1, c, p, leader);
    var s2 := Won(s1, c, p, leader);
    x := Append(x, y, s, s1, s2);
    var n;
    y, n := Rebuilds(s2, c, p, leader, cluster, version);
    var s3 := s2.(nodes := s2.nodes[p := n]);
    x := Append(x, y, s, s2, s3);
    y, n := Recovers(s3, c, p, id, b, leader, cluster);
    s' := AfterRestore(s3, c, id, b, cluster).(nodes := s3.nodes[p := n]);
    x := Append(x, y, s, s3, s');
  }

  // ---------- an upgrade from its start to its end ----------

  /** The upgrade ran to its end, and a new cluster is open that has the write the old one had acknowledged. */
  ghost predicate IsUpgraded(s: System, a: Cast, leader: string, cluster: string) {
    && UpgradeDone({a.p}, a.last) in s.upgrades && s.commands == map[]
    && a.p in s.nodes && Runs(s.nodes[a.p], leader, cluster, false)
    && a.last in s.restored && s.restored[a.last] == cluster && Write(a.cluster, 0) in Contents(s, cluster)
  }

  lemma Finishes(s: System, a: Cast) returns (x: Path, s': System)
    requires ValidCast(a) && IsStopped(s, a)
    ensures IsPath(x, s, s')
    ensures s' == SetPhase(s, a.c, Idle).(upgrades := s.upgrades + {UpgradeDone({a.p}, a.last)})
  {
    s' := SetPhase(s, a.c, Idle).(upgrades := s.upgrades + {UpgradeDone({a.p}, a.last)});
    x := ByOwn(s, a.c, FinishUpgrade, s');
  }

  /** A run of a whole upgrade: the cluster is created, serves a client, is stopped with its backup named by a
    * command, and a later leader makes a new cluster and restores the backup into it. */
  lemma UpgradeSucceeds(a: Cast, leader: string, cluster: string) returns (states: seq<System>, events: seq<Event>)
    requires ValidCast(a) && leader !in {a.leaderC, a.leaderD} && cluster != ""
    ensures IsRun(states, events) && IsUpgraded(states[|events|], a, leader, cluster)
  {
    StartIsInitial(a);
    var x, s := Forms(a);
    var y, s' := Serves(s, a);
    x := Append(x, y, Start(a), s, s');
    y, s := Upgrades(s', a);
    x := Append(x, y, Start(a), s', s);
    y, s' := Finishes(s, a);
    x := Append(x, y, Start(a), s, s');
    assert 0 in s'.commands && s'.commands[0] == a.last;
    var id;
    y, s, id := RecoveryIsPossible(s', a.last, a.c, a.p, leader, cluster, a.version);
    x := Append(x, y, Start(a), s', s);
    PathIsRun(x, Start(a), s);
    states, events := x.states, x.events;
  }
}
