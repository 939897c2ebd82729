/** What every history of a node keeps: the recorded process agrees with the stored state, and a
  * cluster token is installed only through an accepted and still valid PREPARE. */
module NodeHistory {
  import opened Common
  import opened NodeModel

  /** Anything that can happen to a node. */
  datatype Event =
    | Request(request: NodeModel.Request, env: Env)
    | Timer(starts: bool)
    | Exit
    | NewLeader(token: string)
    | Reboot

  function Step(n: Node, e: Event): (n': Node) {
    match e
    case Request(r, env) => Handle(n, r, env).node
    case Timer(starts) => RunOnce(n, starts).node
    case Exit => ProcessExits(n)
    case NewLeader(token) => if IsDown(n) then n else n.(leader := Some(token))
    case Reboot => StartUp(n.config, n.disk)
  }

  ghost predicate IsRun(nodes: seq<Node>, events: seq<Event>) {
    && |nodes| == |events| + 1
    && nodes[0] == StartUp(nodes[0].config, nodes[0].disk)
    && forall i | 0 <= i < |events| :: nodes[i + 1] == Step(nodes[i], events[i])
  }

  /** A recorded process runs the stored cluster, from its data directory, at the stored version and
    * behind the stored quarantine. */
  predicate ProcessMatchesState(n: Node) {
    n.process.Some? ==>
      && Configured(n)
      && n.process.value.cluster.token == n.state.value.cluster.value.token
      && n.process.value.dataDir == DataDir(n.config.baseDir, n.state.value.cluster.value.token)
      && n.process.value.etcdVersion == n.state.value.etcdVersion
      && n.process.value.quarantined == n.state.value.quarantined
      && RunsNodes(n.config, n.state.value.cluster.value.nodes, n.process.value)
  }

  /** The process runs the stored nodes, but for the node's own client URLs, which are those of its own
    * configuration, and with TLS exactly if its own stored entry says so. */
  predicate RunsNodes(config: Config, stored: seq<EtcdNode>, p: Process) {
    && |p.cluster.nodes| == |stored|
    && exists me: nat ::
         && me < |stored| && OnlySelf(stored, config.self.name, me) && p.disableTls == !stored[me].tlsEnabled
         && p.cluster.nodes == stored[me := stored[me].(clientUrls := config.self.clientUrls,
                                                         quarantinedClientUrls := config.self.quarantinedClientUrls)]
  }

  predicate Valid(n: Node) {
    && ProcessMatchesState(n)
    && (n.state.None? ==> !n.disk.Stored?)
    && (IsDown(n) ==> n.leader.None? && n.prepared.None?)
  }

  lemma JoinKeepsValid(n: Node, r: NodeModel.Request, env: Env)
    requires Valid(n) && r.JoinCluster?
    ensures var n' := HandleJoin(n, r, env).node; Valid(n') && n'.config == n.config
  {
  }

  lemma ReconfigureKeepsValid(n: Node, r: NodeModel.Request, env: Env)
    requires Valid(n) && r.Reconfigure?
    ensures var n' := HandleReconfigure(n, r, env).node; Valid(n') && n'.config == n.config
  {
  }

  lemma TimerKeepsValid(n: Node, starts: bool)
    requires Valid(n)
    ensures var n' := RunOnce(n, starts).node; Valid(n') && n'.config == n.config
  {
  }

  lemma StepKeepsValid(n: Node, e: Event)
    requires Valid(n)
    ensures Valid(Step(n, e)) && Step(n, e).config == n.config
  {
    match e
    case Request(r, env) =>
      if r.JoinCluster? {
        JoinKeepsValid(n, r, env);
      } else if r.Reconfigure? {
        ReconfigureKeepsValid(n, r, env);
      }
    case Timer(starts) => TimerKeepsValid(n, starts);
    case _ =>
  }

  /** A node that is down takes part in nothing. */
  lemma DownStaysDown(n: Node, e: Event)
    requires Valid(n) && IsDown(n)
    ensures Step(n, e) == n
  {
  }

  /** Over every history, failed writes, failed starts and dying processes included. */
  lemma {:induction false} RunKeepsValid(nodes: seq<Node>, events: seq<Event>, i: nat)
    requires IsRun(nodes, events) && i < |nodes|
    ensures Valid(nodes[i])
  {
    if i > 0 {
      RunKeepsValid(nodes, events, i - 1);
      StepKeepsValid(nodes[i - 1], events[i - 1]);
    }
  }

  lemma TokenKept(n: Node, e: Event, n': Node)
    requires Valid(n) && n.process.Some? && n' == Step(n, e) && n'.process.Some?
    ensures ClusterToken(n') == ClusterToken(n)
  {
  }

  lemma NextTokenKept(nodes: seq<Node>, events: seq<Event>, i: nat)
    requires IsRun(nodes, events) && i < |events| && nodes[i].process.Some? && nodes[i + 1].process.Some?
    ensures ClusterToken(nodes[i + 1]) == ClusterToken(nodes[i])
  {
    RunKeepsValid(nodes, events, i);
    TokenKept(nodes[i], events[i], nodes[i + 1]);
  }

  lemma RecordedToken(nodes: seq<Node>, events: seq<Event>, i: nat)
    requires IsRun(nodes, events) && i < |nodes| && nodes[i].process.Some?
    ensures ClusterToken(nodes[i]) == Some(nodes[i].process.value.cluster.token)
  {
    RunKeepsValid(nodes, events, i);
  }

  /** As long as a process is recorded, the stored cluster token stays the same. */
  lemma {:induction false} TokenFixedWhileRunning(nodes: seq<Node>, events: seq<Event>, i: nat, j: nat)
    requires IsRun(nodes, events) && i <= j < |nodes|
    requires forall k | i <= k <= j :: nodes[k].process.Some?
    ensures ClusterToken(nodes[j]) == ClusterToken(nodes[i]) == Some(nodes[i].process.value.cluster.token)
  {
    RecordedToken(nodes, events, i);
    if i < j {
      TokenFixedWhileRunning(nodes, events, i, j - 1);
      NextTokenKept(nodes, events, j - 1);
    }
  }

  /** A commit phase that carries `token`. */
  predicate IsCommit(e: Event, token: string) {
    && e.Request? && e.request.JoinCluster? && e.request.clusterToken == token
    && (e.request.phase == InitialCluster || e.request.phase == JoinExisting)
  }

  /** A PREPARE of `token` that the node accepts. */
  predicate AcceptedPrepare(n: Node, e: Event, token: string) {
    && e.Request? && e.request.JoinCluster? && e.request.clusterToken == token
    && e.request.phase == Prepare && Handle(n, e.request, e.env).reply == Ok
  }

  lemma NewTokenIsCommitted(n: Node, e: Event, token: string)
    requires Valid(n) && e != Reboot
    requires ClusterToken(Step(n, e)) == Some(token) != ClusterToken(n)
    ensures IsCommit(e, token) && ValidHeader(n, e.request.header)
    ensures n.process.None?
    ensures n.prepared.Some? && n.prepared.value.token == token && e.env.now <= n.prepared.value.validUntil
  {
  }

  /** A live PREPARE was accepted at some earlier event and has stood unchanged ever since. */
  lemma {:induction false} PreparedOrigin(nodes: seq<Node>, events: seq<Event>, i: nat) returns (j: nat)
    requires IsRun(nodes, events) && i < |nodes| && nodes[i].prepared.Some?
    ensures j < i && AcceptedPrepare(nodes[j], events[j], nodes[i].prepared.value.token)
    ensures nodes[i].prepared.value.validUntil == events[j].env.now + PreparedValidity
    ensures forall k | j < k <= i :: nodes[k].prepared == nodes[i].prepared
  {
    assert nodes[i] == Step(nodes[i - 1], events[i - 1]);
    if nodes[i - 1].prepared == nodes[i].prepared {
      j := PreparedOrigin(nodes, events, i - 1);
    } else {
      j := i - 1;
    }
  }

  /** Whenever a running etcd-manager's cluster token becomes `token`, a commit phase did it: no
    * process was running, and a PREPARE of `token` had been accepted at event `j`, at most
    * `PreparedValidity` earlier, and had been neither cancelled nor replaced since. */
  lemma JoinHistory(nodes: seq<Node>, events: seq<Event>, i: nat, token: string) returns (j: nat)
    requires IsRun(nodes, events) && i < |events| && events[i] != Reboot
    requires ClusterToken(nodes[i + 1]) == Some(token) != ClusterToken(nodes[i])
    ensures IsCommit(events[i], token) && ValidHeader(nodes[i], events[i].request.header)
    ensures nodes[i].process.None?
    ensures j < i && AcceptedPrepare(nodes[j], events[j], token)
    ensures events[i].env.now <= events[j].env.now + PreparedValidity
    ensures forall k | j < k <= i :: nodes[k].prepared == Some(Prepared(events[j].env.now + PreparedValidity, token))
  {
    RunKeepsValid(nodes, events, i);
    NewTokenIsCommitted(nodes[i], events[i], token);
    j := PreparedOrigin(nodes, events, i);
  }

  /** From the acceptance of a PREPARE of `token` until it lapses, is cancelled or is used, the only
    * token that any sequence of events short of a reboot can install is `token`. */
  lemma {:induction false} LivePrepareExcludesOthers(nodes: seq<Node>, events: seq<Event>, i: nat, j: nat, p: Prepared)
    requires IsRun(nodes, events) && i <= j < |nodes|
    requires forall k | i <= k < j :: nodes[k].prepared == Some(p)
    requires forall k | i <= k < j :: events[k] != Reboot
    requires forall k | i <= k < j && events[k].Request? :: events[k].env.now <= p.validUntil
    ensures ClusterToken(nodes[j]) in {ClusterToken(nodes[i]), None, Some(p.token)}
  {
    if i < j {
      LivePrepareExcludesOthers(nodes, events, i, j - 1, p);
      RunKeepsValid(nodes, events, j - 1);
      var n, n' := nodes[j - 1], nodes[j];
      assert n' == Step(n, events[j - 1]);
      if n'.state.Some? && ClusterToken(n') != None && ClusterToken(n') != ClusterToken(n) {
        NewTokenIsCommitted(n, events[j - 1], ClusterToken(n').value);
      }
    }
  }

  // ---------- etcd is told once to create a cluster ----------

  /** Neither memory nor the state file asks for a new cluster. */
  predicate Settled(n: Node) {
    && (n.state.Some? ==> !n.state.value.newCluster)
    && (n.disk.Stored? ==> !n.disk.state.newCluster)
  }

  predicate IsInitial(e: Event) {
    e.Request? && e.request.JoinCluster? && e.request.phase == InitialCluster
  }

  predicate IsJoin(e: Event) {
    e.Request? && e.request.JoinCluster? && e.request.phase == JoinExisting
  }

  /** The same process, dead or alive. */
  predicate SameProcess(n: Node, n': Node) {
    n.process.Some? && n'.process.Some? && n'.process.value == n.process.value.(exited := n'.process.value.exited)
  }

  /** An accepted commit leaves a process that was told to create the cluster if it is an initial one, and to
    * join it otherwise; nothing that is stored asks for a new cluster any more. */
  lemma CommitSettles(n: Node, e: Event)
    requires Valid(n) && (IsInitial(e) || IsJoin(e)) && Handle(n, e.request, e.env).reply == Ok
    ensures var n' := Step(n, e);
      && Settled(n') && n'.process.Some? && !n'.process.value.exited && n'.disk == Stored(n'.state.value)
      && (n'.process.value.createNew <==> IsInitial(e))
      && n'.state.value.cluster == Some(Cluster(e.request.clusterToken, e.request.nodes))
      && n'.state.value.etcdVersion == e.request.etcdVersion
  {
  }

  lemma JoinStaysSettled(n: Node, r: NodeModel.Request, env: Env)
    requires Settled(n) && r.JoinCluster? && r.phase != InitialCluster
    ensures var n' := HandleJoin(n, r, env).node;
      Settled(n') && (n'.process.Some? && n'.process.value.createNew ==> SameProcess(n, n'))
  {
  }

  /** From then on no start, by timer, Reconfigure or after a reboot, asks for a new cluster. */
  lemma SettledStays(n: Node, e: Event)
    requires Valid(n) && Settled(n) && !IsInitial(e)
    ensures var n' := Step(n, e);
      Settled(n') && (n'.process.Some? && n'.process.value.createNew ==> SameProcess(n, n'))
  {
    if e.Request? && e.request.JoinCluster? {
      JoinStaysSettled(n, e.request, e.env);
    }
  }

  lemma CommitSettlesTo(n: Node, e: Event, n': Node)
    requires Valid(n) && IsInitial(e) && Handle(n, e.request, e.env).reply == Ok && n' == Step(n, e)
    ensures Settled(n') && n'.process.Some? && n'.process.value.createNew
  {
    CommitSettles(n, e);
  }

  lemma SettledStaysSo(n: Node, e: Event, n': Node)
    requires Valid(n) && Settled(n) && !IsInitial(e) && n' == Step(n, e)
    ensures Settled(n') && (n'.process.Some? && n'.process.value.createNew ==> SameProcess(n, n'))
  {
    SettledStays(n, e);
  }

  /** After an accepted INITIAL_CLUSTER and until the next one, the only process that was told to create a
    * cluster is the one it started. */
  lemma {:induction false} CreatesOnce(nodes: seq<Node>, events: seq<Event>, i: nat, j: nat)
    requires IsRun(nodes, events) && i < j < |nodes|
    requires IsInitial(events[i]) && Handle(nodes[i], events[i].request, events[i].env).reply == Ok
    requires forall k | i < k < j :: !IsInitial(events[k])
    ensures nodes[i + 1].process.Some? && nodes[i + 1].process.value.createNew && Settled(nodes[j])
    ensures nodes[j].process.Some? && nodes[j].process.value.createNew ==>
      forall k | i < k <= j :: SameProcess(nodes[i + 1], nodes[k])
  {
    RunKeepsValid(nodes, events, j - 1);
    if j == i + 1 {
      CommitSettlesTo(nodes[i], events[i], nodes[j]);
    } else {
      CreatesOnce(nodes, events, i, j - 1);
      SettledStaysSo(nodes[j - 1], events[j - 1], nodes[j]);
    }
  }

  // ---------- which requests succeed ----------

  /** A request for another cluster, or under another token than the accepted one, is refused and changes
    * nothing. */
  lemma ForeignIsRefused(n: Node, r: NodeModel.Request, env: Env)
    requires r.header.clusterName != n.config.clusterName || n.leader != Some(r.header.leadershipToken)
    ensures Handle(n, r, env) == Outcome(n, Error)
  {
  }

  /** A node that is up obeys exactly the leader it was told of last. */
  lemma LeaderIsObeyed(n: Node, token: string, h: Header)
    requires !IsDown(n)
    ensures ValidHeader(Step(n, NewLeader(token)), h) <==> h == Header(token, n.config.clusterName)
  {
  }

  /** Processes of different clusters never share a data directory. */
  lemma DirectoriesDiffer(n: Node, m: Node)
    requires Valid(n) && Valid(m) && n.process.Some? && m.process.Some? && n.config.baseDir == m.config.baseDir
    ensures n.process.value.dataDir == m.process.value.dataDir <==> ClusterToken(n) == ClusterToken(m)
  {
    var prefix, t, u := n.config.baseDir + "/data/", ClusterToken(n).value, ClusterToken(m).value;
    assert (prefix + t)[|prefix|..] == t && (prefix + u)[|prefix|..] == u;
  }

  /** A PREPARE succeeds exactly if the leader is the accepted one, the version is known, no process is recorded
    * and no other PREPARE is live; and then nothing else changes. */
  lemma PrepareExactly(n: Node, r: NodeModel.Request, env: Env)
    requires r.JoinCluster? && r.phase == Prepare
    ensures var o := Handle(n, r, env);
      && (o.reply == Ok <==>
            && ValidHeader(n, r.header) && r.etcdVersion in n.config.versions && n.process.None?
            && (n.prepared.Some? ==> n.prepared.value.validUntil < env.now))
      && (o.reply == Ok ==> o.node == n.(prepared := Some(Prepared(env.now + PreparedValidity, r.clusterToken))))
      && (o.reply != Ok ==> o.node == n || (o.node == n.(prepared := None) && n.prepared.value.validUntil < env.now))
  {
  }

  /** A CANCEL_PREPARE undoes a PREPARE of its token, and of no other. */
  lemma CancelExactly(n: Node, r: NodeModel.Request, env: Env)
    requires r.JoinCluster? && r.phase == CancelPrepare && ValidHeader(n, r.header)
    ensures var o := Handle(n, r, env);
      && (o.reply == Ok <==> n.prepared.None? || n.prepared.value.token == r.clusterToken)
      && o.node == if o.reply == Ok then n.(prepared := None) else n
  {
  }

  /** The state can be started: a cluster with a token, one entry of the node's own, a known version. */
  predicate Startable(config: Config, s: EtcdState) {
    && s.cluster.Some? && s.cluster.value.token != "" && s.etcdVersion in config.versions
    && exists me: nat :: me < |s.cluster.value.nodes| && OnlySelf(s.cluster.value.nodes, config.self.name, me)
  }

  lemma StartableExactly(config: Config, s: EtcdState)
    ensures BuildProcess(config, s).Some? <==> Startable(config, s)
  {
  }

  /** A timer that can start processes leaves a live one exactly if there was one, or the state can be
    * started. */
  lemma TimerHeals(n: Node)
    requires Valid(n)
    ensures var n' := RunOnce(n, true).node;
      n'.process.Some? && !n'.process.value.exited <==>
        || (n.process.Some? && !n.process.value.exited)
        || (n.state.Some? && Startable(n.config, n.state.value))
  {
    if n.state.Some? {
      StartableExactly(n.config, n.state.value);
    }
  }

  /** A process that dies is missed at the next timer, and replaced if the state can be started. */
  lemma DeadIsReplaced(n: Node)
    requires Valid(n) && n.process.Some?
    ensures Step(Step(n, Exit), Timer(false)).process.None?
    ensures var n' := Step(Step(n, Exit), Timer(true));
      n'.process.Some? && !n'.process.value.exited <==> Startable(n.config, n.state.value)
  {
    StepKeepsValid(n, Exit);
    TimerHeals(Step(n, Exit));
  }

  /** What a Reconfigure asks of the stored state. */
  predicate MeetsRequest(n: Node, n': Node, r: NodeModel.Request)
    requires Configured(n) && r.Reconfigure?
  {
    && Configured(n')
    && var s, s' := n.state.value, n'.state.value;
       && s'.cluster.value.token == s.cluster.value.token && s'.quarantined == r.quarantined
       && s'.etcdVersion == (if r.setEtcdVersion != "" then r.setEtcdVersion else s.etcdVersion)
       && |s'.cluster.value.nodes| == |s.cluster.value.nodes|
       && forall i | 0 <= i < |s.cluster.value.nodes| ::
            s'.cluster.value.nodes[i] ==
              if r.enableTls && s.cluster.value.nodes[i].name == n.config.self.name
              then EnableTls(s.cluster.value.nodes[i]) else s.cluster.value.nodes[i]
  }

  /** A Reconfigure succeeds exactly if the leader is the accepted one, what it asks for can be started, and the
    * kill, the write and the start succeed; and then what it asked for is stored and runs. */
  lemma ReconfigureExactly(n: Node, r: NodeModel.Request, env: Env)
    requires Valid(n) && r.Reconfigure? && Configured(n)
    ensures var o := Handle(n, r, env);
      && (o.reply == Ok <==>
            && ValidHeader(n, r.header) && (n.process.Some? ==> env.kills) && env.write == Written && env.starts
            && Startable(n.config, n.state.value.(etcdVersion :=
                 if r.setEtcdVersion != "" then r.setEtcdVersion else n.state.value.etcdVersion)))
      && (o.reply == Ok ==>
            && MeetsRequest(n, o.node, r) && o.node.disk == Stored(o.node.state.value)
            && o.node.process.Some? && !o.node.process.value.exited)
  {
    var o := Handle(n, r, env);
    var s := n.state.value;
    var me := SelfIndex(s.cluster.value.nodes, n.config.self.name);
    if me.Some? {
      var next := Reconfigured(s, me.value, r);
      assert OnlySelf(next.cluster.value.nodes, n.config.self.name, me.value);
      StartableExactly(n.config, next);
    }
  }

  /** A StopEtcd of a configured node succeeds exactly if the leader is the accepted one and the kill and the
    * write succeed; and then nothing is left of the cluster, in memory or in the file. */
  lemma StopExactly(n: Node, r: NodeModel.Request, env: Env)
    requires r.StopEtcd? && Configured(n)
    ensures var o := Handle(n, r, env);
      && (o.reply == Ok <==> ValidHeader(n, r.header) && (n.process.Some? ==> env.kills) && env.write == Written)
      && (o.reply == Ok ==>
            o.node.process.None? && !Configured(o.node) && o.node.disk == Stored(o.node.state.value))
  {
  }

  /** A PREPARE of `token` at time `t`, then its commit at time `u` with every write and start
    * succeeding: the commit is accepted exactly when `u` is within the validity of the PREPARE,
    * and then the node runs the new cluster; otherwise nothing but the lapsed PREPARE changes. */
  lemma PrepareThenCommit(n: Node, prepare: NodeModel.Request, commit: NodeModel.Request, t: int, u: int)
    requires Valid(n) && n.process.None? && n.prepared.None? && t <= u
    requires prepare.JoinCluster? && prepare.phase == Prepare && ValidHeader(n, prepare.header)
    requires commit == prepare.(phase := InitialCluster) || commit == prepare.(phase := JoinExisting)
    requires prepare.clusterToken != "" && prepare.etcdVersion in n.config.versions
    requires SelfIndex(prepare.nodes, n.config.self.name).Some?
    ensures var n1 := Handle(n, prepare, Env(t, Written, Written, true, true)).node;
      var o := Handle(n1, commit, Env(u, Written, Written, true, true));
      && (o.reply == Ok <==> u <= t + PreparedValidity)
      && (o.reply == Ok ==>
            && ClusterToken(o.node) == Some(commit.clusterToken) && o.node.process.Some? && o.node.prepared.None?
            && o.node.disk == Stored(o.node.state.value)
            && o.node.process.value.createNew == o.node.state.value.quarantined == (commit.phase == InitialCluster))
      && (o.reply != Ok ==> o.node == n)
  {
  }
}
