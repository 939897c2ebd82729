/** Growing a running cluster: addNodeToCluster, and the backup that precedes it. */
module Membership {
  import opened Common
  import opened NodeModel
  import opened Network
  import NewCluster

  /** What the controller learnt at the start of its cycle.  Members are keyed by etcd's member id
    * and carry the name of the peer they run on. */
  datatype ClusterState = ClusterState(members: map<string, string>, healthy: set<string>, infos: map<string, Info>)

  ghost predicate WellFormed(state: ClusterState, nodes: map<string, Node>) {
    state.healthy <= state.members.Keys && Current(state.infos, nodes)
  }

  // ---------- quorum arithmetic ----------

  /** A healthy quorum is again one after a member was added and became healthy. */
  lemma GrownQuorum(healthy: nat, members: nat)
    requires healthy >= QuorumSize(members)
    ensures healthy + 1 >= QuorumSize(members + 1)
  {
  }

  // ---------- backups ----------

  /** A healthy member runs on peer `p`. */
  ghost predicate RunsHealthy(state: ClusterState, p: string) {
    p in state.infos && exists id :: id in state.healthy && id in state.members && state.members[id] == p
  }

  /** The peer of a healthy member was asked for a backup. */
  ghost predicate AskedForBackup(x: Exchange, state: ClusterState, header: Header) {
    x.action.DoBackup? && x.action.header == header && RunsHealthy(state, x.action.p)
  }

  /** It was asked, and took it. */
  ghost predicate TookBackup(x: Exchange, state: ClusterState, header: Header) {
    x.ok && AskedForBackup(x, state, header)
  }

  /** Peers of healthy members were asked for a backup until one took it, or all of them failed. */
  ghost predicate BackupAttempts(t: seq<Exchange>, state: ClusterState, header: Header, ok: bool) {
    && (forall i | 0 <= i < |t| :: AskedForBackup(t[i], state, header) && (t[i].ok ==> ok && i == |t| - 1))
    && (if ok then t != [] && t[|t| - 1].ok
        else forall p | RunsHealthy(state, p) :: Exchange(DoBackup(p, header), false) in t)
  }

  /** From entry `n` of the log on, whatever is not a backup comes after one that was taken. */
  ghost predicate BackupComesFirst(log: seq<Exchange>, n: nat, state: ClusterState, header: Header) {
    forall i | n <= i < |log| && !log[i].action.DoBackup? :: exists j :: n <= j < i && TookBackup(log[j], state, header)
  }

  lemma AttemptsComeFirst(log: seq<Exchange>, t: seq<Exchange>, rest: seq<Exchange>, state: ClusterState,
                          header: Header)
    requires BackupAttempts(t, state, header, true)
    ensures BackupComesFirst(log + t + rest, |log|, state, header)
  {
    var all, last := log + t + rest, |log| + |t| - 1;
    assert all[last] == t[|t| - 1] && TookBackup(all[last], state, header);
    forall i | |log| <= i <= last ensures all[i].action.DoBackup? {
      assert all[i] == t[i - |log|] && AskedForBackup(all[i], state, header);
    }
  }

  /** The peers of the healthy members outside `todo` were asked, and all failed. */
  ghost predicate AllFailed(t: seq<Exchange>, state: ClusterState, header: Header, todo: set<string>)
    requires state.healthy <= state.members.Keys
  {
    && (forall i | 0 <= i < |t| :: AskedForBackup(t[i], state, header) && !t[i].ok)
    && (forall id | id in state.healthy && id !in todo && state.members[id] in state.infos ::
          Exchange(DoBackup(state.members[id], header), false) in t)
  }

  lemma OneMoreAttempt(t: seq<Exchange>, state: ClusterState, header: Header, todo: set<string>, id: string, ok: bool)
    requires state.healthy <= state.members.Keys && AllFailed(t, state, header, todo + {id})
    requires id in state.healthy && state.members[id] in state.infos
    ensures var t' := t + [Exchange(DoBackup(state.members[id], header), ok)];
      if ok then BackupAttempts(t', state, header, true) else AllFailed(t', state, header, todo)
  {
    assert RunsHealthy(state, state.members[id]);
  }

  /** doClusterBackup: ask the peers of healthy members in any order until one succeeds. */
  method DoClusterBackup(net: Network, header: Header, state: ClusterState) returns (ok: bool, ghost t: seq<Exchange>)
    requires net.Valid() && WellFormed(state, net.nodes)
    modifies net
    ensures net.Valid() && net.clock == old(net.clock) && AllQuiet(old(net.nodes), net.nodes)
    ensures net.log == old(net.log) + t && BackupAttempts(t, state, header, ok)
    ensures ok ==> t[|t| - 1].action.p in net.nodes && ValidHeader(net.nodes[t[|t| - 1].action.p], header)
  {
    var todo := state.healthy;
    t := [];
    while todo != {}
      invariant todo <= state.healthy
      invariant net.Valid() && net.clock == old(net.clock) && AllQuiet(old(net.nodes), net.nodes)
      invariant net.log == old(net.log) + t
      invariant AllFailed(t, state, header, todo)
      decreases todo
    {
      var id :| id in todo;
      assert todo == (todo - {id}) + {id};
      todo := todo - {id};
      var name := state.members[id];
      if name in state.infos {  // FindPeer
        ok := net.Backup(name, header);
        OneMoreAttempt(t, state, header, todo, id, ok);
        t := t + [Exchange(DoBackup(name, header), ok)];
        if ok {
          return;
        }
      }
    }
    ok := false;
  }

  // ---------- adding a node ----------

  datatype Added = NoQuorum | NoIdlePeer | NoBackup | NoCluster | Failed(p: string) | Started(p: string)

  /** idlePeers: the peers that reported no cluster. */
  method IdlePeers(infos: map<string, Info>) returns (idle: set<string>)
    ensures idle == set p | p in infos && infos[p].state.None?
  {
    idle := {};
    var todo := infos.Keys;
    while todo != {}
      invariant todo <= infos.Keys
      invariant idle == set p | p in infos && p !in todo && infos[p].state.None?
      decreases todo
    {
      var p :| p in todo;
      todo := todo - {p};
      if infos[p].state.None? {
        idle := idle + {p};
      }
    }
  }

  /** Nothing of the peer changed but, at most, a PREPARE of `token` that lapses by itself. */
  predicate OnlyPrepared(n: Node, n': Node, token: string, clock: int) {
    && Quiet(n, n'.(prepared := n.prepared))
    && (n'.prepared == n.prepared || n'.prepared.None?
        || (n'.prepared.value.token == token && n'.prepared.value.validUntil <= clock + PreparedValidity))
  }

  /** The peer is a client-facing member of the cluster of `nodes`. */
  predicate Runs(n: Node, token: string, version: string, nodes: seq<EtcdNode>) {
    && n.state.Some? && n.state.value.cluster == Some(Cluster(token, nodes))
    && Released(n) && n.state.value.etcdVersion == version
  }

  /** The join was not confirmed: the peer is prepared at most, or has the cluster in its state. */
  predicate JoinOutcome(n: Node, n': Node, token: string, nodes: seq<EtcdNode>, clock: int) {
    OnlyPrepared(n, n', token, clock) || (n'.state.Some? && n'.state.value.cluster == Some(Cluster(token, nodes)))
  }

  lemma AtPeer(n: Node, r: NodeModel.Request, env: Env, n': Node, o: Reply)
    requires HandledAt(n, r, env, n', o) && r.JoinCluster?
    ensures r.phase in {Prepare, CancelPrepare} ==> OnlyPrepared(n, n', r.clusterToken, env.now)
    ensures r.phase == JoinExisting ==> JoinOutcome(n, n', r.clusterToken, r.nodes, env.now)
    ensures o == Ok && r.phase == JoinExisting ==> Runs(n', r.clusterToken, r.etcdVersion, r.nodes)
  {
  }

  method Request(net: Network, p: string, r: NodeModel.Request) returns (ok: bool)
    requires net.Valid() && p in net.nodes && r.JoinCluster?
    modifies net
    ensures net.Valid() && net.nodes.Keys == old(net.nodes.Keys) && old(net.clock) <= net.clock
    ensures net.log == old(net.log) + [Exchange(Ask(p, r), ok)]
    ensures forall q | q in net.nodes && q != p :: Quiet(old(net.nodes)[q], net.nodes[q])
    ensures r.phase in {Prepare, CancelPrepare} ==>
      OnlyPrepared(old(net.nodes)[p], net.nodes[p], r.clusterToken, net.clock)
    ensures r.phase == JoinExisting ==>
      JoinOutcome(old(net.nodes)[p], net.nodes[p], r.clusterToken, r.nodes, net.clock)
    ensures ok && r.phase == JoinExisting ==> Runs(net.nodes[p], r.clusterToken, r.etcdVersion, r.nodes)
  {
    var reply, env, arrived := net.Call(p, r);
    if arrived {
      ghost var o :| HandledAt(old(net.nodes)[p], r, env, net.nodes[p], o) && (reply == Lost || reply == Answered(o));
      AtPeer(old(net.nodes)[p], r, env, net.nodes[p], o);
    }
    return reply == Answered(Ok);
  }

  /** The cluster a peer is asked to join. */
  datatype Join = Join(token: string, version: string, nodes: seq<EtcdNode>)

  function Prepared(header: Header, p: string, join: Join): Action {
    Ask(p, JoinCluster(header, Prepare, join.token, join.version, join.nodes))
  }

  function Joined(header: Header, p: string, join: Join): Action {
    Ask(p, JoinCluster(header, JoinExisting, join.token, join.version, join.nodes))
  }

  function Cancelled(header: Header, p: string, join: Join): Action {
    Ask(p, JoinCluster(header, CancelPrepare, join.token, "", []))
  }

  /** Peer `p` was asked to prepare, etcd was told of it, and it was asked to join, up to the first failure; a
    * failed member add is followed by an attempt to cancel the PREPARE. */
  predicate IsExpansion(t: seq<Exchange>, header: Header, p: string, node: EtcdNode, join: Join, ok: bool) {
    && 1 <= |t| <= 3 && t[0].action == Prepared(header, p, join)
    && if !t[0].ok then |t| == 1 && !ok
       else
         && |t| == 3 && t[1].action == AddMember(node)
         && if t[1].ok then t[2] == Exchange(Joined(header, p, join), ok)
            else t[2].action == Cancelled(header, p, join) && !ok
  }

  /** From entry `n` of the log on, peer `p` was asked to join only after it had accepted a PREPARE of the
    * same token and etcd had then been told of it. */
  ghost predicate PrepareComesFirst(log: seq<Exchange>, n: nat, header: Header, p: string, node: EtcdNode, join: Join) {
    forall i | n <= i < |log| && log[i].action.Ask? && log[i].action.request.JoinCluster?
            && log[i].action.request.phase == JoinExisting ::
      exists j, k :: n <= j < k < i && log[j] == Exchange(Prepared(header, p, join), true)
                  && log[k] == Exchange(AddMember(node), true)
  }

  lemma ExpansionPreparesFirst(log: seq<Exchange>, t: seq<Exchange>, header: Header, p: string, node: EtcdNode,
                               join: Join, n: nat, ok: bool)
    requires IsExpansion(t, header, p, node, join, ok) && n <= |log|
    requires forall i | n <= i < |log| :: log[i].action.DoBackup?
    ensures PrepareComesFirst(log + t, n, header, p, node, join)
  {
    var all := log + t;
    forall i | n <= i < |all| && all[i].action.Ask? && all[i].action.request.JoinCluster?
            && all[i].action.request.phase == JoinExisting
      ensures exists j, k :: n <= j < k < i && all[j] == Exchange(Prepared(header, p, join), true)
                          && all[k] == Exchange(AddMember(node), true)
    {
      assert i >= |log| && all[i] == t[i - |log|];
      assert i == |log| + 2;
      assert all[|log|] == t[0] && all[|log| + 1] == t[1];
    }
  }

  /** The outcome at the chosen peer: nothing but a lapsing PREPARE before etcd was told of it, a running
    * member once the join was confirmed. */
  predicate PeerOutcome(n: Node, n': Node, node: EtcdNode, t: seq<Exchange>, join: Join, ok: bool, clock: int) {
    && JoinOutcome(n, n', join.token, join.nodes, clock)
    && (Exchange(AddMember(node), true) !in t ==> OnlyPrepared(n, n', join.token, clock))
    && (ok ==> Runs(n', join.token, join.version, join.nodes))
  }

  /** PREPARE, add the member to etcd, JOIN_EXISTING; a failed add is followed by CANCEL_PREPARE. */
  method StartOn(net: Network, header: Header, p: string, node: EtcdNode, join: Join)
    returns (ok: bool, ghost t: seq<Exchange>)
    requires net.Valid() && p in net.nodes
    modifies net
    ensures net.Valid() && net.nodes.Keys == old(net.nodes.Keys)
    ensures net.log == old(net.log) + t && IsExpansion(t, header, p, node, join, ok)
    ensures forall q | q in net.nodes && q != p :: Quiet(old(net.nodes)[q], net.nodes[q])
    ensures PeerOutcome(old(net.nodes)[p], net.nodes[p], node, t, join, ok, net.clock)
  {
    var prepared := Request(net, p, JoinCluster(header, Prepare, join.token, join.version, join.nodes));
    t := [Exchange(Prepared(header, p, join), prepared)];
    if !prepared {
      return false, t;
    }
    var added := net.Do(AddMember(node));
    t := t + [Exchange(AddMember(node), added)];
    if !added {
      var cancelled := Request(net, p, JoinCluster(header, CancelPrepare, join.token, "", []));
      t := t + [Exchange(Cancelled(header, p, join), cancelled)];
      return false, t;
    }
    ok := Request(net, p, JoinCluster(header, JoinExisting, join.token, join.version, join.nodes));
    t := t + [Exchange(Joined(header, p, join), ok)];
  }

  /** The peer reported a cluster with this token and version. */
  predicate Reports(info: Info, token: string, version: string) {
    && info.state.Some? && info.state.value.cluster.Some?
    && info.state.value.cluster.value.token == token && info.state.value.etcdVersion == version
  }

  /** No peer reported a cluster that has a token. */
  ghost predicate NoClusterReported(infos: map<string, Info>) {
    forall p, token, version | p in infos && Reports(infos[p], token, version) :: token == ""
  }

  /** The token and version of some configured peer. */
  method FindCluster(infos: map<string, Info>) returns (token: string, version: string)
    ensures token == "" || exists p :: p in infos && Reports(infos[p], token, version)
    ensures token == "" ==> NoClusterReported(infos)
  {
    token, version := "", "";
    var todo := infos.Keys;
    while todo != {}
      invariant todo <= infos.Keys
      invariant token == "" || exists p :: p in infos && Reports(infos[p], token, version)
      invariant token == "" ==> forall p, t, v | p in infos && p !in todo && Reports(infos[p], t, v) :: t == ""
      decreases todo
    {
      var p :| p in todo;
      todo := todo - {p};
      var s := infos[p].state;
      if s.Some? && s.value.cluster.Some? && s.value.cluster.value.token != "" {
        token, version := s.value.cluster.value.token, s.value.etcdVersion;
        assert Reports(infos[p], token, version);
      }
    }
  }

  /** Every member once, in the order of `order`, and then the peer. */
  ghost predicate IsJoinList(nodes: seq<EtcdNode>, order: seq<string>, memberNodes: map<string, EtcdNode>,
                             peer: EtcdNode, disableTls: bool) {
    && NewCluster.Distinct(order) && (forall id :: id in order <==> id in memberNodes)
    && |nodes| == |order| + 1 && nodes[|order|] == NewCluster.WithScheme(peer, disableTls)
    && forall i | 0 <= i < |order| :: order[i] in memberNodes && nodes[i] == memberNodes[order[i]]
  }

  /** The node list for the new peer: the members in any order, and the peer itself with the scheme the
    * controller wants. */
  method JoinNodes(memberNodes: map<string, EtcdNode>, peer: EtcdNode, disableTls: bool)
    returns (nodes: seq<EtcdNode>, ghost order: seq<string>)
    ensures |nodes| == |memberNodes| + 1 && nodes[|memberNodes|] == NewCluster.WithScheme(peer, disableTls)
    ensures forall id | id in memberNodes :: memberNodes[id] in nodes
    ensures IsJoinList(nodes, order, memberNodes, peer, disableTls)
  {
    nodes, order := [], [];
    var todo := memberNodes.Keys;
    while todo != {}
      invariant todo <= memberNodes.Keys && NewCluster.Distinct(order) && |nodes| == |order|
      invariant |order| + |todo| == |memberNodes.Keys|
      invariant forall id | id in memberNodes && id !in todo :: memberNodes[id] in nodes
      invariant forall id :: id in order <==> id in memberNodes && id !in todo
      invariant forall i | 0 <= i < |order| :: nodes[i] == memberNodes[order[i]]
      decreases todo
    {
      var id :| id in todo;
      todo := todo - {id};
      nodes, order := nodes + [memberNodes[id]], order + [id];
    }
    var node := peer;
    if disableTls {
      node := node.(peerUrls := RewriteScheme(node.peerUrls, "https://", "http://"),
                    clientUrls := RewriteScheme(node.clientUrls, "https://", "http://"), tlsEnabled := false);
    } else {
      node := EnableTls(node);
    }
    nodes := nodes + [node];
  }

  /** What happened at the chosen peer `p`, and nowhere else. */
  ghost predicate Expanded(before: map<string, Node>, after: map<string, Node>, state: ClusterState, p: string,
                           t: seq<Exchange>, join: Join, ok: bool, clock: int) {
    && after.Keys == before.Keys && p in state.infos && p in before && !Configured(before[p])
    && (exists q :: q in state.infos && Reports(state.infos[q], join.token, join.version)) && join.token != ""
    && (forall q | q in before && q != p :: Quiet(before[q], after[q]))
    && PeerOutcome(before[p], after[p], state.infos[p].node, t, join, ok, clock)
  }

  lemma QuietIsCurrent(infos: map<string, Info>, before: map<string, Node>, after: map<string, Node>)
    requires Current(infos, before) && AllQuiet(before, after)
    ensures Current(infos, after)
  {
  }

  /** A backup before the expansion does not show at the nodes. */
  lemma ExpandedAfterBackup(before: map<string, Node>, mid: map<string, Node>, after: map<string, Node>,
                            state: ClusterState, p: string, t: seq<Exchange>, join: Join, ok: bool, clock: int)
    requires AllQuiet(before, mid) && Expanded(mid, after, state, p, t, join, ok, clock)
    ensures Expanded(before, after, state, p, t, join, ok, clock)
  {
  }

  /** The part of addNodeToCluster that follows the backup, at peer `p`. */
  method Expand(net: Network, header: Header, state: ClusterState, p: string,
                memberNodes: map<string, EtcdNode>, disableTls: bool)
    returns (r: Added, join: Join, ghost order: seq<string>, ghost t: seq<Exchange>)
    requires net.Valid() && WellFormed(state, net.nodes) && p in state.infos && state.infos[p].state.None?
    modifies net
    ensures net.Valid() && net.nodes.Keys == old(net.nodes.Keys) && net.log == old(net.log) + t
    ensures r == NoCluster || r == Failed(p) || r == Started(p)
    ensures r == NoCluster ==> NoClusterReported(state.infos) && net.nodes == old(net.nodes) && t == []
    ensures r != NoCluster ==>
      && IsExpansion(t, header, p, state.infos[p].node, join, r.Started?)
      && Expanded(old(net.nodes), net.nodes, state, p, t, join, r.Started?, net.clock)
      && IsJoinList(join.nodes, order, memberNodes, state.infos[p].node, disableTls)
  {
    order, t := [], [];
    var token, version := FindCluster(state.infos);
    if token == "" {
      return NoCluster, Join("", "", []), order, t;
    }
    var nodes;
    nodes, order := JoinNodes(memberNodes, state.infos[p].node, disableTls);
    join := Join(token, version, nodes);
    var ok;
    ok, t := StartOn(net, header, p, state.infos[p].node, join);
    r := if ok then Started(p) else Failed(p);
  }

  /** With a healthy quorum there are members: the branch without a backup is unreachable. */
  lemma QuorumHasMembers(state: ClusterState)
    requires state.healthy <= state.members.Keys && |state.healthy| >= QuorumSize(|state.members|)
    ensures state.members != map[]
  {
    SubsetSize(state.healthy, state.members.Keys);
  }

  /** What the network saw of an addNodeToCluster: backups until one was taken, and then the expansion. */
  ghost predicate IsAddition(r: Added, state: ClusterState, header: Header, join: Join, backups: seq<Exchange>,
                             t: seq<Exchange>) {
    match r
    case NoQuorum => backups == [] && t == []
    case NoIdlePeer => backups == [] && t == []
    case NoBackup => BackupAttempts(backups, state, header, false) && t == []
    case NoCluster => BackupAttempts(backups, state, header, true) && t == []
    case _ =>
      && BackupAttempts(backups, state, header, true) && r.p in state.infos
      && IsExpansion(t, header, r.p, state.infos[r.p].node, join, r.Started?)
  }

  lemma AdditionIsOrdered(log: seq<Exchange>, r: Added, state: ClusterState, header: Header, join: Join,
                          backups: seq<Exchange>, t: seq<Exchange>)
    requires IsAddition(r, state, header, join, backups, t)
    ensures BackupComesFirst(log + backups + t, |log|, state, header)
    ensures r.Failed? || r.Started? ==>
      PrepareComesFirst(log + backups + t, |log|, header, r.p, state.infos[r.p].node, join)
  {
    if BackupAttempts(backups, state, header, true) {
      AttemptsComeFirst(log, backups, t, state, header);
      if r.Failed? || r.Started? {
        ExpansionPreparesFirst(log + backups, t, header, r.p, state.infos[r.p].node, join, |log|, r.Started?);
      }
    } else {
      assert forall i | 0 <= i < |backups| :: backups[i].action.DoBackup?;
    }
  }

  /** The part of addNodeToCluster that follows the checks: back up, and expand to one of `idle`. */
  method BackUpAndExpand(net: Network, header: Header, state: ClusterState, idle: set<string>,
                         memberNodes: map<string, EtcdNode>, disableTls: bool)
    returns (r: Added, join: Join, ghost order: seq<string>, ghost backups: seq<Exchange>, ghost t: seq<Exchange>)
    requires net.Valid() && WellFormed(state, net.nodes) && state.members != map[]
    requires idle != {} && forall p | p in idle :: p in state.infos && state.infos[p].state.None?
    modifies net
    ensures net.Valid() && net.nodes.Keys == old(net.nodes.Keys) && net.log == old(net.log) + backups + t
    ensures r != NoQuorum && r != NoIdlePeer && (r == NoCluster ==> NoClusterReported(state.infos))
    ensures IsAddition(r, state, header, join, backups, t)
    ensures !r.Failed? && !r.Started? ==> AllQuiet(old(net.nodes), net.nodes)
    ensures r.Failed? || r.Started? ==>
      && r.p in idle && Expanded(old(net.nodes), net.nodes, state, r.p, t, join, r.Started?, net.clock)
      && IsJoinList(join.nodes, order, memberNodes, state.infos[r.p].node, disableTls)
  {
    order, backups, t, join := [], [], [], Join("", "", []);
    if state.members != map[] {
      var saved;
      saved, backups := DoClusterBackup(net, header, state);
      if !saved {
        r := NoBackup;
        return;
      }
    }
    var p :| p in idle;
    ghost var mid := net.nodes;
    QuietIsCurrent(state.infos, old(net.nodes), mid);
    r, join, order, t := Expand(net, header, state, p, memberNodes, disableTls);
    if r != NoCluster {
      ExpandedAfterBackup(old(net.nodes), mid, net.nodes, state, p, t, join, r.Started?, net.clock);
    }
  }

  /** addNodeToCluster.  `backups` and `t` are what the network saw of it, and `join` is the cluster the
    * chosen peer was asked to join. */
  method AddNode(net: Network, header: Header, state: ClusterState, memberNodes: map<string, EtcdNode>,
                 disableTls: bool)
    returns (r: Added, join: Join, ghost order: seq<string>, ghost backups: seq<Exchange>, ghost t: seq<Exchange>)
    requires net.Valid() && WellFormed(state, net.nodes)
    modifies net
    ensures net.Valid() && net.nodes.Keys == old(net.nodes.Keys) && net.log == old(net.log) + backups + t
    ensures r == NoQuorum <==> |state.healthy| < QuorumSize(|state.members|)
    ensures r == NoIdlePeer <==> r != NoQuorum && forall p | p in state.infos :: state.infos[p].state.Some?
    ensures r == NoCluster ==> NoClusterReported(state.infos)
    ensures IsAddition(r, state, header, join, backups, t)
    ensures BackupComesFirst(net.log, |old(net.log)|, state, header)
    ensures !r.Failed? && !r.Started? ==> AllQuiet(old(net.nodes), net.nodes)
    ensures r.Failed? || r.Started? ==>
      && Expanded(old(net.nodes), net.nodes, state, r.p, t, join, r.Started?, net.clock)
      && PrepareComesFirst(net.log, |old(net.log)|, header, r.p, state.infos[r.p].node, join)
      && IsJoinList(join.nodes, order, memberNodes, state.infos[r.p].node, disableTls)
    ensures r.Started? ==> |state.healthy| + 1 >= QuorumSize(|state.members| + 1)
  {
    order, backups, t, join := [], [], [], Join("", "", []);
    if |state.healthy| < QuorumSize(|state.members|) {
      r := NoQuorum;
      return;
    }
    GrownQuorum(|state.healthy|, |state.members|);
    QuorumHasMembers(state);
    var idle := IdlePeers(state.infos);
    if idle == {} {
      r := NoIdlePeer;
      assert forall p | p in state.infos :: p !in idle;
      return;
    }
    ghost var some :| some in idle;
    assert some in state.infos && state.infos[some].state.None?;
    r, join, order, backups, t := BackUpAndExpand(net, header, state, idle, memberNodes, disableTls);
    AdditionIsOrdered(old(net.log), r, state, header, join, backups, t);
  }
}
