/** createNewCluster: choose members, stop what runs, and start the new cluster in two phases. */
module NewCluster {
  import opened Common
  import opened NodeModel
  import opened Network

  datatype ClusterSpec = ClusterSpec(memberCount: int, etcdVersion: string)

  datatype Created = NotEnoughPeers | NeedsDummyPeers | Failed | Created(proposal: seq<string>)

  predicate Distinct(s: seq<string>) {
    forall i, j | 0 <= i < j < |s| :: s[i] != s[j]
  }

  /** The node was formed into the new cluster, closed to clients. */
  predicate Joined(n: Node, token: string, version: string) {
    && ClusterToken(n) == Some(token)
    && n.state.value.quarantined && n.state.value.etcdVersion == version
  }

  predicate Closed(n: Node, token: string) {
    ClusterToken(n) == Some(token) && n.state.value.quarantined
  }

  /** Whatever happened, the node kept its state, lost its cluster, or is closed in the new one. */
  predicate Safe(n: Node, n': Node, token: string) {
    n'.state == n.state || !Configured(n') || Closed(n', token)
  }

  predicate TooFewPeers(peers: nat, desired: int) {
    peers < QuorumSize(desired) || (peers < desired && QuorumSize(peers) != QuorumSize(desired))
  }

  /** Only odd sizes allow one peer less: there is no other smaller size with the same quorum. */
  lemma SameQuorum(k: nat, n: int)
    requires 1 <= n && k < n
    ensures QuorumSize(k) == QuorumSize(n) <==> k == n - 1 && n % 2 == 1
  {
  }

  method StopOne(net: Network, p: string, header: Header, ghost token: string) returns (ok: bool)
    requires net.Valid() && p in net.nodes
    modifies net
    ensures net.Valid() && net.nodes.Keys == old(net.nodes.Keys)
    ensures forall q | q in net.nodes && q != p :: Quiet(old(net.nodes)[q], net.nodes[q])
    ensures Safe(old(net.nodes)[p], net.nodes[p], token)
    ensures ok ==> !Configured(net.nodes[p])
    ensures net.log == old(net.log) + [Exchange(Ask(p, StopEtcd(header)), ok)]
  {
    var reply, env, arrived := net.Call(p, StopEtcd(header));
    return reply == Answered(Ok);
  }

  /** A phase of the join leaves the node's state alone or installs the cluster it carries. */
  predicate JoinOutcome(n: Node, n': Node, r: Request)
    requires r.JoinCluster?
  {
    n'.state == n.state || (r.phase == InitialCluster && Joined(n', r.clusterToken, r.etcdVersion))
  }

  predicate JoinDone(n: Node, n': Node, r: Request)
    requires r.JoinCluster?
  {
    if r.phase == InitialCluster then Joined(n', r.clusterToken, r.etcdVersion) else n'.state == n.state
  }

  lemma JoinAtNode(n: Node, r: Request, env: Env, n': Node, o: Reply)
    requires HandledAt(n, r, env, n', o) && r.JoinCluster? && r.phase in {Prepare, InitialCluster}
    ensures JoinOutcome(n, n', r)
    ensures o == Ok ==> JoinDone(n, n', r)
  {
  }

  method JoinOne(net: Network, p: string, r: Request) returns (ok: bool)
    requires net.Valid() && p in net.nodes && r.JoinCluster? && r.phase in {Prepare, InitialCluster}
    modifies net
    ensures net.Valid() && net.nodes.Keys == old(net.nodes.Keys)
    ensures forall q | q in net.nodes && q != p :: Quiet(old(net.nodes)[q], net.nodes[q])
    ensures JoinOutcome(old(net.nodes)[p], net.nodes[p], r)
    ensures ok ==> JoinDone(old(net.nodes)[p], net.nodes[p], r)
    ensures net.log == old(net.log) + [Exchange(Ask(p, r), ok)]
  {
    var reply, env, arrived := net.Call(p, r);
    if arrived {
      ghost var o :| HandledAt(old(net.nodes)[p], r, env, net.nodes[p], o) && (reply == Lost || reply == Answered(o));
      JoinAtNode(old(net.nodes)[p], r, env, net.nodes[p], o);
    }
    return reply == Answered(Ok);
  }

  /** The proposal: peers in any order, up to the desired number. */
  method Propose(peers: set<string>, desired: int) returns (proposal: seq<string>)
    ensures Distinct(proposal) && forall p | p in proposal :: p in peers
    ensures |proposal| == if 1 <= desired <= |peers| then desired else |peers|
    ensures |proposal| == |peers| ==> forall p | p in peers :: p in proposal
  {
    proposal := [];
    var todo := peers;
    while todo != {}
      invariant todo <= peers && Distinct(proposal)
      invariant forall p :: p in proposal <==> p in peers && p !in todo
      invariant |proposal| + |todo| == |peers|
      invariant |proposal| != 0 ==> |proposal| != desired
      invariant 1 <= desired ==> |proposal| < desired
      decreases todo
    {
      var p :| p in todo;
      todo := todo - {p};
      proposal := proposal + [p];
      if |proposal| == desired {
        break;
      }
    }
    if |proposal| == |peers| && todo != {} {
      assert |todo| > 0;
    }
  }

  method CreateNewCluster(net: Network, header: Header, infos: map<string, Info>, spec: ClusterSpec,
                          token: string, disableTls: bool)
    returns (r: Created, ghost order: seq<string>, ghost proposal: seq<string>, ghost t: seq<Exchange>)
    requires net.Valid() && Current(infos, net.nodes)
    modifies net
    ensures net.Valid() && net.nodes.Keys == old(net.nodes.Keys) && net.log == old(net.log) + t
    ensures r != NeedsDummyPeers && (r.Created? ==> r.proposal == proposal)
    ensures r == NotEnoughPeers <==> TooFewPeers(|infos|, spec.memberCount)
    ensures r == NotEnoughPeers ==> net.nodes == old(net.nodes) && t == []
    ensures r != NotEnoughPeers ==>
      && Distinct(proposal) && (forall p | p in proposal :: p in infos)
      && exists nodes :: AreProposed(nodes, proposal, infos, disableTls)
                      && IsFormation(t, header, infos, order, proposal, nodes, token, spec, r.Created?)
    ensures forall p | p in net.nodes && p !in infos :: Quiet(old(net.nodes)[p], net.nodes[p])
    ensures forall p | p in infos :: Safe(old(net.nodes)[p], net.nodes[p], token)
    ensures r.Created? ==>
      && Distinct(r.proposal) && (forall p | p in r.proposal :: p in infos)
      && Formed(net.nodes, infos, r.proposal, token, spec.etcdVersion)
      && (spec.memberCount >= 1 ==>
            && (|r.proposal| == spec.memberCount || (|r.proposal| == spec.memberCount - 1 && spec.memberCount % 2 == 1))
            && QuorumSize(|r.proposal|) == QuorumSize(spec.memberCount))
  {
    order, proposal, t := [], [], [];
    var desired := spec.memberCount;
    if |infos| < QuorumSize(desired) {
      r := NotEnoughPeers;
      return;
    }
    if |infos| < desired && QuorumSize(|infos|) != QuorumSize(desired) {
      r := NotEnoughPeers;
      return;
    }
    assert |infos| == |infos.Keys|;
    var proposed := Propose(infos.Keys, desired);
    if |proposed| < desired && QuorumSize(|proposed|) < QuorumSize(desired) {
      r := NeedsDummyPeers;
      return;
    }
    if |proposed| < desired {
      SameQuorum(|proposed|, desired);
    }
    var nodes := ProposedNodes(proposed, infos, disableTls);
    proposal := proposed;
    var ok;
    ok, order, t := Form(net, header, infos, proposed, nodes, token, spec);
    r := if ok then Created(proposed) else Failed;
  }

  /** Exactly the proposed peers are members, all of the same closed cluster. */
  ghost predicate Formed(nodes: map<string, Node>, infos: map<string, Info>, proposal: seq<string>,
                         token: string, version: string)
    requires infos.Keys <= nodes.Keys
  {
    forall p | p in infos :: if p in proposal then Joined(nodes[p], token, version) else !Configured(nodes[p])
  }

  // ---------- what the network sees ----------

  function Names(nodes: seq<EtcdNode>): seq<string> {
    seq(|nodes|, i requires 0 <= i < |nodes| => nodes[i].name)
  }

  /** What follows once everything is stopped. */
  function Start(header: Header, proposal: seq<string>, nodes: seq<EtcdNode>, token: string, spec: ClusterSpec):
    seq<Action>
  {
    [BroadcastMembers(Names(nodes))] +
    AskAll(proposal, JoinCluster(header, Prepare, token, spec.etcdVersion, nodes)) +
    AskAll(proposal, JoinCluster(header, InitialCluster, token, spec.etcdVersion, nodes)) +
    [WriteSpec(spec.memberCount, spec.etcdVersion)]
  }

  lemma OneAction(a: Action, ok: bool)
    ensures Follows([Exchange(a, ok)], [a], ok)
  {
    assert [Exchange(a, ok)][1..] == [] && [a][1..] == [];
  }

  method ListNames(nodes: seq<EtcdNode>) returns (names: seq<string>)
    ensures names == Names(nodes)
  {
    names := [];
    for i := 0 to |nodes|
      invariant names == Names(nodes)[..i]
    {
      names := names + [nodes[i].name];
    }
  }

  predicate IsRunning(infos: map<string, Info>, p: string) {
    p in infos && infos[p].state.Some?
  }

  /** Distinct peers that reported a state. */
  predicate AreRunning(order: seq<string>, infos: map<string, Info>) {
    Distinct(order) && forall p | p in order :: IsRunning(infos, p)
  }

  /** They are all such peers but for those in `todo`. */
  ghost predicate AllBut(order: seq<string>, infos: map<string, Info>, todo: set<string>) {
    AreRunning(order, infos) && forall p :: p in order <==> IsRunning(infos, p) && p !in todo
  }

  lemma OneLess(order: seq<string>, infos: map<string, Info>, todo: set<string>, p: string)
    requires AllBut(order, infos, todo) && p in todo
    ensures AllBut(if IsRunning(infos, p) then order + [p] else order, infos, todo - {p})
  {
  }

  /** Every peer that reported a state was stopped, in the order of `order`; then all proposed nodes were told
    * of each other, prepared and started, up to the first failure. */
  ghost predicate IsFormation(t: seq<Exchange>, header: Header, infos: map<string, Info>, order: seq<string>,
                              proposal: seq<string>, nodes: seq<EtcdNode>, token: string, spec: ClusterSpec, ok: bool) {
    && AreRunning(order, infos)
    && Follows(t, AskAll(order, StopEtcd(header)) + Start(header, proposal, nodes, token, spec), ok)
    && (|t| > |order| ==> AllBut(order, infos, {}))
  }

  /** Everything in `t` before entry `i` that asks `p` for `r`. */
  ghost predicate DoneBefore(t: seq<Exchange>, i: nat, p: string, r: Request) {
    exists j :: 0 <= j < i && j < |t| && t[j] == Exchange(Ask(p, r), true)
  }

  /** Where the parts of the plan are. */
  lemma PlanAt(header: Header, order: seq<string>, proposal: seq<string>, nodes: seq<EtcdNode>, token: string,
               spec: ClusterSpec, k: nat)
    ensures var plan := AskAll(order, StopEtcd(header)) + Start(header, proposal, nodes, token, spec);
      && (k < |order| ==> k < |plan| && plan[k] == Ask(order[k], StopEtcd(header)))
      && (k < |proposal| ==>
            && |order| + 1 + k < |plan|
            && plan[|order| + 1 + k] == Ask(proposal[k], JoinCluster(header, Prepare, token, spec.etcdVersion, nodes)))
      && (k < |plan| && plan[k].Ask? && plan[k].request.JoinCluster? && plan[k].request.phase == InitialCluster ==>
            k >= |order| + 1 + |proposal|)
  {
    AskAllSize(order, StopEtcd(header));
    AskAllSize(proposal, JoinCluster(header, Prepare, token, spec.etcdVersion, nodes));
    AskAllSize(proposal, JoinCluster(header, InitialCluster, token, spec.etcdVersion, nodes));
    if k < |order| {
      AskedAt(order, StopEtcd(header), k);
    } else if |order| < k < |order| + 1 + |proposal| {
      AskedAt(proposal, JoinCluster(header, Prepare, token, spec.etcdVersion, nodes), k - |order| - 1);
    }
    if k < |proposal| {
      AskedAt(proposal, JoinCluster(header, Prepare, token, spec.etcdVersion, nodes), k);
    }
  }

  lemma AskAllSize(peers: seq<string>, r: Request)
    ensures |AskAll(peers, r)| == |peers|
  {
    if peers != [] {
      AskedAt(peers, r, 0);
    }
  }

  /** Nobody is asked to start the new cluster before every running peer has been stopped and every proposed
    * one has accepted the PREPARE of the same token. */
  lemma CommitComesLast(t: seq<Exchange>, header: Header, infos: map<string, Info>, order: seq<string>,
                        proposal: seq<string>, nodes: seq<EtcdNode>, token: string, spec: ClusterSpec, ok: bool, i: nat)
    requires IsFormation(t, header, infos, order, proposal, nodes, token, spec, ok) && i < |t|
    requires t[i].action.Ask? && t[i].action.request.JoinCluster? && t[i].action.request.phase == InitialCluster
    ensures forall p | IsRunning(infos, p) :: DoneBefore(t, i, p, StopEtcd(header))
    ensures forall p | p in proposal ::
      DoneBefore(t, i, p, JoinCluster(header, Prepare, token, spec.etcdVersion, nodes))
  {
    var plan := AskAll(order, StopEtcd(header)) + Start(header, proposal, nodes, token, spec);
    FollowsAt(t, plan, ok, i);
    PlanAt(header, order, proposal, nodes, token, spec, i);
    forall p | IsRunning(infos, p) ensures DoneBefore(t, i, p, StopEtcd(header)) {
      var k :| 0 <= k < |order| && order[k] == p;
      FollowsAt(t, plan, ok, k);
      PlanAt(header, order, proposal, nodes, token, spec, k);
      assert t[k] == Exchange(Ask(p, StopEtcd(header)), true);
    }
    var prepare := JoinCluster(header, Prepare, token, spec.etcdVersion, nodes);
    forall p | p in proposal ensures DoneBefore(t, i, p, prepare) {
      var k :| 0 <= k < |proposal| && proposal[k] == p;
      FollowsAt(t, plan, ok, |order| + 1 + k);
      PlanAt(header, order, proposal, nodes, token, spec, k);
      assert t[|order| + 1 + k] == Exchange(Ask(p, prepare), true);
    }
  }

  /** Stop everything, broadcast the members, prepare, commit, write the spec. */
  method Form(net: Network, header: Header, infos: map<string, Info>, proposal: seq<string>, nodes: seq<EtcdNode>,
              token: string, spec: ClusterSpec)
    returns (ok: bool, ghost order: seq<string>, ghost t: seq<Exchange>)
    requires net.Valid() && Current(infos, net.nodes) && Distinct(proposal) && forall p | p in proposal :: p in infos
    modifies net
    ensures net.Valid() && net.nodes.Keys == old(net.nodes.Keys)
    ensures forall p | p in net.nodes && p !in infos :: Quiet(old(net.nodes)[p], net.nodes[p])
    ensures forall p | p in infos :: Safe(old(net.nodes)[p], net.nodes[p], token)
    ensures ok ==> Formed(net.nodes, infos, proposal, token, spec.etcdVersion)
    ensures net.log == old(net.log) + t && IsFormation(t, header, infos, order, proposal, nodes, token, spec, ok)
  {
    ok, order, t := StopAll(net, header, infos, token);
    ghost var stops := AskAll(order, StopEtcd(header));
    if !ok {
      FailsEarly(t, stops, Start(header, proposal, nodes, token, spec));
      return;
    }
    ghost var mid, u := net.nodes, [];
    ok, u := StartAll(net, header, proposal, nodes, token, spec);
    ThenFollows(t, u, stops, Start(header, proposal, nodes, token, spec), ok);
    t := t + u;
    FormedAfterStops(old(net.nodes), mid, net.nodes, infos, proposal,
                     JoinCluster(header, InitialCluster, token, spec.etcdVersion, nodes), ok);
  }

  lemma FormedAfterStops(before: map<string, Node>, mid: map<string, Node>, after: map<string, Node>,
                         infos: map<string, Info>, proposal: seq<string>, r: Request, ok: bool)
    requires before.Keys == mid.Keys == after.Keys && infos.Keys <= before.Keys
    requires forall p | p in proposal :: p in infos
    requires forall p | p in before && p !in infos :: Quiet(before[p], mid[p])
    requires forall p | p in infos :: !Configured(mid[p])
    requires r.JoinCluster? && JoinedOutside(mid, after, proposal, r, ok)
    ensures forall p | p in before && p !in infos :: Quiet(before[p], after[p])
    ensures forall p | p in infos :: Safe(before[p], after[p], r.clusterToken)
    ensures ok ==> Formed(after, infos, proposal, r.clusterToken, r.etcdVersion)
  {
  }

  /** The two phases of the join. */
  method JoinTwice(net: Network, proposal: seq<string>, prepare: Request, commit: Request)
    returns (ok: bool, ghost t: seq<Exchange>)
    requires net.Valid() && Distinct(proposal) && forall p | p in proposal :: p in net.nodes
    requires prepare.JoinCluster? && prepare.phase == Prepare && commit == prepare.(phase := InitialCluster)
    modifies net
    ensures net.Valid() && net.nodes.Keys == old(net.nodes.Keys) && net.log == old(net.log) + t
    ensures Follows(t, AskAll(proposal, prepare) + AskAll(proposal, commit), ok)
    ensures JoinedOutside(old(net.nodes), net.nodes, proposal, commit, ok)
  {
    ok, t := JoinAll(net, proposal, prepare);
    if !ok {
      FailsEarly(t, AskAll(proposal, prepare), AskAll(proposal, commit));
      return;
    }
    ghost var u;
    ok, u := JoinAll(net, proposal, commit);
    ThenFollows(t, u, AskAll(proposal, prepare), AskAll(proposal, commit), ok);
    t := t + u;
  }

  /** The proposed nodes kept their state or are closed in the new cluster, the others were left alone. */
  ghost predicate JoinedOutside(before: map<string, Node>, after: map<string, Node>, proposal: seq<string>, r: Request,
                                ok: bool)
    requires r.JoinCluster?
  {
    && after.Keys == before.Keys
    && (forall p | p in before && p !in proposal :: Quiet(before[p], after[p]))
    && (forall p | p in before && p in proposal ::
          after[p].state == before[p].state || Closed(after[p], r.clusterToken))
    && (ok ==> forall p | p in before && p in proposal :: Joined(after[p], r.clusterToken, r.etcdVersion))
  }

  /** Tell the proposed nodes of each other, prepare them, start them, and write the spec. */
  method StartAll(net: Network, header: Header, proposal: seq<string>, nodes: seq<EtcdNode>, token: string,
                  spec: ClusterSpec)
    returns (ok: bool, ghost t: seq<Exchange>)
    requires net.Valid() && Distinct(proposal) && forall p | p in proposal :: p in net.nodes
    modifies net
    ensures net.Valid() && net.nodes.Keys == old(net.nodes.Keys) && net.log == old(net.log) + t
    ensures Follows(t, Start(header, proposal, nodes, token, spec), ok)
    ensures JoinedOutside(old(net.nodes), net.nodes, proposal,
                          JoinCluster(header, InitialCluster, token, spec.etcdVersion, nodes), ok)
  {
    var names := ListNames(nodes);
    var prepare := JoinCluster(header, Prepare, token, spec.etcdVersion, nodes);
    var commit := JoinCluster(header, InitialCluster, token, spec.etcdVersion, nodes);
    var write := WriteSpec(spec.memberCount, spec.etcdVersion);
    ghost var joins := AskAll(proposal, prepare) + AskAll(proposal, commit);
    ok := net.Do(BroadcastMembers(names));
    t := [Exchange(BroadcastMembers(names), ok)];
    OneAction(BroadcastMembers(names), ok);
    StartPlan(header, proposal, nodes, token, spec);
    if !ok {
      FailsEarly(t, [BroadcastMembers(names)], joins + [write]);
      return;
    }
    ghost var u, w;
    ok, u := JoinTwice(net, proposal, prepare, commit);
    if !ok {
      FailsEarly(u, joins, [write]);
    } else {
      ok := net.Do(write);
      w := [Exchange(write, ok)];
      OneAction(write, ok);
      ThenFollows(u, w, joins, [write], ok);
      u := u + w;
    }
    ThenFollows(t, u, [BroadcastMembers(names)], joins + [write], ok);
    t := t + u;
  }

  lemma StartPlan(header: Header, proposal: seq<string>, nodes: seq<EtcdNode>, token: string, spec: ClusterSpec)
    ensures Start(header, proposal, nodes, token, spec)
         == [BroadcastMembers(Names(nodes))] +
            (AskAll(proposal, JoinCluster(header, Prepare, token, spec.etcdVersion, nodes)) +
             AskAll(proposal, JoinCluster(header, InitialCluster, token, spec.etcdVersion, nodes)) +
             [WriteSpec(spec.memberCount, spec.etcdVersion)])
  {
  }

  function WithScheme(node: EtcdNode, disableTls: bool): (r: EtcdNode)
    ensures r.name == node.name && r.tlsEnabled == !disableTls
  {
    if disableTls then
      node.(peerUrls := RewriteScheme(node.peerUrls, "https://", "http://"),
            clientUrls := RewriteScheme(node.clientUrls, "https://", "http://"), tlsEnabled := false)
    else EnableTls(node)
  }

  /** No URL of the node has the scheme the controller does not want. */
  lemma SchemeIsWanted(node: EtcdNode, disableTls: bool)
    ensures var r := WithScheme(node, disableTls);
      forall url | url in r.peerUrls + r.clientUrls :: !((if disableTls then "https://" else "http://") <= url)
  {
    SchemesAreApart();
    var find, with := if disableTls then "https://" else "http://", if disableTls then "http://" else "https://";
    OldSchemeIsGone(node.peerUrls, find, with);
    OldSchemeIsGone(node.clientUrls, find, with);
  }

  /** The proposed peers' nodes in order, with the scheme the controller wants. */
  ghost predicate AreProposed(nodes: seq<EtcdNode>, proposal: seq<string>, infos: map<string, Info>, disableTls: bool)
    requires forall p | p in proposal :: p in infos
  {
    && |nodes| == |proposal|
    && forall i | 0 <= i < |nodes| :: nodes[i] == WithScheme(infos[proposal[i]].node, disableTls)
  }

  /** The node configurations of the proposal, with the scheme the controller wants. */
  method ProposedNodes(proposal: seq<string>, infos: map<string, Info>, disableTls: bool) returns (nodes: seq<EtcdNode>)
    requires forall p | p in proposal :: p in infos
    ensures AreProposed(nodes, proposal, infos, disableTls)
  {
    nodes := [];
    for i := 0 to |proposal|
      invariant |nodes| == i
      invariant forall j | 0 <= j < i :: nodes[j] == WithScheme(infos[proposal[j]].node, disableTls)
    {
      var node := infos[proposal[i]].node;
      if disableTls {
        node := node.(peerUrls := RewriteScheme(node.peerUrls, "https://", "http://"),
                      clientUrls := RewriteScheme(node.clientUrls, "https://", "http://"), tlsEnabled := false);
      } else {
        node := EnableTls(node);
      }
      nodes := nodes + [node];
    }
  }

  /** The peers outside `todo` have no cluster any more, everybody else was left alone. */
  ghost predicate StoppedSoFar(before: map<string, Node>, after: map<string, Node>, infos: set<string>,
                               todo: set<string>) {
    && after.Keys == before.Keys
    && forall p | p in before :: if p in infos && p !in todo then !Configured(after[p]) else Quiet(before[p], after[p])
  }

  lemma OneMoreStopped(before: map<string, Node>, mid: map<string, Node>, after: map<string, Node>, infos: set<string>,
                       todo: set<string>, p: string)
    requires StoppedSoFar(before, mid, infos, todo) && p in infos && p in before
    requires after.Keys == mid.Keys && !Configured(after[p]) && forall q | q in mid && q != p :: Quiet(mid[q], after[q])
    ensures StoppedSoFar(before, after, infos, todo - {p})
  {
    forall q | q in before
      ensures if q in infos && q !in todo - {p} then !Configured(after[q]) else Quiet(before[q], after[q])
    {
    }
  }

  lemma StopFailed(before: map<string, Node>, mid: map<string, Node>, after: map<string, Node>, infos: set<string>,
                   todo: set<string>, p: string, token: string)
    requires StoppedSoFar(before, mid, infos, todo) && p in infos && p in todo && p in before
    requires after.Keys == mid.Keys && Safe(mid[p], after[p], token)
    requires forall q | q in mid && q != p :: Quiet(mid[q], after[q])
    ensures forall q | q in before && q !in infos :: Quiet(before[q], after[q])
    ensures forall q | q in before && q in infos :: Safe(before[q], after[q], token)
  {
  }

  /** What has been done while `todo` is still to be looked at: `t` is what the network saw of it. */
  ghost predicate StopsSoFar(log: seq<Exchange>, log': seq<Exchange>, header: Header, infos: map<string, Info>,
                             todo: set<string>, order: seq<string>, t: seq<Exchange>, ok: bool) {
    && log' == log + t && |t| == |order| && Follows(t, AskAll(order, StopEtcd(header)), ok)
    && if ok then AllBut(order, infos, todo) else AreRunning(order, infos)
  }

  lemma StopLogged(log: seq<Exchange>, mid: seq<Exchange>, header: Header, infos: map<string, Info>, todo: set<string>,
                   order: seq<string>, t: seq<Exchange>, p: string, ok: bool)
    requires StopsSoFar(log, mid, header, infos, todo, order, t, true) && p in todo && IsRunning(infos, p)
    ensures var x := Exchange(Ask(p, StopEtcd(header)), ok);
      StopsSoFar(log, mid + [x], header, infos, todo - {p}, order + [p], t + [x], ok)
  {
    OneLess(order, infos, todo, p);
    AskedOneMore(t, order, p, StopEtcd(header), ok);
  }

  /** Stop etcd on every peer that reported a state. */
  method StopAll(net: Network, header: Header, infos: map<string, Info>, ghost token: string)
    returns (ok: bool, ghost order: seq<string>, ghost t: seq<Exchange>)
    requires net.Valid() && Current(infos, net.nodes)
    modifies net
    ensures net.Valid() && net.nodes.Keys == old(net.nodes.Keys)
    ensures forall p | p in net.nodes && p !in infos :: Quiet(old(net.nodes)[p], net.nodes[p])
    ensures forall p | p in infos :: Safe(old(net.nodes)[p], net.nodes[p], token)
    ensures ok ==> forall p | p in infos :: !Configured(net.nodes[p])
    ensures StopsSoFar(old(net.log), net.log, header, infos, {}, order, t, ok)
  {
    order, t := [], [];
    var todo := infos.Keys;
    while todo != {}
      invariant todo <= infos.Keys
      invariant net.Valid() && StoppedSoFar(old(net.nodes), net.nodes, infos.Keys, todo)
      invariant StopsSoFar(old(net.log), net.log, header, infos, todo, order, t, true)
      decreases todo
    {
      ghost var mid := net.nodes;
      var p :| p in todo;
      if infos[p].state.Some? {
        ghost var log := net.log;
        var stopped := StopOne(net, p, header, token);
        StopLogged(old(net.log), log, header, infos, todo, order, t, p, stopped);
        order, t := order + [p], t + [Exchange(Ask(p, StopEtcd(header)), stopped)];
        if !stopped {
          StopFailed(old(net.nodes), mid, net.nodes, infos.Keys, todo, p, token);
          return false, order, t;
        }
      } else {
        OneLess(order, infos, todo, p);
      }
      OneMoreStopped(old(net.nodes), mid, net.nodes, infos.Keys, todo, p);
      todo := todo - {p};
    }
    return true, order, t;
  }

  /** The nodes in `done` have carried out `r`, the others were left alone. */
  ghost predicate JoinedSoFar(before: map<string, Node>, after: map<string, Node>, done: seq<string>, r: Request)
    requires r.JoinCluster?
  {
    && after.Keys == before.Keys
    && forall p | p in before :: if p in done then JoinDone(before[p], after[p], r) else Quiet(before[p], after[p])
  }

  lemma OneMoreJoined(before: map<string, Node>, mid: map<string, Node>, after: map<string, Node>, done: seq<string>,
                      p: string, r: Request)
    requires r.JoinCluster? && JoinedSoFar(before, mid, done, r) && p in before && p !in done
    requires after.Keys == mid.Keys && JoinDone(mid[p], after[p], r)
    requires forall q | q in mid && q != p :: Quiet(mid[q], after[q])
    ensures JoinedSoFar(before, after, done + [p], r)
  {
  }

  /** The last call did not come through. */
  lemma JoinStopped(before: map<string, Node>, mid: map<string, Node>, after: map<string, Node>, proposal: seq<string>,
                    i: nat, r: Request)
    requires r.JoinCluster? && r.phase in {Prepare, InitialCluster} && i < |proposal| && Distinct(proposal)
    requires JoinedSoFar(before, mid, proposal[..i], r) && proposal[i] in before
    requires after.Keys == mid.Keys && JoinOutcome(mid[proposal[i]], after[proposal[i]], r)
    requires forall q | q in mid && q != proposal[i] :: Quiet(mid[q], after[q])
    ensures forall p | p in before && p !in proposal :: Quiet(before[p], after[p])
    ensures forall p | p in before && p in proposal :: JoinOutcome(before[p], after[p], r)
  {
  }

  /** Send `r` to every node of the proposal in turn. */
  method JoinAll(net: Network, proposal: seq<string>, r: Request) returns (ok: bool, ghost t: seq<Exchange>)
    requires net.Valid() && Distinct(proposal) && forall p | p in proposal :: p in net.nodes
    requires r.JoinCluster? && r.phase in {Prepare, InitialCluster}
    modifies net
    ensures net.Valid() && net.nodes.Keys == old(net.nodes.Keys)
    ensures forall p | p in net.nodes && p !in proposal :: Quiet(old(net.nodes)[p], net.nodes[p])
    ensures forall p | p in proposal :: JoinOutcome(old(net.nodes)[p], net.nodes[p], r)
    ensures ok ==> forall p | p in proposal :: JoinDone(old(net.nodes)[p], net.nodes[p], r)
    ensures net.log == old(net.log) + t && Follows(t, AskAll(proposal, r), ok)
  {
    t := [];
    for i := 0 to |proposal|
      invariant net.Valid() && JoinedSoFar(old(net.nodes), net.nodes, proposal[..i], r)
      invariant net.log == old(net.log) + t && Follows(t, AskAll(proposal[..i], r), true)
    {
      ghost var mid := net.nodes;
      var joined := JoinOne(net, proposal[i], r);
      AskedOneMore(t, proposal[..i], proposal[i], r, joined);
      t := t + [Exchange(Ask(proposal[i], r), joined)];
      assert proposal[..i + 1] == proposal[..i] + [proposal[i]];
      if !joined {
        JoinStopped(old(net.nodes), mid, net.nodes, proposal, i, r);
        AskedInPart(t, proposal, i + 1, r);
        return false, t;
      }
      OneMoreJoined(old(net.nodes), mid, net.nodes, proposal[..i], proposal[i], r);
    }
    assert proposal[..|proposal|] == proposal;
    return true, t;
  }
}
