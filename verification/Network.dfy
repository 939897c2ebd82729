/** The nodes as a controller reaches them: requests that may be lost, on nodes that live on in between. */
module Network {
  import opened Common
  import opened NodeModel
  import NodeHistory

  datatype RpcReply = Answered(reply: Reply) | Lost

  /** The node is left alone, but its process may die, be noticed missing or be started again, and the
    * node may reboot, which loses the leader it accepted and what it was prepared for. */
  predicate Quiet(n: Node, n': Node) {
    && n' == n.(process := n'.process, prepared := n'.prepared, leader := n'.leader)
    && (n'.prepared == n.prepared || n'.prepared.None?)
    && (n'.leader == n.leader || n'.leader.None?)
  }

  /** The state file holds the state in memory. */
  predicate Saved(n: Node) {
    if n.state.Some? then n.disk == Stored(n.state.value) else !n.disk.Stored?
  }

  /** Timers, exits and restarts of the process are quiet, and so are reboots of a node whose state is
    * saved. */
  lemma TimersAreQuiet(n: Node, e: NodeHistory.Event)
    requires NodeHistory.Valid(n) && (e.Timer? || e.Exit? || (e.Reboot? && Saved(n)))
    ensures Quiet(n, NodeHistory.Step(n, e)) && NodeHistory.Valid(NodeHistory.Step(n, e))
  {
  }

  /** A request that succeeds leaves the state saved. */
  lemma SuccessIsSaved(n: Node, r: Request, env: Env)
    requires NodeHistory.Valid(n) && Handle(n, r, env).reply == Ok && Handle(n, r, env).node.state != n.state
    ensures Saved(Handle(n, r, env).node)
  {
  }

  predicate AllQuiet(nodes: map<string, Node>, nodes': map<string, Node>) {
    nodes'.Keys == nodes.Keys && forall p | p in nodes :: Quiet(nodes[p], nodes'[p]) && NodeHistory.Valid(nodes'[p])
  }

  /** Node `p` was left alone and then handled `r`. */
  ghost predicate HandledAt(n: Node, r: Request, env: Env, n': Node, reply: Reply) {
    exists m :: Quiet(n, m) && NodeHistory.Valid(m) && Handle(m, r, env) == Outcome(n', reply)
  }

  /** A node's answer to GetInfo. */
  datatype Info = Info(node: EtcdNode, state: Option<EtcdState>)

  /** The infos are what the nodes would answer now. */
  ghost predicate Current(infos: map<string, Info>, nodes: map<string, Node>) {
    forall p | p in infos :: p in nodes && infos[p] == Info(nodes[p].config.self, GetInfo(nodes[p]))
  }

  // ---------- what a controller has done ----------

  /** What a controller asks of a node, of the etcd cluster or of all peers. */
  datatype Action =
    | Ask(p: string, request: Request)
    | DoBackup(p: string, header: Header)
    | AddMember(node: EtcdNode)
    | RemoveMember(id: string)
    | BroadcastMembers(names: seq<string>)
    | WriteSpec(memberCount: int, etcdVersion: string)

  /** The action, and whether the controller was told that it succeeded. */
  datatype Exchange = Exchange(action: Action, ok: bool)

  /** `t` carries out `plan` in its order, up to its end or to the first failure; `ok` says whether all of it
    * succeeded. */
  predicate Follows(t: seq<Exchange>, plan: seq<Action>, ok: bool) {
    if plan == [] then t == [] && ok
    else
      && t != [] && t[0].action == plan[0]
      && if t[0].ok then Follows(t[1..], plan[1..], ok) else |t| == 1 && !ok
  }

  lemma {:induction false} ThenFollows(t: seq<Exchange>, u: seq<Exchange>, first: seq<Action>, second: seq<Action>,
                                       ok: bool)
    requires Follows(t, first, true) && Follows(u, second, ok)
    ensures Follows(t + u, first + second, ok)
  {
    if first == [] {
      assert t + u == u && first + second == second;
    } else {
      ThenFollows(t[1..], u, first[1..], second, ok);
      assert (t + u)[1..] == t[1..] + u && (first + second)[1..] == first[1..] + second;
    }
  }

  lemma {:induction false} FailsEarly(t: seq<Exchange>, first: seq<Action>, second: seq<Action>)
    requires Follows(t, first, false)
    ensures Follows(t, first + second, false)
  {
    if t[0].ok {
      FailsEarly(t[1..], first[1..], second);
    }
    assert (first + second)[1..] == first[1..] + second;
  }

  /** Entry by entry: what was done is what was planned, and everything before it succeeded. */
  lemma {:induction false} FollowsAt(t: seq<Exchange>, plan: seq<Action>, ok: bool, i: nat)
    requires Follows(t, plan, ok) && i < |t|
    ensures i < |plan| && t[i].action == plan[i] && forall j | 0 <= j < i :: t[j].ok
  {
    if i > 0 {
      FollowsAt(t[1..], plan[1..], ok, i - 1);
      assert forall j | 0 < j < i :: t[j] == t[1..][j - 1];
    }
  }

  /** The same request to each of the peers. */
  function AskAll(peers: seq<string>, r: Request): seq<Action> {
    if peers == [] then [] else [Ask(peers[0], r)] + AskAll(peers[1..], r)
  }

  lemma Regroup(a: seq<Action>, b: seq<Action>, c: seq<Action>)
    ensures a + (b + c) == a + b + c
  {
  }

  lemma {:induction false} AskMore(peers: seq<string>, more: seq<string>, r: Request)
    ensures AskAll(peers + more, r) == AskAll(peers, r) + AskAll(more, r)
  {
    if peers == [] {
      assert peers + more == more;
    } else {
      AskMore(peers[1..], more, r);
      assert (peers + more)[1..] == peers[1..] + more;
      Regroup([Ask(peers[0], r)], AskAll(peers[1..], r), AskAll(more, r));
    }
  }

  lemma {:induction false} AskedAt(peers: seq<string>, r: Request, i: nat)
    requires i < |peers|
    ensures |AskAll(peers, r)| == |peers| && AskAll(peers, r)[i] == Ask(peers[i], r)
  {
    if i > 0 {
      AskedAt(peers[1..], r, i - 1);
    } else if |peers| > 1 {
      AskedAt(peers[1..], r, 0);
    }
  }

  lemma AskedOneMore(t: seq<Exchange>, peers: seq<string>, p: string, r: Request, ok: bool)
    requires Follows(t, AskAll(peers, r), true)
    ensures Follows(t + [Exchange(Ask(p, r), ok)], AskAll(peers + [p], r), ok)
  {
    var x := [Exchange(Ask(p, r), ok)];
    AskMore(peers, [p], r);
    assert AskAll([p], r) == [Ask(p, r)] && x[1..] == [] && AskAll([p], r)[1..] == [];
    ThenFollows(t, x, AskAll(peers, r), AskAll([p], r), ok);
  }

  lemma AskedInPart(t: seq<Exchange>, peers: seq<string>, n: nat, r: Request)
    requires n <= |peers| && Follows(t, AskAll(peers[..n], r), false)
    ensures Follows(t, AskAll(peers, r), false)
  {
    AskMore(peers[..n], peers[n..], r);
    assert peers == peers[..n] + peers[n..];
    FailsEarly(t, AskAll(peers[..n], r), AskAll(peers[n..], r));
  }

  class Network {
    var nodes: map<string, Node>
    var clock: int
    /** Everything controllers have done through this network, in order. */
    ghost var log: seq<Exchange>

    ghost predicate Valid()
      reads this
    {
      forall p | p in nodes :: NodeHistory.Valid(nodes[p])
    }

    /** One request to node `p`: it may never arrive, and when it does its reply may be lost. */
    method Call(p: string, r: Request) returns (reply: RpcReply, ghost env: Env, ghost arrived: bool)
      requires Valid() && p in nodes
      modifies this
      ensures Valid() && nodes.Keys == old(nodes.Keys) && old(clock) <= env.now == clock
      ensures forall q | q in nodes && q != p :: Quiet(old(nodes)[q], nodes[q])
      ensures !arrived ==> Quiet(old(nodes)[p], nodes[p]) && reply == Lost
      ensures arrived ==>
        exists o :: HandledAt(old(nodes)[p], r, env, nodes[p], o) && (reply == Lost || reply == Answered(o))
      ensures log == old(log) + [Exchange(Ask(p, r), reply == Answered(Ok))]
    {
      var later: map<string, Node> := *;
      if !AllQuiet(nodes, later) {
        later := nodes;
      }
      var e: Env := *;
      if e.now < clock {
        e := e.(now := clock);
      }
      clock, nodes := e.now, later;
      env, arrived, reply := e, false, Lost;
      var arrives: bool, answers: bool := *, *;
      if arrives {
        var o := Handle(nodes[p], r, e);
        NodeHistory.StepKeepsValid(nodes[p], NodeHistory.Request(r, e));
        assert HandledAt(old(nodes)[p], r, e, o.node, o.reply);
        nodes := nodes[p := o.node];
        arrived := true;
        if answers {
          reply := Answered(o.reply);
        }
      }
      log := log + [Exchange(Ask(p, r), reply == Answered(Ok))];
    }

    /** DoBackup on node `p`. */
    method Backup(p: string, header: Header) returns (ok: bool)
      requires Valid() && p in nodes
      modifies this
      ensures Valid() && clock == old(clock) && AllQuiet(old(nodes), nodes)
      ensures ok ==> ValidHeader(nodes[p], header) && nodes[p].process.Some?
      ensures log == old(log) + [Exchange(DoBackup(p, header), ok)]
    {
      var later: map<string, Node> := *;
      if AllQuiet(nodes, later) {
        nodes := later;
      }
      ok := *;
      ok := ok && ValidHeader(nodes[p], header) && nodes[p].process.Some?;
      log := log + [Exchange(DoBackup(p, header), ok)];
    }

    /** An action that leaves the nodes alone: a change of etcd's member list, the member map, the spec. */
    method Do(action: Action) returns (ok: bool)
      requires Valid() && !action.Ask? && !action.DoBackup?
      modifies this`log
      ensures log == old(log) + [Exchange(action, ok)]
    {
      ok := *;
      log := log + [Exchange(action, ok)];
    }
  }
}
