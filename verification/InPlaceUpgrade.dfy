/** Rolling upgrades in place, one member per cycle, and the version rule that permits them. */
module InPlaceUpgrade {
  import opened Common
  import opened NodeModel
  import opened Network
  import opened Membership

  /** A parsed version; its numbers are unsigned 64-bit integers. */
  datatype Semver = Semver(major: nat, minor: nat, patch: nat)

  type Parser = string -> Option<Semver>

  const Wrap := 0x1_0000_0000_0000_0000

  /** Unsigned 64-bit subtraction. */
  function Minus(a: nat, b: nat): nat {
    (a - b) % Wrap
  }

  /** UpgradeInPlaceSupported. */
  predicate Supported(parse: Parser, from: string, to: string) {
    && parse(from).Some? && parse(to).Some?
    && parse(from).value.major == 3 && parse(to).value.major == 3
    && Minus(parse(to).value.minor, parse(from).value.minor) <= 1
    && parse(to).value.minor >= parse(from).value.minor
  }

  /** The version is a 3.x version at, or one minor below, the target. */
  predicate WithinOne(parse: Parser, version: string, target: string) {
    && parse(version).Some? && parse(target).Some? && parse(version).value.major == parse(target).value.major == 3
    && parse(target).value.minor in {parse(version).value.minor, parse(version).value.minor + 1}
  }

  /** The subtraction may wrap around, but never into a yes. */
  lemma SupportedExactly(parse: Parser, from: string, to: string)
    requires forall v | parse(v).Some? :: parse(v).value.minor < Wrap
    ensures Supported(parse, from, to) <==> WithinOne(parse, from, to)
  {
  }

  /** Every configured peer runs a version that is at most one minor below the target, or the target itself. */
  ghost predicate InStep(parse: Parser, nodes: map<string, Node>, peers: set<string>, target: string) {
    forall p | p in peers && p in nodes && Configured(nodes[p]) ::
      nodes[p].state.value.etcdVersion == target || WithinOne(parse, nodes[p].state.value.etcdVersion, target)
  }

  /** In step, any two configured peers whose versions parse run minors at most one apart. */
  lemma InStepMeansOneApart(parse: Parser, nodes: map<string, Node>, peers: set<string>, target: string,
                            p: string, q: string)
    requires InStep(parse, nodes, peers, target) && p in peers && q in peers && p in nodes && q in nodes
    requires Configured(nodes[p]) && Configured(nodes[q])
    ensures var v, w := parse(nodes[p].state.value.etcdVersion), parse(nodes[q].state.value.etcdVersion);
      v.Some? && w.Some? ==> -1 <= v.value.minor - w.value.minor <= 1
  {
  }

  /** The member peers that do not run the target version. */
  function OffTarget(nodes: map<string, Node>, peers: set<string>, target: string): set<string> {
    set p | p in peers && p in nodes && !(Configured(nodes[p]) && nodes[p].state.value.etcdVersion == target)
  }

  /** One successful cycle: one member peer that was off target is on it, nothing else changed. */
  ghost predicate UpgradeStep(before: map<string, Node>, after: map<string, Node>, peers: set<string>,
                              target: string, p: string) {
    && after.Keys == before.Keys && p in OffTarget(before, peers, target)
    && (forall q | q in before && q != p :: Quiet(before[q], after[q]))
    && ClusterToken(after[p]) == ClusterToken(before[p]) != None
    && after[p].state.value.etcdVersion == target
    && after[p].state.value.quarantined == before[p].state.value.quarantined
  }

  lemma StepShrinks(before: map<string, Node>, after: map<string, Node>, peers: set<string>, target: string, p: string)
    requires UpgradeStep(before, after, peers, target, p)
    ensures OffTarget(after, peers, target) == OffTarget(before, peers, target) - {p}
    ensures |OffTarget(after, peers, target)| == |OffTarget(before, peers, target)| - 1
  {
  }

  lemma StepStaysInStep(parse: Parser, before: map<string, Node>, after: map<string, Node>, peers: set<string>,
                        all: set<string>, target: string, p: string)
    requires UpgradeStep(before, after, peers, target, p) && InStep(parse, before, all, target)
    ensures InStep(parse, after, all, target)
  {
  }

  /** A run of successful cycles ends on the target after exactly as many cycles as members were off
    * it, and peers that start in step are in step all the way. */
  lemma {:induction false} RollingUpgrade(runs: seq<map<string, Node>>, upgraded: seq<string>, peers: set<string>,
                                          target: string, parse: Parser, all: set<string>)
    requires |runs| == |upgraded| + 1
    requires forall i | 0 <= i < |upgraded| :: UpgradeStep(runs[i], runs[i + 1], peers, target, upgraded[i])
    ensures |OffTarget(runs[|upgraded|], peers, target)| == |OffTarget(runs[0], peers, target)| - |upgraded|
    ensures |upgraded| == |OffTarget(runs[0], peers, target)| ==> OffTarget(runs[|upgraded|], peers, target) == {}
    ensures InStep(parse, runs[0], all, target) ==> forall i | 0 <= i < |runs| :: InStep(parse, runs[i], all, target)
  {
    if |upgraded| > 0 {
      var n := |upgraded| - 1;
      var prior := runs[..n + 1];
      RollingUpgrade(prior, upgraded[..n], peers, target, parse, all);
      StepShrinks(runs[n], runs[n + 1], peers, target, upgraded[n]);
      if InStep(parse, runs[0], all, target) {
        assert InStep(parse, prior[n], all, target);
        StepStaysInStep(parse, runs[n], runs[n + 1], peers, all, target, upgraded[n]);
        assert forall i | 0 <= i < |prior| :: InStep(parse, prior[i], all, target);
      }
    }
  }

  datatype UpgradeResult =
    | NoMismatch
    | NotSupported
    | Refused
    | BackupFailed
    | MembersOnTarget
    | Unconfirmed(p: string)
    | Upgraded(p: string)

  /** The peer reported a version other than the target. */
  predicate IsOff(infos: map<string, Info>, p: string, target: string) {
    p in infos && infos[p].state.Some? && infos[p].state.value.etcdVersion != target
  }

  /** The peer reported a version that cannot be upgraded to the target in place. */
  predicate NeedsRestart(infos: map<string, Info>, p: string, target: string, parse: Parser) {
    IsOff(infos, p, target) && !WithinOne(parse, infos[p].state.value.etcdVersion, target)
  }

  /** Compare every reported version with the target. */
  method CheckVersions(infos: map<string, Info>, target: string, parse: Parser) returns (mismatch: bool, inPlace: bool)
    requires forall v | parse(v).Some? :: parse(v).value.minor < Wrap
    ensures mismatch <==> exists p :: IsOff(infos, p, target)
    ensures inPlace <==> forall p :: !NeedsRestart(infos, p, target, parse)
  {
    mismatch, inPlace := false, true;
    var todo := infos.Keys;
    while todo != {}
      invariant todo <= infos.Keys
      invariant mismatch <==> exists p :: p !in todo && IsOff(infos, p, target)
      invariant inPlace <==> forall p | p !in todo :: !NeedsRestart(infos, p, target, parse)
      decreases todo
    {
      var p :| p in todo;
      todo := todo - {p};
      if IsOff(infos, p, target) {
        SupportedExactly(parse, infos[p].state.value.etcdVersion, target);
        mismatch := true;
        if !Supported(parse, infos[p].state.value.etcdVersion, target) {
          inPlace := false;
        }
      }
    }
  }

  /** The peers that members run on. */
  function MemberPeers(state: ClusterState): set<string> {
    set id | id in state.members :: state.members[id]
  }

  predicate IsPrepared(state: ClusterState, memberCount: int) {
    MemberPeers(state) <= state.infos.Keys && state.healthy == state.members.Keys && |state.members| == memberCount
  }

  /** prepareForUpgrade: every member has a peer, all are healthy, the cluster is at full size. */
  method PrepareForUpgrade(state: ClusterState, memberCount: int) returns (ok: bool, memberToPeer: map<string, string>)
    requires state.healthy <= state.members.Keys
    requires forall p | p in state.infos :: state.infos[p].node.name == p
    ensures ok <==> IsPrepared(state, memberCount)
    ensures ok ==> memberToPeer == state.members
  {
    memberToPeer := map[];
    var todo := state.members.Keys;
    while todo != {}
      invariant todo <= state.members.Keys
      invariant forall id | id in state.members && id !in todo :: state.members[id] in state.infos
      invariant memberToPeer == map id | id in state.members && id !in todo :: state.members[id]
      decreases todo
    {
      var id :| id in todo;
      var found := false;
      var peers := state.infos.Keys;
      while peers != {}
        invariant peers <= state.infos.Keys
        invariant found <==> state.members[id] in state.infos && state.members[id] !in peers
        invariant memberToPeer == map i | i in state.members && (i !in todo || (i == id && found)) :: state.members[i]
        decreases peers
      {
        var p :| p in peers;
        peers := peers - {p};
        if state.infos[p].node.name == state.members[id] {
          memberToPeer := memberToPeer[id := p];
          found := true;
        }
      }
      if !found {
        assert state.members[id] in MemberPeers(state);
        return false, memberToPeer;
      }
      todo := todo - {id};
    }
    SubsetSize(state.healthy, state.members.Keys);
    assert |state.members| == |state.members.Keys|;
    ok := |state.healthy| == |state.members| && |state.members| == memberCount;
  }

  /** The node stays in its cluster and behind its quarantine, at the old version or the target. */
  predicate VersionOutcome(n: Node, n': Node, target: string)
    requires Configured(n)
  {
    && ClusterToken(n') == ClusterToken(n) && n'.state.value.quarantined == n.state.value.quarantined
    && n'.state.value.etcdVersion in {target, n.state.value.etcdVersion}
  }

  lemma AtReconfigure(n: Node, r: Request, env: Env, n': Node, o: Reply)
    requires HandledAt(n, r, env, n', o) && r.Reconfigure? && !r.enableTls && r.setEtcdVersion != ""
    requires Configured(n) && n.state.value.quarantined == r.quarantined
    ensures VersionOutcome(n, n', r.setEtcdVersion)
    ensures o == Ok ==> n'.state.value.etcdVersion == r.setEtcdVersion
  {
  }

  lemma ReportedInStep(infos: map<string, Info>, nodes: map<string, Node>, target: string, parse: Parser)
    requires Current(infos, nodes) && forall p :: !NeedsRestart(infos, p, target, parse)
    ensures InStep(parse, nodes, infos.Keys, target)
  {
    forall p | p in infos && Configured(nodes[p])
      ensures var v := nodes[p].state.value.etcdVersion; v == target || WithinOne(parse, v, target)
    {
      assert !NeedsRestart(infos, p, target, parse);
    }
  }

  lemma OutcomeStaysInStep(parse: Parser, before: map<string, Node>, after: map<string, Node>, all: set<string>,
                           target: string, p: string)
    requires InStep(parse, before, all, target) && after.Keys == before.Keys && p in before && Configured(before[p])
    requires VersionOutcome(before[p], after[p], target)
    requires forall q | q in before && q != p :: Quiet(before[q], after[q])
    ensures InStep(parse, after, all, target)
  {
  }

  function SetsVersion(header: Header, quarantined: bool, target: string): Request {
    Reconfigure(header, quarantined, target, false)
  }

  /** A Reconfigure that only sets the version: on success exactly that, otherwise no other version
    * than the old one or the target ends up stored. */
  method SetVersion(net: Network, p: string, header: Header, quarantined: bool, target: string) returns (ok: bool)
    requires net.Valid() && p in net.nodes && target != "" && Configured(net.nodes[p])
    requires net.nodes[p].state.value.quarantined == quarantined
    modifies net
    ensures net.Valid() && net.nodes.Keys == old(net.nodes.Keys)
    ensures net.log == old(net.log) + [Exchange(Ask(p, SetsVersion(header, quarantined, target)), ok)]
    ensures forall q | q in net.nodes && q != p :: Quiet(old(net.nodes)[q], net.nodes[q])
    ensures VersionOutcome(old(net.nodes)[p], net.nodes[p], target)
    ensures ok ==> net.nodes[p].state.value.etcdVersion == target
  {
    var r := Reconfigure(header, quarantined, target, false);
    var reply, env, arrived := net.Call(p, r);
    if arrived {
      ghost var o :| HandledAt(old(net.nodes)[p], r, env, net.nodes[p], o) && (reply == Lost || reply == Answered(o));
      AtReconfigure(old(net.nodes)[p], r, env, net.nodes[p], o);
    }
    return reply == Answered(Ok);
  }

  /** One controller cycle that finds the versions wrong and may upgrade in place. */
  method UpgradeCycle(net: Network, header: Header, state: ClusterState, memberCount: int, target: string,
                      parse: Parser)
    returns (r: UpgradeResult, ghost backups: seq<Exchange>, ghost t: seq<Exchange>)
    requires net.Valid() && WellFormed(state, net.nodes) && target != ""
    requires forall p | p in state.infos :: state.infos[p].node.name == p
    requires forall v | parse(v).Some? :: parse(v).value.minor < Wrap
    modifies net
    ensures net.Valid() && net.nodes.Keys == old(net.nodes.Keys)
    ensures net.log == old(net.log) + backups + t && IsUpgrade(r, state, header, target, backups, t)
    ensures BackupComesFirst(net.log, |old(net.log)|, state, header)
    ensures r == NoMismatch <==> forall p :: !IsOff(state.infos, p, target)
    ensures r == NotSupported <==> exists p :: NeedsRestart(state.infos, p, target, parse)
    ensures r == Refused <==>
      && r != NoMismatch && r != NotSupported
      && !(IsPrepared(state, memberCount) && AllKnown(state))
    ensures r.Upgraded? ==> UpgradeStep(old(net.nodes), net.nodes, MemberPeers(state), target, r.p)
    ensures r.Upgraded? || r.Unconfirmed? ==>
      state.healthy == state.members.Keys && |state.members| == memberCount && r.p in MemberPeers(state)
    ensures r.Upgraded? || r.Unconfirmed? ==>
      && InStep(parse, old(net.nodes), state.infos.Keys, target) && InStep(parse, net.nodes, state.infos.Keys, target)
      && forall q | q in net.nodes && q != r.p :: Quiet(old(net.nodes)[q], net.nodes[q])
    ensures !r.Upgraded? && !r.Unconfirmed? ==> AllQuiet(old(net.nodes), net.nodes)
  {
    backups, t := [], [];
    var mismatch, inPlace := CheckVersions(state.infos, target, parse);
    if !mismatch {
      return NoMismatch, backups, t;
    }
    if !inPlace {
      return NotSupported, backups, t;
    }
    ReportedInStep(state.infos, net.nodes, target, parse);
    var ok, memberToPeer := PrepareForUpgrade(state, memberCount);
    if !ok {
      return Refused, backups, t;
    }
    r, backups, t := UpgradeOne(net, header, state, memberToPeer, target);
    UpgradeIsOrdered(old(net.log), r, state, header, target, backups, t);
    if r.Upgraded? || r.Unconfirmed? {
      OutcomeStaysInStep(parse, old(net.nodes), net.nodes, state.infos.Keys, target, r.p);
    }
  }

  /** Every member's peer reported a state. */
  predicate AllKnown(state: ClusterState) {
    forall id | id in state.members ::
      state.members[id] in state.infos && state.infos[state.members[id]].state.Some?
  }

  method AllReported(state: ClusterState, memberToPeer: map<string, string>) returns (ok: bool)
    requires MemberPeers(state) <= state.infos.Keys && memberToPeer == state.members
    ensures ok <==> AllKnown(state)
  {
    var todo := state.members.Keys;
    while todo != {}
      invariant todo <= state.members.Keys
      invariant forall id | id in state.members && id !in todo ::
        state.members[id] in state.infos && state.infos[state.members[id]].state.Some?
      decreases todo
    {
      var id :| id in todo;
      todo := todo - {id};
      assert state.members[id] in MemberPeers(state);
      if state.infos[memberToPeer[id]].state.None? {
        return false;
      }
    }
    return true;
  }

  /** Peer `p` was asked to change its version and nothing else. */
  ghost predicate IsVersionRequest(x: Exchange, state: ClusterState, header: Header, target: string, p: string,
                                   ok: bool) {
    && p in state.infos && state.infos[p].state.Some? && state.infos[p].state.value.etcdVersion != target
    && x == Exchange(Ask(p, SetsVersion(header, state.infos[p].state.value.quarantined, target)), ok)
  }

  /** What the network saw of an upgradeInPlace: backups until one was taken, and then one request. */
  ghost predicate IsUpgrade(r: UpgradeResult, state: ClusterState, header: Header, target: string,
                            backups: seq<Exchange>, t: seq<Exchange>) {
    match r
    case BackupFailed => BackupAttempts(backups, state, header, false) && t == []
    case MembersOnTarget =>
      && BackupAttempts(backups, state, header, true) && t == []
      && AllKnown(state) && forall p | p in MemberPeers(state) :: !IsOff(state.infos, p, target)
    case Unconfirmed(p) =>
      && BackupAttempts(backups, state, header, true)
      && |t| == 1 && IsVersionRequest(t[0], state, header, target, p, false)
    case Upgraded(p) =>
      && BackupAttempts(backups, state, header, true)
      && |t| == 1 && IsVersionRequest(t[0], state, header, target, p, true)
    case _ => backups == [] && t == []
  }

  lemma UpgradeIsOrdered(log: seq<Exchange>, r: UpgradeResult, state: ClusterState, header: Header, target: string,
                         backups: seq<Exchange>, t: seq<Exchange>)
    requires IsUpgrade(r, state, header, target, backups, t)
    ensures BackupComesFirst(log + backups + t, |log|, state, header)
  {
    if BackupAttempts(backups, state, header, true) {
      AttemptsComeFirst(log, backups, t, state, header);
    } else {
      assert forall i | 0 <= i < |backups| :: backups[i].action.DoBackup?;
    }
  }

  /** upgradeInPlace, once the preparations have succeeded: back up, then reconfigure the first member off target. */
  method UpgradeOne(net: Network, header: Header, state: ClusterState, memberToPeer: map<string, string>,
                    target: string)
    returns (r: UpgradeResult, ghost backups: seq<Exchange>, ghost t: seq<Exchange>)
    requires net.Valid() && WellFormed(state, net.nodes) && target != "" && MemberPeers(state) <= state.infos.Keys
    requires memberToPeer == state.members
    modifies net
    ensures net.Valid() && net.nodes.Keys == old(net.nodes.Keys) && r != NoMismatch && r != NotSupported
    ensures net.log == old(net.log) + backups + t && IsUpgrade(r, state, header, target, backups, t)
    ensures r == Refused <==> !AllKnown(state)
    ensures r.Upgraded? ==> UpgradeStep(old(net.nodes), net.nodes, MemberPeers(state), target, r.p)
    ensures r.Unconfirmed? || r.Upgraded? ==>
      && r.p in MemberPeers(state) && Configured(old(net.nodes)[r.p])
      && VersionOutcome(old(net.nodes)[r.p], net.nodes[r.p], target)
      && forall q | q in net.nodes && q != r.p :: Quiet(old(net.nodes)[q], net.nodes[q])
    ensures !r.Upgraded? && !r.Unconfirmed? ==> AllQuiet(old(net.nodes), net.nodes)
  {
    backups, t := [], [];
    var informed := AllReported(state, memberToPeer);
    if !informed {
      return Refused, backups, t;
    }
    var saved;
    saved, backups := DoClusterBackup(net, header, state);
    if !saved {
      return BackupFailed, backups, t;
    }
    ghost var mid := net.nodes;
    var todo := state.members.Keys;
    while todo != {}
      invariant todo <= state.members.Keys && net.nodes == mid
      invariant net.Valid() && net.log == old(net.log) + backups + t && t == []
      invariant forall id | id in state.members && id !in todo ::
        state.infos[state.members[id]].state.value.etcdVersion == target
      decreases todo
    {
      var id :| id in todo;
      todo := todo - {id};
      var p := memberToPeer[id];
      assert p in MemberPeers(state);
      var s := state.infos[p].state.value;
      if s.etcdVersion == target {
        continue;
      }
      QuietKeepsState(old(net.nodes), mid, p);
      var ok := SetVersion(net, p, header, s.quarantined, target);
      OutcomeAfterQuiet(old(net.nodes), mid, net.nodes, p, target);
      t := [Exchange(Ask(p, SetsVersion(header, s.quarantined, target)), ok)];
      return if ok then Upgraded(p) else Unconfirmed(p), backups, t;
    }
    return MembersOnTarget, backups, t;
  }

  lemma QuietKeepsState(before: map<string, Node>, mid: map<string, Node>, p: string)
    requires AllQuiet(before, mid) && p in before
    ensures p in mid && mid[p].state == before[p].state
  {
  }

  /** What was quiet before a reconfiguration of `p` does not show after it. */
  lemma OutcomeAfterQuiet(before: map<string, Node>, mid: map<string, Node>, after: map<string, Node>, p: string,
                          target: string)
    requires AllQuiet(before, mid) && after.Keys == mid.Keys && p in before
    requires Configured(before[p]) && Configured(mid[p])
    requires VersionOutcome(mid[p], after[p], target)
    requires forall q | q in mid && q != p :: Quiet(mid[q], after[q])
    ensures VersionOutcome(before[p], after[p], target)
    ensures forall q | q in before && q != p :: Quiet(before[q], after[q])
  {
  }
}
