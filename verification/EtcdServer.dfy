/** The node's request handlers as they run, step by step, over the server's fields and state file.
  * Every method is proved to do exactly what the functions of NodeModel say. */
module EtcdServer {
  import opened Common
  import opened NodeModel
  import Gossip

  class EtcdServer {
    const config: Config
    const peerServer: Gossip.Server
    var state: Option<EtcdState>
    var prepared: Option<Prepared>
    var process: Option<Process>
    /** The contents of the state file. */
    var disk: Disk

    ghost function Contents(): Node
      reads this, peerServer
    {
      Node(config, state, prepared, process, disk,
           if peerServer.leadership.Some? then Some(peerServer.leadership.value.token) else None)
    }

    /** A server that has not read its state file yet. */
    constructor (config: Config, peerServer: Gossip.Server, disk: Disk)
      ensures this.peerServer == peerServer
      ensures Contents().(leader := None) == Node(config, None, None, None, disk, None)
    {
      this.config := config;
      this.peerServer := peerServer;
      this.disk := disk;
      prepared := None;
      process := None;
      state := None;
    }

    /** NewEtcdServer: start-up fails exactly when the state file cannot be read. */
    static method Start(config: Config, peerServer: Gossip.Server, disk: Disk) returns (server: EtcdServer?)
      ensures server == null <==> Boot(config, disk).None?
      ensures server != null ==>
        && fresh(server) && server.peerServer == peerServer
        && Some(server.Contents().(leader := None)) == Boot(config, disk)
    {
      var s := new EtcdServer(config, peerServer, disk);
      var ok := s.ReadState();
      return if ok then s else null;
    }

    /** initState. */
    method ReadState() returns (ok: bool)
      modifies this`state
      ensures Outcome(Contents(), if ok then Ok else Error) == InitState(old(Contents()))
    {
      if state.None? {
        match disk {
          case Absent =>
          case Unreadable => return false;
          case Stored(s) => state := Some(s);
        }
      }
      return true;
    }

    predicate ValidateHeader(h: Header)
      reads this, peerServer
      ensures ValidateHeader(h) == ValidHeader(Contents(), h)
    {
      h.clusterName == config.clusterName && peerServer.IsLeader(h.leadershipToken)
    }

    /** findSelfNode. */
    method FindSelfNode(nodes: seq<EtcdNode>) returns (me: Option<nat>)
      ensures me == SelfIndex(nodes, config.self.name)
    {
      me := None;
      for i := 0 to |nodes|
        invariant me.Some? ==> me.value < i && nodes[me.value].name == config.self.name
        invariant forall j: nat | j < i && nodes[j].name == config.self.name :: me == Some(j)
      {
        if nodes[i].name == config.self.name {
          if me.Some? {
            return None;
          }
          me := Some(i);
        }
      }
      if me.Some? {
        assert OnlySelf(nodes, config.self.name, me.value);
      }
    }

    method Persist(outcome: WriteOutcome) returns (ok: bool)
      requires state.Some?
      modifies this`disk
      ensures disk == WriteState(old(disk), state.value, outcome) && ok == (outcome == Written)
    {
      match outcome {
        case Written => disk := Stored(state.value);
        case Untouched =>
        case Emptied => disk := Stored(BlankState);
        case Torn => disk := Unreadable;
      }
      ok := outcome == Written;
    }

    method StartEtcdProcess(starts: bool) returns (ok: bool)
      requires state.Some?
      modifies this`process
      ensures Outcome(Contents(), if ok then Ok else Error) == StartProcess(old(Contents()), starts)
    {
      var s := state.value;
      if s.cluster.None? {
        return false;
      }
      if s.cluster.value.token == "" {
        return false;
      }
      var nodes := s.cluster.value.nodes;
      var me := FindSelfNode(nodes);
      if me.None? {
        return false;
      }
      var meNode := nodes[me.value];
      if meNode.clientUrls != config.self.clientUrls {
        meNode := meNode.(clientUrls := config.self.clientUrls);
      }
      if meNode.quarantinedClientUrls != config.self.quarantinedClientUrls {
        meNode := meNode.(quarantinedClientUrls := config.self.quarantinedClientUrls);
      }
      nodes := nodes[me.value := meNode];
      var p := Process(false, DataDir(config.baseDir, s.cluster.value.token), Cluster(s.cluster.value.token, nodes),
                       s.quarantined, "", !meNode.tlsEnabled, false);
      if s.etcdVersion !in config.versions {
        return false;
      }
      p := p.(etcdVersion := s.etcdVersion);
      if s.newCluster {
        p := p.(createNew := true);
      }
      if !starts {
        return false;
      }
      process := Some(p);
      return true;
    }

    method StopEtcdProcess(kills: bool) returns (ok: bool)
      modifies this`process
      ensures ok == (old(process).None? || kills)
      ensures process == if ok then None else old(process)
    {
      if process.None? {
        return true;
      }
      if !kills {
        return false;
      }
      process := None;
      return true;
    }

    method JoinCluster(r: Request, env: Env) returns (reply: Reply)
      requires r.JoinCluster?
      modifies this
      ensures Outcome(Contents(), reply) == Handle(old(Contents()), r, env)
    {
      if !ValidateHeader(r.header) {
        return Error;
      }
      if r.phase == CancelPrepare {
        if prepared.None? {
          return Ok;
        }
        if prepared.value.token == r.clusterToken {
          prepared := None;
          return Ok;
        }
        return Error;
      }
      if prepared.Some? && env.now > prepared.value.validUntil {
        prepared := None;
      }
      if r.etcdVersion !in config.versions {
        return Error;
      }
      match r.phase {
        case Prepare =>
          if process.Some? || prepared.Some? {
            return Error;
          }
          prepared := Some(Prepared(env.now + PreparedValidity, r.clusterToken));
          return Ok;
        case InitialCluster =>
          reply := CommitInitialCluster(r, env);
        case JoinExisting =>
          reply := CommitJoinExisting(r, env);
        case _ =>
          return Error;
      }
    }

    method CommitInitialCluster(r: Request, env: Env) returns (reply: Reply)
      requires r.JoinCluster?
      modifies this
      ensures Outcome(Contents(), reply) == HandleInitialCluster(old(Contents()), r, env)
    {
      if process.Some? || prepared.None? || prepared.value.token != r.clusterToken {
        return Error;
      }
      if state.None? {
        state := Some(BlankState);
      }
      state := Some(state.value.(newCluster := true));
      state := Some(state.value.(cluster := Some(Cluster(r.clusterToken, r.nodes))));
      state := Some(state.value.(quarantined := true));
      state := Some(state.value.(etcdVersion := r.etcdVersion));
      var ok := Persist(env.write);
      if !ok {
        return Error;
      }
      ok := StartEtcdProcess(env.starts);
      if !ok {
        return Error;
      }
      state := Some(state.value.(newCluster := false));
      ok := Persist(env.rewrite);
      if !ok {
        return Error;
      }
      prepared := None;
      return Ok;
    }

    method CommitJoinExisting(r: Request, env: Env) returns (reply: Reply)
      requires r.JoinCluster?
      modifies this
      ensures Outcome(Contents(), reply) == HandleJoinExisting(old(Contents()), r, env)
    {
      if process.Some? || prepared.None? || prepared.value.token != r.clusterToken {
        return Error;
      }
      if state.None? {
        state := Some(BlankState);
      }
      state := Some(state.value.(newCluster := false));
      state := Some(state.value.(cluster := Some(Cluster(r.clusterToken, r.nodes))));
      state := Some(state.value.(quarantined := false));
      state := Some(state.value.(etcdVersion := r.etcdVersion));
      var ok := Persist(env.write);
      if !ok {
        return Error;
      }
      ok := StartEtcdProcess(env.starts);
      if !ok {
        return Error;
      }
      prepared := None;
      return Ok;
    }

    /** The state a Reconfigure asks for, built up field by field. */
    method NextState(s: EtcdState, me: nat, r: Request) returns (next: EtcdState)
      requires r.Reconfigure? && s.cluster.Some? && me < |s.cluster.value.nodes|
      ensures next == Reconfigured(s, me, r)
    {
      next := s;
      if r.setEtcdVersion != "" {
        next := next.(etcdVersion := r.setEtcdVersion);
      }
      next := next.(quarantined := r.quarantined);
      if r.enableTls {
        var c := next.cluster.value;
        next := next.(cluster := Some(c.(nodes := c.nodes[me := EnableTls(c.nodes[me])])));
      }
    }

    method Reconfigure(r: Request, env: Env) returns (reply: Reply)
      requires r.Reconfigure?
      modifies this
      ensures Outcome(Contents(), reply) == Handle(old(Contents()), r, env)
    {
      if !ValidateHeader(r.header) {
        return Error;
      }
      if state.None? {
        return Error;
      }
      var next := state.value;
      if next.cluster.None? {
        return Panic;
      }
      var me := FindSelfNode(next.cluster.value.nodes);
      if me.None? {
        return Error;
      }
      if r.setEtcdVersion != "" && r.setEtcdVersion !in config.versions {
        return Error;
      }
      next := NextState(next, me.value, r);
      var ok := StopEtcdProcess(env.kills);
      if !ok {
        return Error;
      }
      state := Some(next);
      ok := Persist(env.write);
      if !ok {
        return Error;
      }
      ok := StartEtcdProcess(env.starts);
      return if ok then Ok else Error;
    }

    method StopEtcd(r: Request, env: Env) returns (reply: Reply)
      requires r.StopEtcd?
      modifies this
      ensures Outcome(Contents(), reply) == Handle(old(Contents()), r, env)
    {
      if !ValidateHeader(r.header) {
        return Error;
      }
      if state.None? {
        return Error;
      }
      if state.value.cluster.None? {
        return Panic;
      }
      var ok := StopEtcdProcess(env.kills);
      if !ok {
        return Error;
      }
      state := Some(BlankState);
      ok := Persist(env.write);
      return if ok then Ok else Error;
    }

    /** runOnce. */
    method Tick(starts: bool) returns (reply: Reply)
      modifies this
      ensures Outcome(Contents(), reply) == RunOnce(old(Contents()), starts)
    {
      var read := ReadState();
      if !read {
        return Error;
      }
      if process.Some? && process.value.exited {
        process := None;
      }
      if state.Some? && state.value.cluster.Some? && process.None? {
        var ok := StartEtcdProcess(starts);
        return if ok then Ok else Error;
      }
      return Ok;
    }
  }
}
