/** The state of one etcd-manager node and the effect of every request and timer on it, as values.
  *
  * Each handler is a function from the node before and the outcomes of the file writes, process
  * starts and process kills it tries, to the node after and the reply.  The class in EtcdServer.dfy
  * performs the same handlers step by step and is proved against these functions.
  */
module NodeModel {
  import opened Common

  datatype EtcdNode = EtcdNode(name: string, peerUrls: seq<string>, clientUrls: seq<string>,
                               quarantinedClientUrls: seq<string>, tlsEnabled: bool)

  datatype Cluster = Cluster(token: string, nodes: seq<EtcdNode>)

  datatype EtcdState = EtcdState(newCluster: bool, cluster: Option<Cluster>, quarantined: bool, etcdVersion: string)

  const BlankState := EtcdState(false, None, false, "")

  /** An accepted PREPARE. */
  datatype Prepared = Prepared(validUntil: int, token: string)

  /** A recorded etcd process; `exited` says that it has died and nobody has noticed yet. */
  datatype Process = Process(createNew: bool, dataDir: string, cluster: Cluster, quarantined: bool,
                             etcdVersion: string, disableTls: bool, exited: bool)

  /** The state file. */
  datatype Disk = Absent | Unreadable | Stored(state: EtcdState)

  datatype Config = Config(clusterName: string, baseDir: string, self: EtcdNode, versions: set<string>)

  /** `leader` is the leadership token this node last accepted. */
  datatype Node = Node(config: Config, state: Option<EtcdState>, prepared: Option<Prepared>,
                       process: Option<Process>, disk: Disk, leader: Option<string>)

  /** One minute, in nanoseconds. */
  const PreparedValidity := 60_000_000_000

  datatype Header = Header(leadershipToken: string, clusterName: string)

  datatype Phase = UnknownPhase | Prepare | CancelPrepare | InitialCluster | JoinExisting

  datatype Request =
    | JoinCluster(header: Header, phase: Phase, clusterToken: string, etcdVersion: string, nodes: seq<EtcdNode>)
    | Reconfigure(header: Header, quarantined: bool, setEtcdVersion: string, enableTls: bool)
    | StopEtcd(header: Header)

  datatype Reply = Ok | Error | Panic

  datatype Outcome = Outcome(node: Node, reply: Reply)

  /** What a write of the state file does.  Everything but `Written` is reported as an error. */
  datatype WriteOutcome = Written | Untouched | Emptied | Torn

  /** The outcomes met while handling one request: the clock, up to two state writes, one process
    * start (with its key pairs) and one process kill. */
  datatype Env = Env(now: int, write: WriteOutcome, rewrite: WriteOutcome, starts: bool, kills: bool)

  function WriteState(disk: Disk, s: EtcdState, w: WriteOutcome): Disk {
    match w
    case Written => Stored(s)
    case Untouched => disk
    case Emptied => Stored(BlankState)  // an empty file is a valid encoding of the blank state
    case Torn => Unreadable
  }

  predicate ValidHeader(n: Node, h: Header) {
    h.clusterName == n.config.clusterName && n.leader == Some(h.leadershipToken)
  }

  /** Entry `i` is the only one that carries `name`. */
  predicate OnlySelf(nodes: seq<EtcdNode>, name: string, i: nat)
    requires i < |nodes|
  {
    nodes[i].name == name && forall j: nat | j < |nodes| && nodes[j].name == name :: j == i
  }

  /** findSelfNode: the one entry that carries `name`; `None` when there is none or more than one. */
  function SelfIndex(nodes: seq<EtcdNode>, name: string): (r: Option<nat>)
    ensures r.Some? ==> r.value < |nodes| && OnlySelf(nodes, name, r.value)
    ensures r.None? ==> forall i: nat | i < |nodes| :: !OnlySelf(nodes, name, i)
  {
    if exists i: nat :: i < |nodes| && OnlySelf(nodes, name, i) then
      var i: nat :| i < |nodes| && OnlySelf(nodes, name, i);
      Some(i)
    else
      None
  }

  function DataDir(baseDir: string, token: string): string {
    baseDir + "/data/" + token
  }

  /** startEtcdProcess, up to the launch itself: the process that would be recorded. */
  function BuildProcess(config: Config, s: EtcdState): (r: Option<Process>)
    ensures r.Some? ==>
      && s.cluster.Some? && r.value.cluster.token == s.cluster.value.token != ""
      && r.value.dataDir == DataDir(config.baseDir, s.cluster.value.token)
      && r.value.quarantined == s.quarantined && r.value.etcdVersion == s.etcdVersion && !r.value.exited
      && r.value.createNew == s.newCluster
  {
    if s.cluster.None? || s.cluster.value.token == "" then None
    else
      var c := s.cluster.value;
      var me := SelfIndex(c.nodes, config.self.name);
      if me.None? || s.etcdVersion !in config.versions then None
      else
        var meNode := c.nodes[me.value].(clientUrls := config.self.clientUrls,
                                         quarantinedClientUrls := config.self.quarantinedClientUrls);
        Some(Process(s.newCluster, DataDir(config.baseDir, c.token), Cluster(c.token, c.nodes[me.value := meNode]),
                     s.quarantined, s.etcdVersion, !meNode.tlsEnabled, false))
  }

  /** Start etcd from the state in memory. */
  function StartProcess(n: Node, starts: bool): Outcome
    requires n.state.Some?
  {
    var p := BuildProcess(n.config, n.state.value);
    if p.Some? && starts then Outcome(n.(process := p), Ok) else Outcome(n, Error)
  }

  /** Install `s`, write it and start etcd from it; the tail shared by the two commit phases and Reconfigure. */
  function InstallAndStart(n: Node, s: EtcdState, env: Env): Outcome {
    var n1 := n.(state := Some(s), disk := WriteState(n.disk, s, env.write));
    if env.write != Written then Outcome(n1, Error) else StartProcess(n1, env.starts)
  }

  function ExpirePrepared(n: Node, now: int): Node {
    if n.prepared.Some? && now > n.prepared.value.validUntil then n.(prepared := None) else n
  }

  function HandleCancel(n: Node, token: string): Outcome {
    if n.prepared.None? then Outcome(n, Ok)
    else if n.prepared.value.token == token then Outcome(n.(prepared := None), Ok)
    else Outcome(n, Error)
  }

  function HandlePrepare(n: Node, token: string, now: int): Outcome {
    if n.process.Some? || n.prepared.Some? then Outcome(n, Error)
    else Outcome(n.(prepared := Some(Prepared(now + PreparedValidity, token))), Ok)
  }

  predicate CommitAllowed(n: Node, token: string) {
    n.process.None? && n.prepared.Some? && n.prepared.value.token == token
  }

  function HandleInitialCluster(n: Node, r: Request, env: Env): Outcome
    requires r.JoinCluster?
  {
    if !CommitAllowed(n, r.clusterToken) then Outcome(n, Error)
    else
      var s := EtcdState(true, Some(Cluster(r.clusterToken, r.nodes)), true, r.etcdVersion);
      var o := InstallAndStart(n, s, env);
      if o.reply != Ok then o
      else
        var s' := s.(newCluster := false);
        var n2 := o.node.(state := Some(s'), disk := WriteState(o.node.disk, s', env.rewrite));
        if env.rewrite != Written then Outcome(n2, Error) else Outcome(n2.(prepared := None), Ok)
  }

  function HandleJoinExisting(n: Node, r: Request, env: Env): Outcome
    requires r.JoinCluster?
  {
    if !CommitAllowed(n, r.clusterToken) then Outcome(n, Error)
    else
      var s := EtcdState(false, Some(Cluster(r.clusterToken, r.nodes)), false, r.etcdVersion);
      var o := InstallAndStart(n, s, env);
      if o.reply != Ok then o else Outcome(o.node.(prepared := None), Ok)
  }

  function HandleJoin(n: Node, r: Request, env: Env): Outcome
    requires r.JoinCluster?
  {
    if !ValidHeader(n, r.header) then Outcome(n, Error)
    else if r.phase == CancelPrepare then HandleCancel(n, r.clusterToken)
    else
      var n1 := ExpirePrepared(n, env.now);
      if r.etcdVersion !in n.config.versions then Outcome(n1, Error)
      else
        match r.phase
        case Prepare => HandlePrepare(n1, r.clusterToken, env.now)
        case InitialCluster => HandleInitialCluster(n1, r, env)
        case JoinExisting => HandleJoinExisting(n1, r, env)
        case _ => Outcome(n1, Error)
  }

  function Rewrite(url: string, find: string, with: string): string {
    if find <= url then with + url[|find|..] else url
  }

  function RewriteScheme(urls: seq<string>, find: string, with: string): (r: seq<string>)
    ensures |r| == |urls| && forall i | 0 <= i < |r| :: r[i] == Rewrite(urls[i], find, with)
  {
    if urls == [] then [] else [Rewrite(urls[0], find, with)] + RewriteScheme(urls[1..], find, with)
  }

  function EnableTls(e: EtcdNode): EtcdNode {
    e.(tlsEnabled := true, peerUrls := RewriteScheme(e.peerUrls, "http://", "https://"),
       clientUrls := RewriteScheme(e.clientUrls, "http://", "https://"))
  }

  /** No string starts with both. */
  predicate Apart(a: string, b: string) {
    exists k :: 0 <= k < |a| && k < |b| && a[k] != b[k]
  }

  lemma SchemesAreApart()
    ensures Apart("http://", "https://") && Apart("https://", "http://")
  {
    assert "http://"[4] == ':' && "https://"[4] == 's';
  }

  lemma RewrittenBack(url: string, http: string, https: string)
    requires Apart(http, https)
    ensures Rewrite(Rewrite(url, http, https), https, http) == url <==> !(https <= url)
  {
    if http <= url {
      assert (https + url[|http|..])[|https|..] == url[|http|..];
      assert url == http + url[|http|..];
    }
  }

  /** Turning TLS on and off again gives the same URLs if and only if none of them had TLS before. */
  lemma SchemeRoundTrip(urls: seq<string>, http: string, https: string)
    requires Apart(http, https)
    ensures RewriteScheme(RewriteScheme(urls, http, https), https, http) == urls <==>
      forall i | 0 <= i < |urls| :: !(https <= urls[i])
  {
    forall i | 0 <= i < |urls| ensures Rewrite(Rewrite(urls[i], http, https), https, http) == urls[i] <==>
                                       !(https <= urls[i])
    {
      RewrittenBack(urls[i], http, https);
    }
  }

  /** No URL keeps a scheme that was rewritten. */
  lemma OldSchemeIsGone(urls: seq<string>, find: string, with: string)
    requires Apart(find, with)
    ensures forall url | url in RewriteScheme(urls, find, with) :: !(find <= url)
  {
  }

  /** The state a Reconfigure asks for. */
  function Reconfigured(s: EtcdState, me: nat, r: Request): EtcdState
    requires r.Reconfigure? && s.cluster.Some? && me < |s.cluster.value.nodes|
  {
    var c := s.cluster.value;
    EtcdState(s.newCluster,
              Some(if r.enableTls then Cluster(c.token, c.nodes[me := EnableTls(c.nodes[me])]) else c),
              r.quarantined,
              if r.setEtcdVersion != "" then r.setEtcdVersion else s.etcdVersion)
  }

  function HandleReconfigure(n: Node, r: Request, env: Env): Outcome
    requires r.Reconfigure?
  {
    if !ValidHeader(n, r.header) || n.state.None? then Outcome(n, Error)
    else if n.state.value.cluster.None? then Outcome(n, Panic)  // nil dereference
    else
      var s := n.state.value;
      var me := SelfIndex(s.cluster.value.nodes, n.config.self.name);
      if me.None? || (r.setEtcdVersion != "" && r.setEtcdVersion !in n.config.versions) then Outcome(n, Error)
      else if n.process.Some? && !env.kills then Outcome(n, Error)
      else InstallAndStart(n.(process := None), Reconfigured(s, me.value, r), env)
  }

  function HandleStop(n: Node, r: Request, env: Env): Outcome
    requires r.StopEtcd?
  {
    if !ValidHeader(n, r.header) || n.state.None? then Outcome(n, Error)
    else if n.state.value.cluster.None? then Outcome(n, Panic)  // nil dereference
    else if n.process.Some? && !env.kills then Outcome(n, Error)
    else
      Outcome(n.(process := None, state := Some(BlankState), disk := WriteState(n.disk, BlankState, env.write)),
              if env.write == Written then Ok else Error)
  }

  function Handle(n: Node, r: Request, env: Env): Outcome {
    match r
    case JoinCluster(_, _, _, _, _) => HandleJoin(n, r, env)
    case Reconfigure(_, _, _, _) => HandleReconfigure(n, r, env)
    case StopEtcd(_) => HandleStop(n, r, env)
  }

  /** initState: read the state file unless a state is already known. */
  function InitState(n: Node): Outcome {
    if n.state.Some? || n.disk.Absent? then Outcome(n, Ok)
    else if n.disk.Unreadable? then Outcome(n, Error)
    else Outcome(n.(state := Some(n.disk.state)), Ok)
  }

  /** runOnce: the ten-second timer. */
  function RunOnce(n: Node, starts: bool): Outcome {
    var o := InitState(n);
    if o.reply != Ok then o
    else
      var n1 := if o.node.process.Some? && o.node.process.value.exited then o.node.(process := None) else o.node;
      if n1.state.Some? && n1.state.value.cluster.Some? && n1.process.None? then StartProcess(n1, starts)
      else Outcome(n1, Ok)
  }

  /** The node's process dies. */
  function ProcessExits(n: Node): Node {
    if n.process.Some? then n.(process := Some(n.process.value.(exited := true))) else n
  }

  /** etcd-manager itself starts: memory is rebuilt from the state file.
    * `None` when the file cannot be read: start-up then fails. */
  function Boot(config: Config, disk: Disk): (r: Option<Node>)
    ensures r.Some? <==> !disk.Unreadable?
  {
    var o := InitState(Node(config, None, None, None, disk, None));
    if o.reply == Ok then Some(o.node) else None
  }

  /** Start-up failed: nothing runs until the state file can be read. */
  predicate IsDown(n: Node) {
    n.state.None? && n.disk.Unreadable?
  }

  /** The node after etcd-manager starts, or tries to. */
  function StartUp(config: Config, disk: Disk): (n: Node)
    ensures IsDown(n) <==> disk.Unreadable?
    ensures n.process.None? && n.leader.None? && n.prepared.None?
  {
    var b := Boot(config, disk);
    if b.Some? then b.value else Node(config, None, None, None, disk, None)
  }

  /** GetInfo: the state other nodes are told about. */
  function GetInfo(n: Node): (r: Option<EtcdState>)
    ensures r.Some? ==> r.value.cluster.Some? && n.state == r
    ensures r.None? ==> !Configured(n)
  {
    if n.state.Some? && n.state.value.cluster.Some? then n.state else None
  }

  predicate Configured(n: Node) {
    n.state.Some? && n.state.value.cluster.Some?
  }

  /** Configured and open to clients. */
  predicate Released(n: Node) {
    Configured(n) && !n.state.value.quarantined
  }

  function ClusterToken(n: Node): Option<string> {
    if Configured(n) then Some(n.state.value.cluster.value.token) else None
  }
}
