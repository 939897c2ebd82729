# etcd-manager control plane: a verified model

etcd-manager runs one daemon per machine. The daemons gossip, elect a weak leader (the lowest id wins),
and the leader drives etcd on all machines through requests that carry its leadership token. This project
models that control plane and the self-contained algorithms around it, and proves what they keep over every
run and every input.

| file | models |
|---|---|
| `NodeModel.dfy`, `NodeHistory.dfy`, `EtcdServer.dfy` | the node: state, prepared join, process, state file; what every history keeps; the handlers step by step |
| `Gossip.dfy`, `Leadership.dfy`, `LeadershipOrder.dfy`, `Refusals.dfy`, `LateCheck.dfy` | peer tables and leadership notifications; leader election among any number of controllers; restarts and the order of ack checks; what refusals teach and what the ack check is worth; runs in which leadership goes up |
| `ControlPlane.dfy`, `Terms.dfy`, `Commands.dfy` | any number of controllers, nodes, the control store and the backup store, interleaved; what follows the end of a term; the life of a restore command |
| `UpgradeSafety.dfy`, `UpgradeRun.dfy`, `Recovery.dfy` | what an upgrade leaves to recover from; a run in which a cleanup takes that away; the way from a pending command to an open cluster, and a whole upgrade |
| `Network.dfy`, `NewCluster.dfy`, `Membership.dfy`, `Removal.dfy`, `InPlaceUpgrade.dfy` | one controller's operations over an unreliable network |
| `Retention.dfy`, `BackupName.dfy` | which backups a cleanup keeps; backup names and their order |
| `Hosts.dfy`, `CopyTo.dfy`, `ContentLock.dfy`, `GceUrl.dfy` | the hosts file, the paged copy of a restore, the leader lock, GCE URLs |
| `Common.dfy`, `StringOrder.dfy`, `Text.dfy` | options and quorums; the order of strings; splitting and joining |

`ControlPlane.dfy` and `Leadership.dfy` are step systems: one step is one request handled at one node, one store
access, one timer, ping, crash, restart or reboot. The theorems quantify over all sequences of steps. The code that
updates fields and loops is modelled by classes and methods that are proved against functions on values, and the
theorems are about those functions. A controller's operations are also held against a log that nothing but the network
writes: every request, backup and change of etcd's member list, in order, with its outcome. Where Go walks a map, the method takes any element next, so its contract
holds for every order.

What the model takes as given:

- A request is lost, handled, or handled with its reply lost. It is not handled after its sender gave up.
- Each store access is one step, and so is a cleanup of the backup store, which anybody may do at any time. Leadership
  tokens are unique, command files and backups get names that were never used before, the created marker is never
  removed, and a node's name is its peer id.
- A failed write of the state file leaves the old file, an empty file (which reads as the blank state) or an
  unreadable one. A node that starts with an unreadable file is down: it takes part in nothing.
- A handler reads the clock once. A nil dereference of the stored cluster (etcdserver.go:472, :539) is the reply
  `Panic` and changes nothing.
- Between two requests of `NewCluster.dfy`, `Membership.dfy`, `Removal.dfy` and `InPlaceUpgrade.dfy` nodes run
  timers, lose their process, and reboot if their state is saved, which it is after every request that succeeded.
  No other controller acts in between.
- In `Leadership.dfy` `Peers` and `snapshotHealthy` of one cycle are one read, and no entry of a peer table is ever
  stale. Restarts are steps; the theorems ask that a peer that accepts an assertion knows, once it has adopted the
  view, whom it had agreed on before.
- The spec's version has passed `verifyEtcdVersion`, so it is not empty.

Where the claims one would like are not true of the code:

- Leadership moves down in the order in which assertions are completed, not in the order in which the local ack
  checks after them happen: `LateCheck.DeposedLeaderPassesLast` builds, for any three machines, a run in which a
  deposed leader gets through its check after its successor. `LeadershipOrder.PassOrderExactly` says exactly when the
  ids of two passes go down, and `LeadershipOrder.PromptPassesMoveDown` that they always do if nobody passes
  after a later assertion was completed.
- A machine that restarts forgets its peers, and then leadership can go up even in the order of completion, although
  no entry is stale: `LateCheck.RestartsLetLeadershipRise`. The theorems ask that nobody accepts an assertion with a
  quorum whose view lacks a peer of such an assertion it accepted before; `LeadershipOrder.AllRememberExactly` says that
  this is what the condition comes to. A restarted peer that is next asked to accept a view with everybody it had
  agreed on meets it (`LeadershipOrder.RestartedPeerIsRetaught`), and so do all runs without restarts, or with restarts
  before a machine's first acceptance (`LeadershipOrder.EarlyRestartsAreHarmless`). It is sufficient and not necessary,
  since a forgotten peer need not matter.
- A peer known from discovery alone is not refreshed when a view that names it is accepted, so acceptance does not
  always mean agreement: `Gossip.DiscoveryEntryIsNotAdopted` shows the failure and `Gossip.AgreementExactly` says
  exactly when it does.
- What an upgrade stopped cannot always be recovered. The operator may delete the restore command that names its backup,
  and a cleanup may remove the backup itself while the command is pending: an hour keeps its earliest backup, and
  stopForUpgrade takes the one it names second. `UpgradeRun.CleanupDefeatsUpgrade` builds such a run.
  `UpgradeSafety.RecoveryExactly` says exactly which steps take recovery away, `UpgradeSafety.CleanupExactly` which
  backups a cleanup leaves, and `UpgradeSafety.UpgradeIsRecoverable` that over whole runs there is no third cause.
- A cleanup takes the zero time for no time, so a bucket that holds a backup of that very instant may forget it:
  `Retention.ZeroTimeIsForgotten`. `Retention.BucketsExactly` says for a whole cleanup exactly when it does, and
  `Retention.ModernClocksForgetNothing` that it needs a clock before the year 293.
- For an empty hosts key, or one that ends in white space, the end guard an update writes is not recognised by the
  next one, and lines appended after the block are lost: `Hosts.EndGuardRecognised`, `Hosts.AppendedLineIsForeign`.
- The paged copy with a page limit of 1 stops after one key; `CopyTo.CopyAll` states both cases exactly. The limit in
  use is 1000.
- A GCE URL whose type is `projects`, `zones` or `global` cannot be parsed back; `GceUrl.RoundTrip` says exactly when
  it can.
- A guard of the leader lock that is released twice can take the lock from a later holder, exactly when the same
  holder took it again in the same second: `ContentLock.RetriedReleaseTakesAway` is such a run, and
  `ContentLock.StepKeepsExclusive` and `ContentLock.StrayReleaseIsHarmless` give the condition.

## Model

| member | source | states |
|---|---|---|
| `ControlPlane.Fencing` | etcd-manager/pkg/controller/controller.go:261-384 | in every interleaving of any number of controllers, no request of a controller in the new-cluster branch, StopEtcd included, changes anything at a node that is open to clients |
| `ControlPlane.MarkerPrecedesRelease` | etcd-manager/pkg/commands/vfs.go:177-218 | a node is open to clients, in memory or on disk, only once the created marker has been written |
| `UpgradeSafety.UpgradeIsRecoverable` | etcd-manager/pkg/controller/upgrade.go:60-133 | at every point of every run, for each member that stopForUpgrade stopped, its backup is in the store and a restore command names it, or it was restored and the cluster it was restored into held all of it, or the operator deleted a command that named it, or a cleanup removed it; the backup was taken after every member confirmed its quarantine and lacks no write to its own cluster that the stopped member had acknowledged |
| `UpgradeSafety.FinishedUpgradeLosesNothing` | etcd-manager/pkg/controller/upgrade.go:60-133 | a stopForUpgrade that ran to its end stopped every member, all of them quarantined before the backup; unless the operator deleted a command that named it or a cleanup removed it, every write to the backup's cluster that they had acknowledged is in a stored backup that a command names or in the cluster the backup was restored into |
| `UpgradeSafety.RecoveryExactly` | etcd-manager/pkg/controller/restore.go:66-119 | a step of anybody takes recovery of a backup away if and only if the backup has not been restored and the step is the deletion of the last command that names it, or a cleanup that finds it neither young nor the one its bucket keeps nor unreadable, and manages to remove it |
| `UpgradeSafety.CleanupExactly` | etcd-manager/pkg/controller/controller.go:558-580 | a cleanup leaves a backup in the store if and only if it is young, represents its bucket, cannot be read or cannot be removed |
| `UpgradeSafety.SecondBackupIsRemoved` | etcd-manager/pkg/controller/upgrade.go:69-90 | of two backups of one hour a cleanup removes the second once it is an hour old, whether or not a command names it |
| `UpgradeSafety.SparedBackupStays` | etcd-manager/pkg/backupcontroller/cleanup.go:102-189 | a backup that every cleanup of a run spares is in the store as long as the run lasts |
| `UpgradeSafety.CleanupRemoved` | etcd-manager/pkg/controller/controller.go:574-577 | a backup counts as removed only if a cleanup removed it |
| `UpgradeSafety.OperatorWithdrew` | etcd-manager/cmd/etcd-manager-ctl/main.go:168-194 | a backup counts as withdrawn only if the operator deleted a command that named it |
| `UpgradeSafety.DeleteExactly` | etcd-manager/cmd/etcd-manager-ctl/main.go:168-194 | deleting a restore command leaves its backup restored or named if and only if it has been restored or another command names it |
| `UpgradeSafety.RunRestored` | etcd-manager/pkg/controller/restore.go:66-86 | in every reachable state the whole of a backup counted as restored was in the cluster it was restored into when that last ran |
| `UpgradeRun.CleanupDefeatsUpgrade` | etcd-manager/pkg/controller/controller.go:558-580 | for any node, two controllers and four backups of one hour there is a run in which a deposed leader's cleanup removes the backup an upgrade relies on, so that a write the stopped node had acknowledged is in no stored backup, while the command is still pending and nobody restored or deleted anything |
| `ControlPlane.RunKeeps` | etcd-manager/pkg/controller/restore.go:66-119 | the invariant behind these theorems holds in every reachable state, cleanups of the backup store included: distinct tokens, closed nodes as long as they answer to the controller that relies on it, restore commands removed only after their restore or by the operator |
| `Commands.RemovedStaysRemoved` | etcd-manager/pkg/controller/restore.go:81-84 | over runs, a command that was restored and removed is never in the store again |
| `Commands.RestoredAgainIsStale` | etcd-manager/pkg/controller/commands.go:28-87 | whoever restores such a command later is another controller, had it in its cache when it was removed, and has not read the commands since |
| `Commands.CommandOrigin` | etcd-manager/pkg/controller/upgrade.go:86-101 | every command in the store was written by the operator or by an upgrade that had taken its backup, and names what it named then |
| `Terms.OldTokensAreSilent` | etcd-manager/pkg/controller/controller.go:232-289 | whatever a controller sends after it resigned or crashed carries a token drawn since |
| `Terms.LostRepliesCount` | etcd-manager/pkg/controller/upgrade.go:110-130 | a request takes effect at its node whether or not its reply arrives |
| `Terms.LostStoreRepliesCount` | etcd-manager/pkg/controller/upgrade.go:96-101 | a command that is added and a restore that copies everything take effect whether or not the answer arrives |
| `UpgradeRun.NextCycle` | etcd-manager/pkg/controller/controller.go:261-394 | a cycle of a leader that finds nothing to do changes nothing |
| `Recovery.RecoveryIsPossible` | etcd-manager/pkg/controller/controller.go:395-420 | from any state in which a command names a stored backup, with any controller, any node whose state file can be read and any cluster token, there is a way on to that node serving the new cluster, open, with the whole backup in it and the command gone |
| `Recovery.UpgradeSucceeds` | etcd-manager/pkg/controller/upgrade.go:60-133 | for any node and controllers there is a run of a whole upgrade, from the creation of the cluster to an open new one that has what a client had written to the old |
| `ControlPlane.RequestAtNode` | etcd-manager/pkg/etcd/etcdserver.go:651-664 | a request under another token than the accepted one changes nothing; only lifting the quarantine or joining an existing cluster opens a node; a confirmed quarantine closes it and a confirmed stop empties it |
| `Leadership.LeadershipOnlyMovesDown` | etcd-manager/pkg/controller/controller.go:187-289 | with fewer than 2q machines and no stale entry, restarts included as long as nobody accepts an assertion with q peers without knowing, once it adopted the view, whom it agreed on before: of any two assertions completed with at least q peers, whether or not the ack check follows, the one completed later has no higher id and saw at least the same peers |
| `LeadershipOrder.PassOrderExactly` | etcd-manager/pkg/controller/controller.go:271-289 | of two cycles that got through the ack check with at least q peers the later one has no higher id if and only if its assertion was completed later, or the ids are equal |
| `LeadershipOrder.PromptPassesMoveDown` | etcd-manager/pkg/controller/controller.go:271-289 | if everybody who passes with q peers does so while no later assertion with q peers is completed, the ids of passes never go up |
| `LeadershipOrder.PassIsCompleted` | etcd-manager/pkg/controller/controller.go:271-289 | every pass has exactly one place among the completed assertions |
| `LeadershipOrder.EarlyRestartsAreHarmless` | etcd-manager/pkg/privateapi/leadership.go:36-91 | in runs without restarts, or with restarts only before a machine accepts its first assertion with q peers, the condition of the theorems holds |
| `LeadershipOrder.AllRememberExactly` | etcd-manager/pkg/privateapi/leadership.go:36-91 | over a whole run, the condition holds if and only if every view that is accepted with q peers contains all such views the peer accepted before |
| `LeadershipOrder.RemembersExactly` | etcd-manager/pkg/privateapi/leadership.go:36-91 | the same for one acceptance |
| `LeadershipOrder.RestartedPeerIsRetaught` | etcd-manager/pkg/privateapi/server.go:69-83 | a peer that restarts and is next notified of a view with everybody it had agreed on accepts it and meets the condition, although its table was empty |
| `LateCheck.RestartsLetLeadershipRise` | etcd-manager/pkg/privateapi/server.go:69-83 | for any three ids in ascending order there is a run without stale entries in which two machines restart and the ids of completed assertions, and of passes, go up |
| `LateCheck.DeposedLeaderPassesLast` | etcd-manager/pkg/controller/controller.go:261-289 | for any three ids in ascending order there is a run without restarts in which the ack checks are passed with ascending ids, each with at least q = 2 peers |
| `Leadership.CompletionGrows` | etcd-manager/pkg/privateapi/leadership.go:197-235 | two assertions with a quorum share a peer, and the peer that completes the later one makes its view the larger |
| `Leadership.AcceptKeeps` | etcd-manager/pkg/privateapi/leadership.go:36-91 | views with a quorum that have a common acceptance stay comparable when a peer that knows them, having adopted the view, accepts one more |
| `Leadership.RunKeeps` | etcd-manager/pkg/privateapi/leadership.go:156-235 | in every state of such a run, restarts included, assertions with a common acceptance have comparable views, no assertion is completed twice, and completed assertions have ever larger views |
| `Refusals.RefusalTeaches` | etcd-manager/pkg/privateapi/leadership.go:181-189 | whomever a refusing peer counts and the view lacks, the refused controller knows afterwards |
| `Refusals.RefusedExactly` | etcd-manager/pkg/privateapi/leadership.go:36-91 | a notification is refused if and only if the view is not empty and lacks a peer that the notified one counts |
| `Refusals.NextViewIsLarger` | etcd-manager/pkg/privateapi/leadership.go:197-235 | over runs, every view a controller sends out after a refusal and before it restarts contains all peers the refusal reported, and more than the refused view |
| `Refusals.RefusalsAreFew` | etcd-manager/pkg/privateapi/leadership.go:156-235 | as long as it does not restart, a controller is refused less often than there are machines |
| `Refusals.PassedExactly` | etcd-manager/pkg/controller/controller.go:261-289 | a leader gets through its ack check if and only if it won its term with a bid whose view contains the asserted one, and then every peer of that view had accepted its token; otherwise it resigns |
| `Refusals.LostAnswersCount` | etcd-manager/pkg/privateapi/leadership.go:156-235 | a notification takes effect whether or not its answer arrives |
| `Gossip.AcceptanceMeansAgreement` | etcd-manager/pkg/privateapi/leadership.go:36-91 | with fresh entries a node accepts a view if and only if the view names every peer it knows, and afterwards it knows exactly those peers; a refusal reports all peers it knows and keeps the old leader |
| `Gossip.AgreementExactly` | etcd-manager/pkg/privateapi/leadership.go:36-91 | a view is accepted if and only if it is not empty and names every healthy peer; and then the node counts exactly the peers of the view if and only if every peer of the view that had an entry was healthy |
| `Gossip.CountedExactly` | etcd-manager/pkg/privateapi/leadership.go:93-128 | over everything a node has heard since it started, it counts a peer if and only if the peer's last ping, or the view that first named it if it never pinged, is not older than the timeout |
| `Gossip.DiscoveryEntryIsNotAdopted` | etcd-manager/pkg/privateapi/leadership.go:109-128 | a concrete run in which an entry without info is not refreshed by an accepted view and a smaller view is accepted next |
| `Gossip.Server.AddPeersFromView` | etcd-manager/pkg/privateapi/leadership.go:109-128 | adds exactly the peers that had no entry, whatever the order |
| `Gossip.Server.SnapshotHealthy` | etcd-manager/pkg/privateapi/leadership.go:93-107 | exactly the peers with info and a ping within the timeout |
| `Gossip.Server.LeaderNotification` | etcd-manager/pkg/privateapi/leadership.go:36-91 | new table, leadership and response are those of the specification `Notified` |
| `Gossip.Server.UpdateFromPing` | etcd-manager/pkg/privateapi/peers.go:82-106 | a ping with an id replaces that peer's entry and no other |
| `Gossip.Server.UpdateFromDiscovery` | etcd-manager/pkg/privateapi/peers.go:108-130 | discovery adds an entry without info for a peer that has none, and changes no other |
| `NodeHistory.RunKeepsValid` | etcd-manager/pkg/etcd/etcdserver.go:171-197 | over every history with failed writes, failed starts, dying processes and reboots, also those that leave the node down, a recorded process implies a configured cluster and has its token, data directory, version and quarantine; its nodes are the stored ones but for the client URLs of its own entry, and it uses TLS exactly if that entry says so |
| `NodeHistory.TokenFixedWhileRunning` | etcd-manager/pkg/etcd/etcdserver.go:556-648 | while a process is recorded the stored token does not change |
| `NodeHistory.JoinHistory` | etcd-manager/pkg/etcd/etcdserver.go:261-387 | a stored token becomes T only by a commit phase with no process running, under a PREPARE of T accepted at most PreparedValidity earlier that has stood unchanged since |
| `NodeHistory.PreparedOrigin` | etcd-manager/pkg/etcd/etcdserver.go:269-309 | a live PREPARE was accepted at an earlier event and has not been replaced since |
| `NodeHistory.LivePrepareExcludesOthers` | etcd-manager/pkg/etcd/etcdserver.go:278-309 | while a PREPARE of T is live no other token can be installed |
| `NodeHistory.PrepareThenCommit` | etcd-manager/pkg/etcd/etcdserver.go:289-387 | a commit after a PREPARE is accepted exactly within the validity, and then the node runs and has stored the new cluster: an initial one closed and told to create it, a joined one open and told to join |
| `NodeHistory.NewTokenIsCommitted` | etcd-manager/pkg/etcd/etcdserver.go:311-387 | one step short of a reboot installs a token only as the commit of a live PREPARE, with no process recorded |
| `NodeHistory.StepKeepsValid` | etcd-manager/pkg/etcd/etcdserver.go:261-501 | every request, timer, exit and reboot keeps the node invariant |
| `NodeHistory.DownStaysDown` | etcd-manager/pkg/etcd/etcdserver.go:88-91 | a node whose state file could not be read at start-up takes part in nothing |
| `NodeHistory.CommitSettles` | etcd-manager/pkg/etcd/etcdserver.go:311-387 | an accepted commit leaves a process that was told to create the cluster if and only if the phase was INITIAL_CLUSTER, with the requested nodes and version stored and nothing stored that asks for a new cluster |
| `NodeHistory.CreatesOnce` | etcd-manager/pkg/etcd/etcdserver.go:334-346 | over every history, after an accepted INITIAL_CLUSTER and until the next one, the only process that was told to create a cluster is the one it started, whatever timers, reconfigurations and reboots follow |
| `NodeHistory.SettledStays` | etcd-manager/pkg/etcd/etcdserver.go:614-616 | the step behind it: no start from a state whose second write succeeded asks for a new cluster |
| `NodeHistory.TimerHeals` | etcd-manager/pkg/etcd/etcdserver.go:171-197 | a timer that can start processes leaves a live one if and only if there was one or the state can be started |
| `NodeHistory.DeadIsReplaced` | etcd-manager/pkg/etcd/etcdserver.go:178-194 | a dead process is missed at the next timer, and replaced if and only if the state can be started |
| `NodeHistory.StartableExactly` | etcd-manager/pkg/etcd/etcdserver.go:556-620 | a process can be built if and only if the cluster has a token, the node one entry of its own, and the version is known |
| `NodeHistory.PrepareExactly` | etcd-manager/pkg/etcd/etcdserver.go:261-309 | when a PREPARE is accepted, and that nothing but the PREPARE changes |
| `NodeHistory.CancelExactly` | etcd-manager/pkg/etcd/etcdserver.go:269-276 | a CANCEL_PREPARE undoes a PREPARE of its own token and no other |
| `NodeHistory.ReconfigureExactly` | etcd-manager/pkg/etcd/etcdserver.go:390-455 | when a Reconfigure succeeds, and that then version, quarantine and TLS are as asked, the rest as before, stored and running |
| `NodeHistory.StopExactly` | etcd-manager/pkg/etcd/etcdserver.go:458-501 | when a StopEtcd succeeds, and that then nothing is left of the cluster in memory or in the file |
| `NodeHistory.ForeignIsRefused` | etcd-manager/pkg/etcd/etcdserver.go:651-664 | a request for another cluster or under another token is refused and changes nothing |
| `NodeHistory.LeaderIsObeyed` | etcd-manager/pkg/etcd/etcdserver.go:651-664 | a node that is up obeys exactly the leader it was told of last |
| `NodeHistory.DirectoriesDiffer` | etcd-manager/pkg/etcd/etcdserver.go:564 | two processes with one base directory share a data directory if and only if they run the same cluster |
| `NodeModel.SelfIndex` | etcd-manager/pkg/etcd/etcdserver.go:537-554 | the one entry that carries the node's name, and none when there is none or more than one |
| `NodeModel.BuildProcess` | etcd-manager/pkg/etcd/etcdserver.go:556-620 | a process is built only for a configured cluster with a token, in that token's directory, at the stored version and quarantine, and creates a cluster exactly if the state asks for a new one |
| `NodeModel.SchemeRoundTrip` | etcd-manager/pkg/urls/rewrite.go:21-30 | turning TLS on and off again gives the same URLs if and only if none had TLS before |
| `NodeModel.OldSchemeIsGone` | etcd-manager/pkg/urls/rewrite.go:21-30 | no URL keeps a scheme that was rewritten |
| `NodeModel.Boot` | etcd-manager/pkg/etcd/etcdserver.go:153-169 | start-up succeeds exactly when the state file is absent or readable |
| `NodeModel.StartUp` | etcd-manager/pkg/etcd/etcdserver.go:75-107 | after a start the node has no process, leader or PREPARE, and is down exactly if the state file cannot be read |
| `NodeModel.GetInfo` | etcd-manager/pkg/etcd/etcdserver.go:200-225 | a reported state always has a cluster, and none is reported exactly for an unconfigured node |
| `EtcdServer.EtcdServer.constructor` | etcd-manager/pkg/etcd/etcdserver.go:75-86 | a new server has nothing but its configuration |
| `EtcdServer.EtcdServer.Start` | etcd-manager/pkg/etcd/etcdserver.go:75-107 | start-up fails exactly when the state file cannot be read, and otherwise gives the booted node |
| `EtcdServer.EtcdServer.ReadState` | etcd-manager/pkg/etcd/etcdserver.go:153-169 | refines the reading of the state file |
| `EtcdServer.EtcdServer.FindSelfNode` | etcd-manager/pkg/etcd/etcdserver.go:537-554 | the loop finds exactly the entry of the specification |
| `EtcdServer.EtcdServer.Persist` | etcd-manager/pkg/etcd/etcdserver.go:139-151 | the state file after each outcome of the write, memory unchanged |
| `EtcdServer.EtcdServer.StartEtcdProcess` | etcd-manager/pkg/etcd/etcdserver.go:556-625 | refines the start of the specification, error paths included |
| `EtcdServer.EtcdServer.StopEtcdProcess` | etcd-manager/pkg/etcd/etcdserver.go:636-648 | the process is forgotten unless the kill failed |
| `EtcdServer.EtcdServer.JoinCluster` | etcd-manager/pkg/etcd/etcdserver.go:261-387 | refines the join of the specification in all phases |
| `EtcdServer.EtcdServer.CommitInitialCluster` | etcd-manager/pkg/etcd/etcdserver.go:311-348 | refines the first commit phase, failed writes and starts included |
| `EtcdServer.EtcdServer.CommitJoinExisting` | etcd-manager/pkg/etcd/etcdserver.go:350-382 | refines the second commit phase |
| `EtcdServer.EtcdServer.NextState` | etcd-manager/pkg/etcd/etcdserver.go:420-435 | the state a Reconfigure asks for, built field by field |
| `EtcdServer.EtcdServer.Reconfigure` | etcd-manager/pkg/etcd/etcdserver.go:390-455 | refines the Reconfigure of the specification |
| `EtcdServer.EtcdServer.StopEtcd` | etcd-manager/pkg/etcd/etcdserver.go:458-501 | refines the StopEtcd of the specification |
| `EtcdServer.EtcdServer.Tick` | etcd-manager/pkg/etcd/etcdserver.go:171-197 | refines the timer of the specification |
| `Network.TimersAreQuiet` | etcd-manager/pkg/etcd/etcdserver.go:171-197 | a timer, the death of the process, or a reboot of a node whose state is saved changes nothing but the recorded process, the accepted leader and the PREPARE |
| `Network.SuccessIsSaved` | etcd-manager/pkg/etcd/etcdserver.go:334-346 | a request that succeeds and changes the state leaves it saved |
| `NewCluster.CreateNewCluster` | etcd-manager/pkg/controller/newcluster.go:32-176 | success leaves exactly the proposed peers configured, all with the fresh token and the version and quarantined; the proposal has MemberCount peers, or one less only if MemberCount is odd, with the desired quorum; too few peers are refused exactly; the dummy-peers exit is unreachable; whatever fails, every peer kept its state, lost its cluster or is closed in the new one; and the network saw exactly the stops of all running peers, the broadcast, a PREPARE and an INITIAL_CLUSTER of the proposed nodes to each, and the spec, in that order up to the first failure |
| `NewCluster.CommitComesLast` | etcd-manager/pkg/controller/newcluster.go:111-168 | nobody is asked to start the new cluster before every running peer has been stopped and every proposed one has accepted the PREPARE of the same token |
| `NewCluster.SchemeIsWanted` | etcd-manager/pkg/controller/newcluster.go:70-84 | no URL of a proposed node has the scheme the controller does not want |
| `NewCluster.SameQuorum` | etcd-manager/pkg/controller/controller.go:1007-1011 | a smaller size has the same quorum if and only if it is one less than an odd size |
| `Common.QuorumIsMajority` | etcd-manager/pkg/controller/controller.go:1007-1011 | a number of nodes is at least the quorum size if and only if it is more than half |
| `NewCluster.Propose` | etcd-manager/pkg/controller/newcluster.go:55-62 | distinct peers, up to the desired number, for every order of the map |
| `NewCluster.ProposedNodes` | etcd-manager/pkg/controller/newcluster.go:70-84 | the node of each proposed peer in order, with the wanted scheme and TLS flag |
| `NewCluster.Form` | etcd-manager/pkg/controller/newcluster.go:111-176 | stop, broadcast, PREPARE, INITIAL_CLUSTER and spec in that order form exactly the proposal, and leave nothing open whatever fails |
| `NewCluster.StartAll` | etcd-manager/pkg/controller/newcluster.go:127-176 | the part after the stops, as the network saw it and at the nodes |
| `NewCluster.StopAll` | etcd-manager/pkg/controller/newcluster.go:111-125 | success means that no peer is configured and that every running peer, and no other, was asked to stop once |
| `NewCluster.JoinAll` | etcd-manager/pkg/controller/newcluster.go:134-168 | success means that every node of the proposal carried out the phase; the network saw the request at each in turn, up to the first failure |
| `Membership.AddNode` | etcd-manager/pkg/controller/controller.go:763-905 | whatever fails, in what the network saw every request and member add comes after a backup that a healthy member's peer took, and the join of the chosen idle peer after an accepted PREPARE of the same token and an accepted member add of the peer; before the add nothing but a lapsing PREPARE changes, and no other node ever; a started peer runs the cluster of all members and itself; once it is healthy the members are again a quorum of the enlarged cluster; when nothing is tried, and why |
| `Membership.BackUpAndExpand` | etcd-manager/pkg/controller/controller.go:787-900 | the part after the checks: backups until one is taken, and then the expansion, exactly |
| `Membership.AttemptsComeFirst` | etcd-manager/pkg/controller/controller.go:908-935 | whatever follows backup attempts of which one succeeded comes after a backup |
| `Membership.ExpansionPreparesFirst` | etcd-manager/pkg/controller/controller.go:840-900 | in an expansion the join comes after an accepted PREPARE and an accepted member add |
| `Membership.Expand` | etcd-manager/pkg/controller/controller.go:797-900 | the same for the part after the backup; it gives up without a request only if no peer reported a cluster |
| `Membership.JoinNodes` | etcd-manager/pkg/controller/controller.go:813-838 | the node list is every member once and then the peer with the wanted scheme |
| `Membership.QuorumHasMembers` | etcd-manager/pkg/controller/controller.go:788-795 | the branch that expands without a backup is unreachable |
| `Membership.StartOn` | etcd-manager/pkg/controller/controller.go:840-900 | PREPARE, member add and JOIN_EXISTING up to the first failure, and a CANCEL_PREPARE after a failed add; a failed add leaves only a PREPARE that is cancelled or lapses |
| `Membership.GrownQuorum` | etcd-manager/pkg/controller/controller.go:764-766 | a healthy quorum is one again after a member was added and became healthy |
| `Membership.DoClusterBackup` | etcd-manager/pkg/controller/controller.go:908-935 | the peers of healthy members are asked until one that accepts the token takes the backup; failure means that all of them were asked and failed; no node changed |
| `Membership.IdlePeers` | etcd-manager/pkg/controller/controller.go:751-761 | exactly the peers that reported no state |
| `Membership.FindCluster` | etcd-manager/pkg/controller/controller.go:800-811 | token and version are those some configured peer reported, and there is none only if no peer reported one |
| `Membership.AtPeer` | etcd-manager/pkg/etcd/etcdserver.go:269-382 | PREPARE and CANCEL_PREPARE change nothing but the prepared token; a join that is not confirmed leaves the peer prepared at most, or with the cluster in its state; an accepted one runs the cluster, open to clients |
| `Removal.EtcdController.RemoveNode` | etcd-manager/pkg/controller/controller.go:937-1005 | the victim is a healthy member only when all are healthy, so with two or more members a healthy quorum survives; a victim of an unhealthy-only removal was long unhealthy; in what the network saw a taken backup comes first; nobody is removed exactly if there is no member, or only unhealthy ones may go and none has been so for long; the fatal exit is unreachable |
| `Removal.EtcdController.PickVictim` | etcd-manager/pkg/controller/controller.go:940-986 | the same for the choice alone, for every order of the map |
| `Removal.EtcdController.Track` | etcd-manager/pkg/controller/controller.go:301-314 | each record is the time of the cycle of this term that last saw the member healthy, or that first saw it at all |
| `Removal.EtcdController.NewTerm` | etcd-manager/pkg/controller/controller.go:253-255 | a new term starts without records |
| `Removal.OldRecordIsLongUnhealthy` | etcd-manager/pkg/controller/controller.go:949-958 | a record is older than the deadline if and only if the member was first seen at least that long ago in this term and not healthy since |
| `Removal.RemovalKeepsQuorum` | etcd-manager/pkg/controller/controller.go:937-1011 | removing such a victim turns a healthy quorum of two or more members into a healthy quorum |
| `InPlaceUpgrade.UpgradeCycle` | etcd-manager/pkg/controller/controller.go:433-545 | a successful cycle moves exactly one member peer to the target and touches no other node, only when all members are healthy and the cluster is at full size; before and after, whether or not the reply arrived, all peers are in step; in what the network saw a taken backup comes first, and then exactly one request, which sets the version; every way out without one is characterised |
| `InPlaceUpgrade.RollingUpgrade` | etcd-manager/pkg/controller/upgrade.go:135-197 | successful cycles reach the target after exactly as many cycles as members were off it, and peers that start in step are in step in every state on the way |
| `InPlaceUpgrade.StepShrinks` | etcd-manager/pkg/controller/upgrade.go:166-193 | one successful cycle takes exactly one member off the list of those off target |
| `InPlaceUpgrade.InStepMeansOneApart` | etcd-manager/pkg/controller/controller.go:433-453 | in step, any two configured peers run minors at most one apart |
| `InPlaceUpgrade.SupportedExactly` | etcd-manager/pkg/etcdversions/mappings.go:70-90 | the unsigned subtraction never wraps into a yes: supported if and only if both are 3.x and the target is the same or the next minor |
| `InPlaceUpgrade.CheckVersions` | etcd-manager/pkg/controller/controller.go:433-453 | whether some reported version differs from the target, and whether all that differ are 3.x and at most one minor below it |
| `InPlaceUpgrade.PrepareForUpgrade` | etcd-manager/pkg/controller/upgrade.go:28-58 | succeeds if and only if every member has a peer, all are healthy and there are MemberCount of them |
| `InPlaceUpgrade.AllReported` | etcd-manager/pkg/controller/upgrade.go:146-156 | succeeds if and only if every member's peer reported a state |
| `InPlaceUpgrade.UpgradeOne` | etcd-manager/pkg/controller/upgrade.go:135-197 | backups until one is taken, then one request to a member off target; without a confirmed reply it has the old version or the target; no request only if the backup failed, a state is missing or all members are on target |
| `InPlaceUpgrade.SetVersion` | etcd-manager/pkg/controller/upgrade.go:179-189 | a reconfiguration that sets the version keeps token and quarantine and stores no third version |
| `Retention.EarliestOfDayIsNeverLost` | etcd-manager/pkg/backupcontroller/cleanup.go:102-189 | over any sequence of insertions and cleanups, failing removals included, a backup with the day's earliest time survives every cleanup at which it is younger than the daily limit |
| `Retention.EarliestOfDaySurvives` | etcd-manager/pkg/backupcontroller/cleanup.go:140-161 | the same for one cleanup, although hour and day buckets share one map |
| `Retention.RemovedIsCovered` | etcd-manager/pkg/backupcontroller/cleanup.go:140-180 | for every removed backup within the daily limit one that is no later survives on the same day, and in the same hour within the hourly limit |
| `Retention.UnreadableAndYoungAreNeverLost` | etcd-manager/pkg/backupcontroller/cleanup.go:121-138 | over any sequence of insertions and cleanups an unreadable name stays, and any other as long as every cleanup happens within an hour of its time |
| `Retention.LowerExactly` | etcd-manager/pkg/backupcontroller/cleanup.go:142-145 | a bucket keeps the earlier of two times if and only if it does not hold the zero time and sees a later one |
| `Retention.BucketsExactly` | etcd-manager/pkg/backupcontroller/cleanup.go:114-157 | after the loop every bucket has its earliest time if and only if no backup of the zero time that has a bucket is followed in it by a later one and not again by one of the zero time |
| `Retention.ZeroTimeIsForgotten` | etcd-manager/pkg/backupcontroller/cleanup.go:142-145 | two backups of one hour, the first at the zero time: the bucket forgets the first |
| `Retention.ModernClocksForgetNothing` | etcd-manager/pkg/backupcontroller/cleanup.go:133-149 | past the year 293 no zero time is forgotten |
| `Retention.LaterOfHourIsRemoved` | etcd-manager/pkg/backupcontroller/cleanup.go:140-147 | of two backups of one hour within the hourly limit the later one is removed once it is an hour old |
| `Retention.LaterOfDayIsRemoved` | etcd-manager/pkg/backupcontroller/cleanup.go:149-157 | of two backups of one day, past the hourly and within the daily limit, the later one is removed |
| `Retention.ExpiredIsRemoved` | etcd-manager/pkg/backupcontroller/cleanup.go:149-180 | a backup past every limit is removed |
| `Retention.ExpiredStaysGone` | etcd-manager/pkg/backupcontroller/cleanup.go:102-189 | over any sequence of insertions and cleanups, a backup that one cleanup met past every limit and removed is gone for good unless it is made again |
| `Retention.SurvivorsAreSparse` | etcd-manager/pkg/backupcontroller/cleanup.go:140-161 | of the survivors that are an hour old no two share an hour within the hourly limit or a day after it, and none is past both limits |
| `Retention.CleanupIsIdempotent` | etcd-manager/pkg/backupcontroller/cleanup.go:102-189 | a second cleanup at the same instant removes nothing |
| `Retention.Representative` | etcd-manager/pkg/backupcontroller/cleanup.go:140-161 | every bucket keeps a backup no later than any of its own |
| `Retention.BucketKeeps` | etcd-manager/pkg/backupcontroller/cleanup.go:131-161 | the names taken from the two maps are exactly the representatives of the buckets |
| `Retention.BackupCleanup.Classify` | etcd-manager/pkg/backupcontroller/cleanup.go:114-157 | after the loop the maps hold the last name of each time and the times of the specification `BucketsOf`, the zero time included |
| `Retention.BackupCleanup.RetainBuckets` | etcd-manager/pkg/backupcontroller/cleanup.go:159-161 | the young ones and one name per bucket, for every order of the map |
| `Retention.BackupCleanup.MaybeDoBackupMaintenance` | etcd-manager/pkg/backupcontroller/cleanup.go:102-189 | nothing happens within the interval or when the listing fails; otherwise, if no zero time is forgotten, exactly what is not kept and whose removal succeeds is gone, and with it whatever an earlier backup of the same hour or day makes superfluous; if one is, every removable backup of the zero time is gone; in either case every removable backup past all limits is gone, and names that cannot be read and backups under an hour old stay |
| `Retention.BackupCleanup.RemoveOthers` | etcd-manager/pkg/backupcontroller/cleanup.go:163-180 | exactly what is neither retained nor ignored, and whose removal succeeds, is gone |
| `BackupName.NameOrder` | etcd-manager/pkg/backup/vfs.go:52-58 | for years 0000 to 9999, names compare as strings as (time, sequence) compares |
| `BackupName.ListingIsChronological` | etcd-manager/pkg/backup/vfs.go:93-123 | a listing is sorted as strings if and only if it is in the order of time and sequence |
| `BackupName.NamesDetermine` | etcd-manager/pkg/backup/vfs.go:58 | a name determines its second and its sequence number |
| `BackupName.ParseNameExactly` | etcd-manager/pkg/backupcontroller/parse.go:29-45 | a name is read as a date and a suffix if and only if it is the formatted date, alone or with a hyphen and that suffix |
| `BackupName.ParseFormat` | etcd-manager/pkg/backupcontroller/parse.go:38-43 | a formatted time reads back as itself |
| `BackupName.FormatParse` | etcd-manager/pkg/backupcontroller/parse.go:38-43 | what is read as a time is the format of an existing date |
| `BackupName.TimeOfMade` | etcd-manager/pkg/backupcontroller/parse.go:29-45 | a cleanup reads from a name the time it was made at |
| `BackupName.BucketsAreDays` | etcd-manager/pkg/backupcontroller/cleanup.go:149-156 | two times share a day bucket key if and only if they have the same calendar date in UTC |
| `BackupName.BucketsAreHours` | etcd-manager/pkg/backupcontroller/cleanup.go:140-147 | two times share an hour if and only if they have the same date and hour in UTC |
| `BackupName.EarlierMeansLess` | etcd-manager/pkg/backup/vfs.go:58 | dates compare field by field as the instants they name, leap years included |
| `BackupName.YearsInClosedForm` | etcd-manager/pkg/backup/vfs.go:58 | the days before a year, added up year by year, in closed form |
| `BackupName.MonthsInClosedForm` | etcd-manager/pkg/backup/vfs.go:58 | the days before a month, added up month by month, in closed form |
| `BackupName.StartOfYear` | etcd-manager/pkg/backupcontroller/parse.go:38-43 | the time of the start of a year in closed form, zero for year 1 |
| `BackupName.NamesAreUnique` | etcd-manager/pkg/etcd/backup.go:71-80 | two of any million consecutive uploads of one process have different names, whatever the clock says |
| `BackupName.Uploader.Upload` | etcd-manager/pkg/etcd/backup.go:74-90 | the counter advances and wraps after 999999, and the name reads back to the time and the counter |
| `Hosts.UpdateTwice` | etcd-manager/pkg/hosts/hosts.go:98-178 | a second update leaves no trace of the first; with the same records it changes nothing |
| `Hosts.UpdateKeepsOthers` | etcd-manager/pkg/hosts/hosts.go:98-178 | for every file, with stray, repeated or nested guards, all non-blank lines outside the provider's own blocks stay as they are and in order, and its own lines become one block with the records |
| `Hosts.EndGuardRecognised` | etcd-manager/pkg/hosts/hosts.go:98-131 | the end guard an update writes is recognised by the next one if and only if the key is not empty and does not end in white space |
| `Hosts.AppendedLineIsForeign` | etcd-manager/pkg/hosts/hosts.go:104-136 | a line appended after the block stays outside it if and only if the end guard is recognised |
| `Hosts.OtherKeysAreForeign` | etcd-manager/pkg/hosts/hosts.go:35-36 | guards of another key are foreign lines |
| `Hosts.UpdateIsDetermined` | etcd-manager/pkg/hosts/hosts.go:62-178 | the file after an update does not depend on the order in which any map is walked |
| `Hosts.ListingsAgree` | etcd-manager/pkg/hosts/hosts.go:152-171 | tables with the same names per address give the same lines, whatever the order |
| `Hosts.LineOfSet` | etcd-manager/pkg/hosts/hosts.go:153-170 | the line of an address depends on the set of its names only |
| `Hosts.ListingIsClean` | etcd-manager/pkg/hosts/hosts.go:152-171 | addresses that look like addresses, and names and key without line breaks, meet the condition of the theorems |
| `Hosts.Scan` | etcd-manager/pkg/hosts/hosts.go:101-136 | the loop keeps exactly the foreign lines, but for one blank line after an end guard |
| `Hosts.Render` | etcd-manager/pkg/hosts/hosts.go:153-170 | the address, and each name once, sorted and separated by spaces |
| `Hosts.RenderAll` | etcd-manager/pkg/hosts/hosts.go:152-171 | one line per address, sorted |
| `Hosts.AppendHost` | etcd-manager/pkg/hosts/hosts.go:77-80 | the host is added at exactly the given addresses |
| `Hosts.Provider.Merge` | etcd-manager/pkg/hosts/hosts.go:62-81 | an address has a host if and only if the primary table says so, or a fallback does and no primary names the host |
| `Hosts.Provider.Update` | etcd-manager/pkg/hosts/hosts.go:62-199 | an unreadable file stays as it is; on success the file is the rewriting of the old one with the listing of the merged table, and a file that is already that is not written; a readable file fails only after ten failed attempts |
| `Hosts.Provider.PseudoAtomicWrite` | etcd-manager/pkg/hosts/hosts.go:208-236 | success if and only if one of ten attempts was read back as written, whatever others wrote in between, and then at the first of them |
| `Hosts.Provider.AddFallbacks` | etcd-manager/pkg/hosts/hosts.go:48-53 | replaces the fallbacks and rewrites the file |
| `Hosts.Provider.UpdateHosts` | etcd-manager/pkg/hosts/hosts.go:55-60 | replaces the primary table and rewrites the file |
| `CopyTo.CopyAll` | etcd-manager/pkg/etcdclient/client.go:182-219 | terminates for every page limit; whatever fails, the keys put are the smallest ones, each once and ascending; without a failure all of them, and the destination is its old contents overridden by the source, if and only if the limit is not 1 or there is at most one key; it fails only if a page cannot be read or a put fails |
| `CopyTo.Copy` | etcd-manager/pkg/etcdclient/client.go:182-219 | with the limit in use a copy succeeds if every page can be read and no put fails, and then returns the number of keys and has put each once, in ascending order |
| `CopyTo.CopyPage` | etcd-manager/pkg/etcdclient/client.go:198-211 | one page is put but for the key the copy already has |
| `CopyTo.NextPage` | etcd-manager/pkg/etcdclient/client.go:190-194 | the next page starts with the last key of the one before |
| `ContentLock.RunKeepsExclusive` | etcd-manager/pkg/locking/fs.go:54-188 | over every sequence of acquires and releases, failures and releases by others included, as long as none of them takes the lock away, the file is exactly what the unreleased guard wrote, so there is at most one |
| `ContentLock.StepKeepsExclusive` | etcd-manager/pkg/locking/fs.go:54-188 | a step keeps this if and only if it is not a release by somebody else that gets through with the holder's own bytes |
| `ContentLock.RetriedReleaseTakesAway` | etcd-manager/pkg/locking/fs.go:150-188 | for any holder, the run of an acquire, a release whose close fails, an acquire by the same holder in the same second and the first release again takes the lock away from its holder |
| `ContentLock.WrittenIsHeld` | etcd-manager/pkg/locking/fs.go:58-96 | what Acquire writes is recognised as held, and names the holder and the time |
| `ContentLock.HolderIsSafe` | etcd-manager/pkg/locking/fs.go:75-97 | while a guard has the lock an Acquire changes nothing and returns no guard, and its Release does not find the file changed |
| `ContentLock.AnswersExactly` | etcd-manager/pkg/locking/fs.go:54-188 | a guard is handed out if and only if the lock was free and everything worked; what "not acquired", "released" and "changed" say about the file |
| `ContentLock.StrayReleaseIsHarmless` | etcd-manager/pkg/locking/fs.go:150-169 | a release by somebody else leaves the file alone if and only if it is not the same holder in the same second |
| `ContentLock.BytesTellInfoApart` | etcd-manager/pkg/locking/fs.go:58-68 | two locks have the same contents if and only if holder and second are the same |
| `ContentLock.FSContentLock.Acquire` | etcd-manager/pkg/locking/fs.go:54-148 | refines the acquire of the specification on every failure path |
| `ContentLock.FSContentLock.Release` | etcd-manager/pkg/locking/fs.go:150-188 | refines the release of the specification on every failure path |
| `GceUrl.RoundTrip` | etcd-manager/pkg/volumes/gce/gce_url.go:34-119 | for fields without slashes and a version that is parsed, parsing the printed URL returns the same record, an empty version as v1, if and only if the type is not projects, zones or global, the type regions included |
| `GceUrl.ParsedPrintsBack` | etcd-manager/pkg/volumes/gce/gce_url.go:34-119 | whatever is parsed, printing it gives a URL that is parsed the same way |
| `GceUrl.BuildURL` | etcd-manager/pkg/volumes/gce/gce_url.go:34-54 | the string built step by step is the slash-joined path |
| `GceUrl.ParseGoogleCloudURL` | etcd-manager/pkg/volumes/gce/gce_url.go:56-119 | the loop computes the parser of the round trip, errors included |

## Left out

- Concurrency inside one process: locks are held around each handler, so a handler is one step.
- gRPC, TLS, dialling, certificates, process launch, the file system and object stores: steps that succeed or fail.
- Cloud volume providers, mounting and discovery, and the etcdadm command line.
- UpdateEndpoints, DoBackup and DoRestore beyond their effect on the backup store and on cluster contents.
- Import of legacy state, adoption of etcd 2, and the dump sinks.
- Requests delivered after their sender gave up, and uniqueness of the leader under partition, which is not promised.
- Updating peer URLs and turning on TLS (reconcile_configuration.go), which would only add easy members.
- ControlPlane.Fencing: does not follow the controller that found the marker line by line; outside stopForUpgrade and the removal of a restored command it may send anything in any order, which covers what the code does.
- Recovery.RecoveryIsPossible: says that there is a way on, not that the controllers find it; timing and fairness are not modelled.
- UpgradeSafety.RunRestored: contents of clusters are a history; that a cluster lost its disk since is not modelled.
- Leadership.LeadershipOnlyMovesDown: does not cover runs in which a machine restarts after accepting an assertion with q peers and accepts another whose view lacks one of those peers. The claim can then be false, and when it is not is not said exactly.
- UpgradeSafety.RecoveryExactly: asks of a cleanup that it forgets no zero time, as no clock past the year 293 does.
- UpgradeSafety.CleanupExactly: the same.
- Retention.BackupCleanup.MaybeDoBackupMaintenance: when a zero time is forgotten, which other backups stay is not said.
- BackupName.ParseNameExactly: does not model fractions of a second, offsets or one-digit hours, which the Go parser also accepts and AddBackup never writes. The theorems of `Retention.dfy` hold for every parser.
- BackupName.FormatParse: the same.
- Hosts.Provider.Update: the sharing of slices between tables is not modelled.
- Hosts.UpdateKeepsOthers: a block reaches to the next recognised end guard, or to the end of the file for keys whose end guard is not recognised.
- CopyTo.CopyAll: the source does not change while it is copied, as during a restore.
- ContentLock.RunKeepsExclusive: an Acquire is one step, since its read and write are not exclusive; a failed close after a write ends the process and is not modelled.
- GceUrl.RoundTrip: fields with slashes are not covered.
