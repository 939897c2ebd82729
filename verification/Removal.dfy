/** Which member removeNodeFromCluster picks, and the health record it relies on. */
module Removal {
  import opened Common
  import opened NodeModel
  import opened Network
  import opened Membership

  /** removeUnhealthyDeadline: one minute, in nanoseconds. */
  const Deadline := 60_000_000_000

  /** History: what one cycle of the current leadership term saw. */
  datatype Cycle = Cycle(now: int, members: set<string>, healthy: set<string>)

  datatype RemovalResult =
    | Waiting
    | NothingToRemove
    | BackupFailed
    | RemovalFailed(victim: string)
    | Removed(victim: string)
    | Fatal

  ghost predicate Ordered(term: seq<Cycle>) {
    && (forall i, j | 0 <= i < j < |term| :: term[i].now <= term[j].now)
    && (forall i | 0 <= i < |term| :: term[i].healthy <= term[i].members)
  }

  /** Cycle `i` saw the member healthy or was the first of the term to see it at all, and no later cycle of
    * the term has seen it healthy. */
  ghost predicate LastGood(term: seq<Cycle>, id: string, i: nat) {
    && i < |term| && id in term[i].members && (forall j | i < j < |term| :: id !in term[j].healthy)
    && (id in term[i].healthy || forall j | 0 <= j < i :: id !in term[j].members)
  }

  /** The record of every member seen in this term is the time of the cycle that was its last good one. */
  ghost predicate Records(peerState: map<string, int>, term: seq<Cycle>) {
    && (forall i, id | 0 <= i < |term| && id in term[i].members :: id in peerState)
    && (forall id | id in peerState :: exists i: nat :: LastGood(term, id, i) && peerState[id] == term[i].now)
  }

  /** The member has been tracked for at least the deadline and was not healthy in any cycle within it. */
  ghost predicate LongUnhealthy(term: seq<Cycle>, id: string, now: int) {
    && (exists i :: 0 <= i < |term| && id in term[i].members && term[i].now + Deadline <= now)
    && (forall j | 0 <= j < |term| && now < term[j].now + Deadline :: id !in term[j].healthy)
  }

  lemma RecordExtends(peerState: map<string, int>, term: seq<Cycle>, c: Cycle, id: string)
    requires Records(peerState, term) && id in peerState && id !in c.healthy
    ensures exists i: nat :: LastGood(term + [c], id, i) && peerState[id] == (term + [c])[i].now
  {
    var i: nat :| LastGood(term, id, i) && peerState[id] == term[i].now;
    assert LastGood(term + [c], id, i);
  }

  /** The test of the code is the condition on the whole term. */
  lemma OldRecordIsLongUnhealthy(peerState: map<string, int>, term: seq<Cycle>, id: string, now: int)
    requires Records(peerState, term) && Ordered(term) && id in peerState
    ensures now - peerState[id] >= Deadline <==> LongUnhealthy(term, id, now)
  {
    var i: nat :| LastGood(term, id, i) && peerState[id] == term[i].now;
    assert id in term[i].members;
  }

  lemma RemovalKeepsQuorum(state: ClusterState, victim: string)
    requires state.healthy <= state.members.Keys && victim in state.members
    requires victim in state.healthy ==> state.healthy == state.members.Keys
    ensures |state.members| >= 2 && |state.healthy| >= QuorumSize(|state.members|) ==>
              |state.healthy - {victim}| >= QuorumSize(|state.members - {victim}|)
  {
  }

  /** What the network saw of a removeNodeFromCluster: backups until one was taken, and then the removal. */
  ghost predicate IsRemoval(r: RemovalResult, state: ClusterState, header: Header, backups: seq<Exchange>,
                            t: seq<Exchange>) {
    match r
    case BackupFailed => BackupAttempts(backups, state, header, false) && t == []
    case RemovalFailed(victim) =>
      BackupAttempts(backups, state, header, true) && t == [Exchange(RemoveMember(victim), false)]
    case Removed(victim) =>
      BackupAttempts(backups, state, header, true) && t == [Exchange(RemoveMember(victim), true)]
    case _ => backups == [] && t == []
  }

  lemma RemovalIsOrdered(log: seq<Exchange>, r: RemovalResult, state: ClusterState, header: Header,
                         backups: seq<Exchange>, t: seq<Exchange>)
    requires IsRemoval(r, state, header, backups, t)
    ensures BackupComesFirst(log + backups + t, |log|, state, header)
  {
    if BackupAttempts(backups, state, header, true) {
      AttemptsComeFirst(log, backups, t, state, header);
    } else {
      assert forall i | 0 <= i < |backups| :: backups[i].action.DoBackup?;
    }
  }

  class EtcdController {
    /** The time each member was last known to be healthy. */
    var peerState: map<string, int>
    ghost var term: seq<Cycle>

    ghost predicate Valid()
      reads this
    {
      Records(peerState, term) && Ordered(term)
    }

    constructor ()
      ensures Valid() && term == []
    {
      peerState := map[];
      term := [];
    }

    /** A new leadership term forgets all records. */
    method NewTerm()
      modifies this
      ensures Valid() && term == []
    {
      peerState := map[];
      term := [];
    }

    /** The health bookkeeping of one cycle. */
    method Track(state: ClusterState, now: int)
      requires Valid() && state.healthy <= state.members.Keys
      requires forall c | c in term :: c.now <= now
      modifies this
      ensures Valid() && term == old(term) + [Cycle(now, state.members.Keys, state.healthy)]
      ensures state.members.Keys <= peerState.Keys
    {
      ghost var c := Cycle(now, state.members.Keys, state.healthy);
      ghost var term' := term + [c];
      var todo := state.members.Keys;
      ghost var before := peerState;
      while todo != {}
        invariant todo <= state.members.Keys && peerState.Keys == before.Keys + (state.members.Keys - todo)
        invariant term == old(term)
        invariant forall id | id in peerState ::
          peerState[id] ==
            if id in state.members && id !in todo && (id !in before || id in state.healthy) then now else before[id]
        decreases todo
      {
        var id :| id in todo;
        todo := todo - {id};
        if id !in peerState {
          peerState := peerState[id := now];
        }
        if id in state.healthy {
          peerState := peerState[id := now];
        }
      }
      forall id | id in peerState
        ensures exists i: nat :: LastGood(term', id, i) && peerState[id] == term'[i].now
      {
        if id in state.members && (id !in before || id in state.healthy) {
          assert LastGood(term', id, |term|);
        } else {
          RecordExtends(before, term, c, id);
        }
      }
      term := term';
    }

    /** There is no member at all, or only unhealthy ones may go and none of them has been so for long. */
    ghost predicate NobodyToRemove(state: ClusterState, removeHealthy: bool, now: int)
      reads this
    {
      if removeHealthy then state.members == map[]
      else forall id | id in state.members && id !in state.healthy :: !LongUnhealthy(term, id, now)
    }

    /** Choose the member to remove, for every order in which members may be visited. */
    method PickVictim(state: ClusterState, removeHealthy: bool, now: int) returns (fatal: bool, victim: Option<string>)
      requires Valid() && state.healthy <= state.members.Keys && state.members.Keys <= peerState.Keys
      ensures !fatal
      ensures victim.Some? ==> victim.value in state.members
      ensures victim.Some? && victim.value in state.healthy ==> removeHealthy && state.healthy == state.members.Keys
      ensures victim.Some? && !removeHealthy ==> LongUnhealthy(term, victim.value, now)
      ensures victim.None? ==> NobodyToRemove(state, removeHealthy, now)
    {
      victim := None;
      fatal := false;
      if |state.healthy| < |state.members| {
        var todo := state.members.Keys;
        while todo != {} && victim.None?
          invariant todo <= state.members.Keys
          invariant victim.Some? ==>
            && victim.value in state.members && victim.value !in state.healthy
            && (removeHealthy || now - peerState[victim.value] >= Deadline)
          invariant victim.None? ==> forall id | id in state.members && id !in todo && id !in state.healthy ::
            !removeHealthy && now - peerState[id] < Deadline
          decreases todo
        {
          var id :| id in todo;
          todo := todo - {id};
          if id !in state.healthy {
            if !removeHealthy {
              if id !in peerState {
                fatal := true;
                return;
              }
              var age := now - peerState[id];
              if age < Deadline {
                continue;
              }
            }
            victim := Some(id);
          }
        }
      }
      if victim.None? && !removeHealthy {
        AllHealthy(state);
        forall id | id in state.members && id !in state.healthy ensures !LongUnhealthy(term, id, now) {
          OldRecordIsLongUnhealthy(peerState, term, id, now);
        }
        return;
      }
      if victim.None? {
        AllHealthy(state);
        if id :| id in state.members {
          victim := Some(id);
        }
      }
      if !removeHealthy {
        OldRecordIsLongUnhealthy(peerState, term, victim.value, now);
      }
    }

    /** removeNodeFromCluster: pick, back up, remove from etcd. */
    method RemoveNode(net: Network, header: Header, state: ClusterState, removeHealthy: bool, now: int)
      returns (r: RemovalResult, ghost backups: seq<Exchange>, ghost t: seq<Exchange>)
      requires Valid() && net.Valid() && WellFormed(state, net.nodes) && state.members.Keys <= peerState.Keys
      modifies net
      ensures net.Valid() && AllQuiet(old(net.nodes), net.nodes) && r != Fatal
      ensures net.log == old(net.log) + backups + t && IsRemoval(r, state, header, backups, t)
      ensures BackupComesFirst(net.log, |old(net.log)|, state, header)
      ensures r == NothingToRemove <==> removeHealthy && NobodyToRemove(state, removeHealthy, now)
      ensures r == Waiting <==> !removeHealthy && NobodyToRemove(state, removeHealthy, now)
      ensures r.Removed? || r.RemovalFailed? ==>
        && r.victim in state.members
        && (r.victim in state.healthy ==> removeHealthy && state.healthy == state.members.Keys)
        && (!removeHealthy ==> LongUnhealthy(term, r.victim, now))
        && (|state.members| >= 2 && |state.healthy| >= QuorumSize(|state.members|) ==>
              |state.healthy - {r.victim}| >= QuorumSize(|state.members - {r.victim}|))
    {
      backups, t := [], [];
      var fatal, victim := PickVictim(state, removeHealthy, now);
      if fatal {
        return Fatal, backups, t;
      }
      if victim.None? {
        return if removeHealthy then NothingToRemove else Waiting, backups, t;
      }
      var ok;
      ok, backups := DoClusterBackup(net, header, state);
      if !ok {
        RemovalIsOrdered(old(net.log), BackupFailed, state, header, backups, t);
        return BackupFailed, backups, t;
      }
      RemovalKeepsQuorum(state, victim.value);
      var removed := net.Do(RemoveMember(victim.value));
      t := [Exchange(RemoveMember(victim.value), removed)];
      r := if removed then Removed(victim.value) else RemovalFailed(victim.value);
      RemovalIsOrdered(old(net.log), r, state, header, backups, t);
    }

    static lemma AllHealthy(state: ClusterState)
      requires state.healthy <= state.members.Keys
      ensures |state.healthy| <= |state.members|
      ensures |state.healthy| == |state.members| ==> state.healthy == state.members.Keys
    {
      SubsetSize(state.healthy, state.members.Keys);
      assert |state.members| == |state.members.Keys|;
    }
  }
}
