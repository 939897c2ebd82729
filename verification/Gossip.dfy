/** The peer table of one node and the leadership it last accepted. */
module Gossip {
  import opened Common

  datatype PeerInfo = PeerInfo(id: string, endpoints: seq<string>)

  /** A peer known from discovery alone has no `lastInfo`. */
  datatype Peer = Peer(lastInfo: Option<PeerInfo>, lastPing: int)

  /** The peers a leader counts as healthy, by id, and its token. */
  datatype View = View(healthy: map<string, PeerInfo>, leader: string, token: string)

  datatype Table = Table(peers: map<string, Peer>, leadership: Option<View>)

  datatype Response = Accepted | Rejected(healthy: map<string, PeerInfo>) | Invalid

  predicate IsHealthy(p: Peer, now: int, timeout: nat) {
    p.lastInfo.Some? && now - p.lastPing <= timeout
  }

  /** snapshotHealthy and Peers. */
  function Healthy(peers: map<string, Peer>, now: int, timeout: nat): map<string, PeerInfo> {
    map id | id in peers && IsHealthy(peers[id], now, timeout) :: peers[id].lastInfo.value
  }

  /** addPeersFromView: only ids that have no entry yet are added. */
  function Learn(peers: map<string, Peer>, infos: map<string, PeerInfo>, now: int): map<string, Peer> {
    map id | id in peers.Keys + infos.Keys :: if id in peers then peers[id] else Peer(Some(infos[id]), now)
  }

  /** LeaderNotification: adopt the view, then accept unless a healthy peer is missing from it. */
  function Notified(t: Table, v: View, now: int, timeout: nat): (Table, Response) {
    if v.healthy == map[] then (t, Invalid)
    else
      var peers := Learn(t.peers, v.healthy, now);
      if Healthy(peers, now, timeout).Keys <= v.healthy.Keys then (Table(peers, Some(v)), Accepted)
      else (t.(peers := peers), Rejected(Healthy(peers, now, timeout)))
  }

  /** updateFromPingRequest. */
  function Pinged(t: Table, info: PeerInfo, now: int): Table {
    if info.id == "" then t else t.(peers := t.peers[info.id := Peer(Some(info), now)])
  }

  /** updateFromDiscovery. */
  function Found(t: Table, id: string): Table {
    if id in t.peers then t else t.(peers := t.peers[id := Peer(None, 0)])
  }

  // ---------- who is counted ----------

  /** What a node hears: pings, views, and what discovery finds. */
  datatype Heard =
    | PingOf(info: PeerInfo, now: int)
    | Told(view: View, now: int)
    | Discovery(id: string)

  function Hear(t: Table, h: Heard, timeout: nat): Table {
    match h
    case PingOf(info, now) => Pinged(t, info, now)
    case Told(view, now) => Notified(t, view, now, timeout).0
    case Discovery(id) => Found(t, id)
  }

  /** The table of a node that started with nothing and then heard `heard`. */
  function Replay(heard: seq<Heard>, timeout: nat): Table {
    if heard == [] then Table(map[], None)
    else Hear(Replay(heard[..|heard| - 1], timeout), heard[|heard| - 1], timeout)
  }

  predicate IsPing(h: Heard, id: string) {
    h.PingOf? && h.info.id == id
  }

  predicate Mentions(h: Heard, id: string) {
    IsPing(h, id) || (h.Told? && id in h.view.healthy) || (h.Discovery? && h.id == id)
  }

  /** What says when the peer was last alive: its last ping or, if it never pinged, the view that was the first
    * to mention it. */
  ghost predicate IsLastSign(heard: seq<Heard>, id: string, i: nat) {
    && i < |heard| && (forall j | i < j < |heard| :: !IsPing(heard[j], id))
    && (IsPing(heard[i], id)
        || (heard[i].Told? && id in heard[i].view.healthy && forall j | 0 <= j < i :: !Mentions(heard[j], id)))
  }

  lemma {:induction false} MentionedIsKnown(heard: seq<Heard>, timeout: nat, id: string)
    requires id != ""
    ensures id in Replay(heard, timeout).peers <==> exists j :: 0 <= j < |heard| && Mentions(heard[j], id)
  {
    if heard != [] {
      var n := |heard| - 1;
      MentionedIsKnown(heard[..n], timeout, id);
      assert forall j | 0 <= j < n :: heard[..n][j] == heard[j];
      if Mentions(heard[n], id) {
        assert id in Replay(heard, timeout).peers;
      }
    }
  }

  /** One more sign, or none. */
  lemma SignGrows(heard: seq<Heard>, id: string, i: nat)
    requires heard != []
    ensures var n := |heard| - 1;
      IsLastSign(heard, id, i) <==>
        if i == n then IsPing(heard[n], id) || (heard[n].Told? && id in heard[n].view.healthy
                                                && forall j | 0 <= j < n :: !Mentions(heard[j], id))
        else IsLastSign(heard[..n], id, i) && !IsPing(heard[n], id)
  {
    var n := |heard| - 1;
    assert forall j | 0 <= j < n :: heard[..n][j] == heard[j];
  }

  function Entry(t: Table, id: string): Option<Peer> {
    if id in t.peers then Some(t.peers[id]) else None
  }

  /** What one more thing heard does to the entry of a peer. */
  lemma HeardEntry(t: Table, h: Heard, timeout: nat, id: string)
    requires id != ""
    ensures Entry(Hear(t, h, timeout), id) ==
      if IsPing(h, id) then Some(Peer(Some(h.info), h.now))
      else if id in t.peers then Entry(t, id)
      else if h.Told? && id in h.view.healthy then Some(Peer(Some(h.view.healthy[id]), h.now))
      else if h.Discovery? && h.id == id then Some(Peer(None, 0))
      else None
  {
  }

  /** The entry of a peer carries the time of its last sign of life, and no info if there was none. */
  ghost predicate EntryFits(entry: Option<Peer>, heard: seq<Heard>, id: string) {
    if entry.Some? && entry.value.lastInfo.Some?
    then exists i: nat :: IsLastSign(heard, id, i) && entry.value.lastPing == heard[i].now
    else forall i: nat :: !IsLastSign(heard, id, i)
  }

  lemma {:induction false} ReplayFits(heard: seq<Heard>, timeout: nat, id: string)
    requires id != ""
    ensures EntryFits(Entry(Replay(heard, timeout), id), heard, id)
  {
    if heard != [] {
      var n := |heard| - 1;
      ReplayFits(heard[..n], timeout, id);
      MentionedIsKnown(heard[..n], timeout, id);
      HeardEntry(Replay(heard[..n], timeout), heard[n], timeout, id);
      SignStep(Entry(Replay(heard[..n], timeout), id), heard[..n], heard, id);
    }
  }

  lemma SignStep(before: Option<Peer>, past: seq<Heard>, heard: seq<Heard>, id: string)
    requires heard != [] && past == heard[..|heard| - 1] && EntryFits(before, past, id)
    requires before.Some? <==> exists j :: 0 <= j < |past| && Mentions(past[j], id)
    ensures var h := heard[|heard| - 1];
      EntryFits(if IsPing(h, id) then Some(Peer(Some(h.info), h.now))
                else if before.Some? then before
                else if h.Told? && id in h.view.healthy then Some(Peer(Some(h.view.healthy[id]), h.now))
                else if h.Discovery? && h.id == id then Some(Peer(None, 0))
                else None, heard, id)
  {
    var n := |heard| - 1;
    var h := heard[n];
    assert forall j | 0 <= j < n :: past[j] == heard[j];
    if IsPing(h, id) || (before.None? && h.Told? && id in h.view.healthy) {
      SignGrows(heard, id, n);
      assert IsLastSign(heard, id, n);
    } else if before.Some? && before.value.lastInfo.Some? {
      var i: nat :| IsLastSign(past, id, i) && before.value.lastPing == past[i].now;
      SignGrows(heard, id, i);
      assert IsLastSign(heard, id, i);
    } else {
      forall i: nat ensures !IsLastSign(heard, id, i) {
        SignGrows(heard, id, i);
      }
    }
  }

  lemma SignIsUnique(heard: seq<Heard>, id: string, i: nat, k: nat)
    requires IsLastSign(heard, id, i) && IsLastSign(heard, id, k)
    ensures i == k
  {
  }

  /** Exactly who is counted: the peers whose last sign of life is not older than the timeout. */
  lemma CountedExactly(heard: seq<Heard>, timeout: nat, id: string, now: int)
    requires id != ""
    ensures id in Healthy(Replay(heard, timeout).peers, now, timeout) <==>
      exists i: nat :: IsLastSign(heard, id, i) && now - heard[i].now <= timeout
  {
    ReplayFits(heard, timeout, id);
    var entry := Entry(Replay(heard, timeout), id);
    if entry.Some? && entry.value.lastInfo.Some? {
      var i: nat :| IsLastSign(heard, id, i) && entry.value.lastPing == heard[i].now;
      forall k: nat | IsLastSign(heard, id, k) ensures k == i {
        SignIsUnique(heard, id, i, k);
      }
    }
  }

  /** Every entry, discovered or pinged, is known to be alive. */
  predicate Fresh(peers: map<string, Peer>, now: int, timeout: nat) {
    forall id | id in peers :: IsHealthy(peers[id], now, timeout)
  }

  /** A node whose entries are all fresh accepts a view exactly when the view names every peer it
    * knows, and from then on it knows exactly the peers of the view. */
  lemma AcceptanceMeansAgreement(t: Table, v: View, now: int, timeout: nat)
    requires Fresh(t.peers, now, timeout)
    ensures var (t', r) := Notified(t, v, now, timeout);
      && (r.Accepted? <==> v.healthy != map[] && t.peers.Keys <= v.healthy.Keys)
      && (r.Accepted? ==> t'.peers.Keys == v.healthy.Keys && t'.leadership == Some(v))
      && (!r.Accepted? ==> t'.leadership == t.leadership)
      && (r.Rejected? ==> r.healthy.Keys == t'.peers.Keys)
  {
  }

  /** Exactly when a view is accepted, and exactly when acceptance means agreement: when every peer of the
    * view that already has an entry is healthy, the node counts exactly the peers of the view. */
  lemma AgreementExactly(t: Table, v: View, now: int, timeout: nat)
    ensures var (t', r) := Notified(t, v, now, timeout);
      && (r.Accepted? <==> v.healthy != map[] && Healthy(t.peers, now, timeout).Keys <= v.healthy.Keys)
      && (r.Accepted? ==>
            (Healthy(t'.peers, now, timeout).Keys == v.healthy.Keys <==>
             forall id | id in v.healthy && id in t.peers :: IsHealthy(t.peers[id], now, timeout)))
  {
    var peers := Learn(t.peers, v.healthy, now);
    forall id ensures id in Healthy(peers, now, timeout) <==>
      id in Healthy(t.peers, now, timeout) || (id in v.healthy && id !in t.peers)
    {
    }
  }

  /** Without freshness agreement fails: an entry that discovery made and no ping has reached is
    * neither refreshed by an accepted view nor counted when the next view is judged. */
  lemma DiscoveryEntryIsNotAdopted(a: PeerInfo, b: PeerInfo, now: int, timeout: nat, token: string, token': string)
    requires a.id != b.id
    ensures
      var t := Table(map[a.id := Peer(None, 0), b.id := Peer(Some(b), now)], None);
      var (t1, r1) := Notified(t, View(map[a.id := a, b.id := b], a.id, token), now, timeout);
      var (t2, r2) := Notified(t1, View(map[b.id := b], b.id, token'), now, timeout);
      r1.Accepted? && a.id !in Healthy(t1.peers, now, timeout) && r2.Accepted? && t2.leadership.value.token == token'
  {
    var t := Table(map[a.id := Peer(None, 0), b.id := Peer(Some(b), now)], None);
    var v := View(map[a.id := a, b.id := b], a.id, token);
    var v' := View(map[b.id := b], b.id, token');
    assert b.id in v.healthy && b.id in v'.healthy;
    assert Learn(t.peers, v.healthy, now) == t.peers == Learn(t.peers, v'.healthy, now);
    assert Healthy(t.peers, now, timeout).Keys == {b.id};
  }

  /** The gossip server of one node. */
  class Server {
    const myInfo: PeerInfo
    const healthyTimeout: nat
    var peers: map<string, Peer>
    var leadership: Option<View>

    constructor (myInfo: PeerInfo, healthyTimeout: nat)
      ensures this.myInfo == myInfo && this.healthyTimeout == healthyTimeout
      ensures Contents() == Table(map[], None)
    {
      this.myInfo := myInfo;
      this.healthyTimeout := healthyTimeout;
      peers := map[];
      leadership := None;
    }

    ghost function Contents(): Table
      reads this
    {
      Table(peers, leadership)
    }

    method AddPeersFromView(infos: map<string, PeerInfo>, now: int)
      modifies this`peers
      ensures peers == Learn(old(peers), infos, now)
    {
      var todo := infos.Keys;
      while todo != {}
        invariant todo <= infos.Keys
        invariant peers.Keys == old(peers).Keys + (infos.Keys - todo)
        invariant forall id | id in peers :: peers[id] == Learn(old(peers), infos, now)[id]
        decreases todo
      {
        var id :| id in todo;
        todo := todo - {id};
        if id !in peers {
          peers := peers[id := Peer(Some(infos[id]), now)];
        }
      }
    }

    method SnapshotHealthy(now: int) returns (infos: map<string, PeerInfo>)
      ensures infos == Healthy(peers, now, healthyTimeout)
    {
      infos := map[];
      var todo := peers.Keys;
      while todo != {}
        invariant todo <= peers.Keys
        invariant infos == map id | id in peers && id !in todo && IsHealthy(peers[id], now, healthyTimeout) ::
          peers[id].lastInfo.value
        decreases todo
      {
        var id :| id in todo;
        todo := todo - {id};
        if IsHealthy(peers[id], now, healthyTimeout) {
          infos := infos[id := peers[id].lastInfo.value];
        }
      }
    }

    method LeaderNotification(view: View, now: int) returns (response: Response)
      modifies this
      ensures (Contents(), response) == Notified(old(Contents()), view, now, healthyTimeout)
    {
      if view.healthy == map[] {
        return Invalid;
      }
      AddPeersFromView(view.healthy, now);
      var reject := false;
      var todo := peers.Keys;
      while todo != {} && !reject
        invariant todo <= peers.Keys
        invariant !reject ==> forall id | id in peers && id !in todo && IsHealthy(peers[id], now, healthyTimeout) ::
          id in view.healthy
        invariant reject ==>
          exists id :: id in peers && IsHealthy(peers[id], now, healthyTimeout) && id !in view.healthy
        decreases todo
      {
        var id :| id in todo;
        todo := todo - {id};
        if id !in view.healthy && IsHealthy(peers[id], now, healthyTimeout) {
          reject := true;
        }
      }
      if reject {
        ghost var id :| id in peers && IsHealthy(peers[id], now, healthyTimeout) && id !in view.healthy;
        assert id in Healthy(peers, now, healthyTimeout).Keys;
        var healthy := SnapshotHealthy(now);
        return Rejected(healthy);
      }
      leadership := Some(view);
      return Accepted;
    }

    method UpdateFromDiscovery(id: string)
      modifies this`peers
      ensures Contents() == Found(old(Contents()), id)
    {
      if id !in peers {
        peers := peers[id := Peer(None, 0)];
      }
    }

    method UpdateFromPing(info: PeerInfo, now: int)
      modifies this`peers
      ensures Contents() == Pinged(old(Contents()), info, now)
    {
      if info.id == "" {
        return;
      }
      peers := peers[info.id := Peer(Some(info), now)];
    }

    predicate IsLeader(token: string)
      reads this
    {
      leadership.Some? && leadership.value.token == token
    }
  }
}
