/**
 * A peer directory entry: identity, last known address, advertised unicast
 * port, readable name, last-alive time and heartbeat counter. The entry is
 * an object updated in place; its snapshot `PeerState` and the pure
 * functions over it state what construction and refreshing do.
 */
module Peers {
  import opened Messaging

  /** node_offline_timeout_s, in seconds. */
  const OfflineTimeout: real := 3.0

  /** The readable name a peer gets when its header carries none. */
  const DefaultReadableName: HVal := Str("Not specified")

  datatype PeerState = PeerState(
    uid: HVal,
    ip: HVal,
    port: HVal,
    readableName: HVal,
    lastAlive: real,
    heartbeatsReceived: nat)

  /** True when the type entry of an update's header is the heartbeat tag. */
  predicate IsHeartbeatType(header: Header)
  {
    TYPE in header && header[TYPE] == Str(HEARTBEAT)
  }

  /** A peer is online while less than the offline timeout has passed since it was last alive. */
  predicate Online(p: PeerState, now: real)
  {
    now - p.lastAlive < OfflineTimeout
  }

  /** The state `update(**header)` leaves at time `now`. */
  function Refreshed(p: PeerState, originIp: HVal, header: Header, now: real): (q: PeerState)
    ensures q.lastAlive == now && q.ip == originIp
    ensures q.uid == p.uid && q.port == p.port && q.readableName == p.readableName
    ensures IsHeartbeatType(header) ==> q.heartbeatsReceived == p.heartbeatsReceived + 1
    ensures !IsHeartbeatType(header) ==> q.heartbeatsReceived == p.heartbeatsReceived
  {
    p.(lastAlive := now, ip := originIp,
       heartbeatsReceived := if IsHeartbeatType(header) then p.heartbeatsReceived + 1 else p.heartbeatsReceived)
  }

  /** A peer is online at the very instant it was refreshed. */
  lemma OnlineAfterRefresh(p: PeerState, originIp: HVal, header: Header, now: real)
    ensures Online(Refreshed(p, originIp, header, now), now)
  {
  }

  /** Over any sequence of refreshes the heartbeat counter never decreases. */
  lemma {:induction false} HeartbeatsNeverDecrease(p: PeerState, updates: seq<(HVal, Header, real)>)
    ensures RefreshAll(p, updates).heartbeatsReceived >= p.heartbeatsReceived
    ensures RefreshAll(p, updates).uid == p.uid
    decreases |updates|
  {
    if updates != [] {
      HeartbeatsNeverDecrease(Refreshed(p, updates[0].0, updates[0].1, updates[0].2), updates[1..]);
    }
  }

  /** The state after a run of refreshes, in order. */
  function RefreshAll(p: PeerState, updates: seq<(HVal, Header, real)>): PeerState
    decreases |updates|
  {
    if updates == [] then p
    else RefreshAll(Refreshed(p, updates[0].0, updates[0].1, updates[0].2), updates[1..])
  }

  class Peer {
    var uid: HVal
    var ip: HVal
    var port: HVal
    var readableName: HVal
    var lastAlive: real
    var heartbeatsReceived: nat

    function State(): PeerState
      reads this
    {
      PeerState(uid, ip, port, readableName, lastAlive, heartbeatsReceived)
    }

    /** `Peer(uid, origin_ip, port, readable_name="Not specified")`, created at time `now`. */
    constructor (uid: HVal, originIp: HVal, port: HVal, readableName: HVal, now: real)
      ensures State() == PeerState(uid, originIp, port, readableName, now, 0)
    {
      this.uid := uid;
      this.ip := originIp;
      this.lastAlive := now;
      this.heartbeatsReceived := 0;
      this.port := port;
      this.readableName := readableName;
    }

    /** `Peer(**header)`: the keyword arguments are read from the header. */
    constructor FromHeader(header: Header, now: real)
      requires UID in header && ORIGIN_IP in header && UNICAST_PORT in header
      ensures State() == PeerState(header[UID], header[ORIGIN_IP], header[UNICAST_PORT],
                                   if READABLE_NAME in header then header[READABLE_NAME] else DefaultReadableName,
                                   now, 0)
      ensures Online(State(), now)
    {
      uid := header[UID];
      ip := header[ORIGIN_IP];
      lastAlive := now;
      heartbeatsReceived := 0;
      port := header[UNICAST_PORT];
      readableName := if READABLE_NAME in header then header[READABLE_NAME] else DefaultReadableName;
    }

    /** `update(origin_ip, **kwargs)` at time `now`. */
    method Update(originIp: HVal, header: Header, now: real)
      modifies this
      ensures State() == Refreshed(old(State()), originIp, header, now)
      ensures heartbeatsReceived >= old(heartbeatsReceived)
      ensures IsOnline(now)
    {
      lastAlive := now;
      if ip != originIp {
        ip := originIp;
      }
      if IsHeartbeatType(header) {
        heartbeatsReceived := heartbeatsReceived + 1;
      }
    }

    predicate IsOnline(now: real)
      reads this
    {
      Online(State(), now)
    }
  }
}
