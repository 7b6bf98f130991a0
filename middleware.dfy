/**
 * The middleware facade (`Middleware`, current revision): the peer table
 * that every multicast delivery refreshes, type-based routing of multicast
 * and unicast messages, leader lookup, the supervisor's "start an election?"
 * test and the heartbeat body.
 *
 * The facade builds its collaborators the way each of them expects to be
 * built. Messages the reliable multicast delivers reach `McastReceived`;
 * messages for the application go to the ghost logs `externalMcast` and
 * `externalUcast`.
 */
module Facade {
  import opened Messaging
  import Peers
  import Events
  import ReliableMulticast
  import LeaderElection

  /** Where a delivered multicast message goes. */
  datatype McastTarget =
    | ElectionHandler
    | CoordinatorHandler
    | DroppedAnswer       // an ANSWER must come by unicast; a multicast one is dropped
    | ExternalMcast
    | MissingType         // the dispatch reads the type entry directly and raises

  /** Where a received unicast message goes. */
  datatype UcastTarget = AnswerHandler | NackHandler | ExternalUcast

  function McastRoute(header: Header): (t: McastTarget)
    ensures t == MissingType <==> TYPE !in header
    ensures t == ElectionHandler <==> TYPE in header && header[TYPE] == Str(LEADER_ELECTION_MESSAGE)
    ensures t == CoordinatorHandler <==> TYPE in header && header[TYPE] == Str(LEADER_COORDINATOR_MESSAGE)
    ensures t == DroppedAnswer <==> TYPE in header && header[TYPE] == Str(LEADER_ANSWER_MESSAGE)
  {
    if TYPE !in header then MissingType
    else if header[TYPE] == Str(LEADER_ELECTION_MESSAGE) then ElectionHandler
    else if header[TYPE] == Str(LEADER_COORDINATOR_MESSAGE) then CoordinatorHandler
    else if header[TYPE] == Str(LEADER_ANSWER_MESSAGE) then DroppedAnswer
    else ExternalMcast
  }

  function UcastRoute(header: Header): (t: UcastTarget)
    ensures t == AnswerHandler <==> TYPE in header && header[TYPE] == Str(LEADER_ANSWER_MESSAGE)
    ensures t == NackHandler <==> TYPE in header && header[TYPE] == Str(NEGATIVE_ACK)
  {
    if TYPE in header && header[TYPE] == Str(LEADER_ANSWER_MESSAGE) then AnswerHandler
    else if TYPE in header && header[TYPE] == Str(NEGATIVE_ACK) then NackHandler
    else ExternalUcast
  }

  /**
   * Application traffic reaches the application: a message typed with any
   * tag other than the three election tags goes to the external multicast
   * callback, and one typed with any tag other than ANSWER and NEGATIVE_ACK
   * to the external unicast callback. Heartbeats in particular are both.
   */
  lemma {:induction false} ApplicationTrafficIsExternal(header: Header)
    requires TYPE in header && header[TYPE].Str?
    ensures header[TYPE].s !in {LEADER_ELECTION_MESSAGE, LEADER_COORDINATOR_MESSAGE, LEADER_ANSWER_MESSAGE} <==>
            McastRoute(header) == ExternalMcast
    ensures header[TYPE].s !in {LEADER_ANSWER_MESSAGE, NEGATIVE_ACK} <==> UcastRoute(header) == ExternalUcast
  {
  }

  /** A heartbeat message is routed to the application on both paths. */
  lemma {:induction false} HeartbeatRoutedExternally(header: Header)
    requires TYPE in header && header[TYPE] == Str(HEARTBEAT)
    ensures McastRoute(header) == ExternalMcast && UcastRoute(header) == ExternalUcast
  {
    TypeTagsDistinct();
    assert TypeTags()[0] == HEARTBEAT;
    ApplicationTrafficIsExternal(header);
  }

  /**
   * Where the ELECTION unicasts of a round end up. The sender merges its
   * default entries under the caller's type entry, and the unicast dispatch
   * hands every type but ANSWER and NEGATIVE_ACK to the application: each
   * ELECTION reaches the receiving node's application, never its election
   * handler.
   */
  lemma {:induction false} ElectionUnicastReachesApplication(sent: seq<Transmission>, defaults: Header)
    requires forall k :: 0 <= k < |sent| ==> sent[k].Unicast? && sent[k].custom == TypeHeader(LEADER_ELECTION_MESSAGE)
    ensures forall k :: 0 <= k < |sent| ==> UcastRoute(defaults + sent[k].custom) == ExternalUcast
  {
    TypeTagsDistinct();
    assert TypeTags()[1] == LEADER_ELECTION_MESSAGE && TypeTags()[2] == LEADER_ANSWER_MESSAGE;
    assert TypeTags()[4] == NEGATIVE_ACK;
    forall k | 0 <= k < |sent|
      ensures UcastRoute(defaults + sent[k].custom) == ExternalUcast
    {
      assert (defaults + sent[k].custom)[TYPE] == Str(LEADER_ELECTION_MESSAGE);
    }
  }

  /**
   * The first half of an election round, followed to the receivers: every
   * transmission `StartRound` makes is a unicast that the receiving node's
   * dispatch hands to its application.
   */
  method ElectionRoundReachesApplications(s: LeaderElection.LeaderSubsystem, peers: map<string, Peers.Peer>, defaults: Header)
    returns (ghost targets: seq<string>)
    modifies s
    ensures |s.sent| == |old(s.sent)| + |targets| && s.sent[..|old(s.sent)|] == old(s.sent)
    ensures forall k :: |old(s.sent)| <= k < |s.sent| ==>
      s.sent[k].Unicast? && UcastRoute(defaults + s.sent[k].custom) == ExternalUcast
  {
    ghost var before := |s.sent|;
    targets := s.StartRound(peers);
    ghost var round := s.sent[before..];
    forall k | 0 <= k < |round|
      ensures round[k].Unicast? && round[k].custom == TypeHeader(LEADER_ELECTION_MESSAGE)
    {
      assert k < |targets| && targets[k] in targets;
      assert round[k] == s.sent[before + k] ==
        Unicast(peers[targets[k]].ip, peers[targets[k]].port, NoBody, TypeHeader(LEADER_ELECTION_MESSAGE));
    }
    ElectionUnicastReachesApplication(round, defaults);
  }

  /** What the heartbeat-payload callback did on one tick. */
  datatype PayloadOutcome = NoCallback | Returned(body: Body) | Raised

  const ErrorBody: Body := Dict(map["body" := "error at cb function"])
  const NotSpecifiedBody: Body := Dict(map["body" := "not specified"])

  /**
   * The heartbeat body: the callback's result when it returns, a fixed
   * error body when it raises, and a fixed placeholder without a callback.
   */
  function HeartbeatBody(o: PayloadOutcome): (b: Body)
    ensures o.Returned? ==> b == o.body
    ensures o.Raised? ==> b == ErrorBody
    ensures o.NoCallback? ==> b == NotSpecifiedBody
  {
    match o
    case NoCallback => NotSpecifiedBody
    case Returned(body) => body
    case Raised => ErrorBody
  }

  /**
   * The two fallback bodies differ, so a receiver can tell a failing
   * callback from a missing one; a callback's own body is sent unaltered.
   */
  lemma {:induction false} HeartbeatFallbacksDistinct()
    ensures HeartbeatBody(Raised) != HeartbeatBody(NoCallback)
  {
    assert ErrorBody.entries["body"] != NotSpecifiedBody.entries["body"] by {
      assert ErrorBody.entries["body"][0] == 'e' && NotSpecifiedBody.entries["body"][0] == 'n';
    }
  }

  /**
   * A heartbeat, once the sender has merged in its default entries (which
   * never carry a type), makes the receiving peer count one more heartbeat.
   */
  lemma {:induction false} HeartbeatCounted(p: Peers.PeerState, defaults: Header, originIp: HVal, now: real)
    requires TYPE !in defaults
    ensures var header := TypeHeader(HEARTBEAT) + defaults;
      Peers.Refreshed(p, originIp, header, now).heartbeatsReceived == p.heartbeatsReceived + 1
  {
    var header := TypeHeader(HEARTBEAT) + defaults;
    assert header[TYPE] == Str(HEARTBEAT);
  }

  /**
   * The supervisor's test, on values: start a round when no leader id is
   * known, when the leader is not in the peer table, when it is offline, or
   * when an election was flagged as necessary.
   */
  predicate SupervisorStarts(leaderUid: string, peers: map<string, Peers.PeerState>, necessary: bool, now: real)
  {
    leaderUid == "" || leaderUid !in peers || !Peers.Online(peers[leaderUid], now) || necessary
  }

  /**
   * Accepting a COORDINATOR from a peer whose entry was refreshed at `now`
   * leaves the supervisor idle at `now`, whatever the rest of the table.
   */
  lemma {:induction false} SupervisorIdleAfterCoordinator(peers: map<string, Peers.PeerState>, p: Peers.PeerState, leaderUid: string, originIp: HVal, header: Header, now: real)
    requires leaderUid != ""
    ensures !SupervisorStarts(leaderUid, peers[leaderUid := Peers.Refreshed(p, originIp, header, now)], false, now)
  {
    Peers.OnlineAfterRefresh(p, originIp, header, now);
  }

  /** Once the offline timeout has passed since the leader was last heard, the supervisor starts a round. */
  lemma {:induction false} SupervisorStartsAfterTimeout(leaderUid: string, peers: map<string, Peers.PeerState>, necessary: bool, now: real)
    requires leaderUid in peers && now >= peers[leaderUid].lastAlive + Peers.OfflineTimeout
    ensures SupervisorStarts(leaderUid, peers, necessary, now)
  {
  }

  class Middleware {
    const uid: string
    const heartbeatRate: real
    const rMulticast: ReliableMulticast.RMulticast
    const eventEngine: Events.EventRegistry
    const leaderSubsystem: LeaderElection.LeaderSubsystem

    var peerList: map<string, Peers.Peer>

    ghost var externalMcast: seq<Message>
    ghost var externalUcast: seq<Message>

    /** Distinct ids have distinct entries, and the collaborators are wired to each other. */
    ghost predicate Valid()
      reads this, rMulticast, leaderSubsystem
    {
      && (forall a, b :: a in peerList && b in peerList && a != b ==> peerList[a] != peerList[b])
      && rMulticast.Valid()
      && leaderSubsystem.rMcast == rMulticast
      && leaderSubsystem.eventEngine == eventEngine
      && leaderSubsystem.ownUid == uid
    }

    /**
     * `Middleware(...)` with the node's id (drawn with `uuid4` by the
     * source). No heartbeat rate is refused: the error for a rate at or
     * above the offline timeout is built and never raised.
     */
    constructor (uid: string, timeOf: string -> nat, heartbeatRate: real)
      ensures Valid()
      ensures this.uid == uid && this.heartbeatRate == heartbeatRate
      ensures peerList == map[] && externalMcast == [] && externalUcast == []
      ensures fresh(rMulticast) && fresh(eventEngine) && fresh(leaderSubsystem)
      ensures leaderSubsystem.leaderUid == "" && leaderSubsystem.timeOf == timeOf
    {
      this.uid := uid;
      this.heartbeatRate := heartbeatRate;
      var r := new ReliableMulticast.RMulticast();
      var e := new Events.EventRegistry();
      rMulticast := r;
      eventEngine := e;
      leaderSubsystem := new LeaderElection.LeaderSubsystem(e, r, uid, timeOf);
      peerList := map[];
      externalMcast := [];
      externalUcast := [];
    }

    /** `is_uid_leader` */
    predicate IsUidLeader(u: string)
      reads leaderSubsystem
    {
      u == leaderSubsystem.leaderUid
    }

    /** `get_leader`: the leader's table entry, when there is one. */
    function GetLeader(): (r: Option<Peers.Peer>)
      reads this, leaderSubsystem
      ensures r.Some? <==> leaderSubsystem.leaderUid in peerList
      ensures r.Some? ==> r.value == peerList[leaderSubsystem.leaderUid] && IsUidLeader(leaderSubsystem.leaderUid)
    {
      if leaderSubsystem.leaderUid in peerList then Some(peerList[leaderSubsystem.leaderUid]) else None
    }

    /** The peer table as values. */
    function PeerStates(): (s: map<string, Peers.PeerState>)
      reads this, peerList.Values
      ensures s.Keys == peerList.Keys
      ensures forall u :: u in s ==> s[u] == peerList[u].State()
    {
      map u | u in peerList :: peerList[u].State()
    }

    /** The condition of `_t_leader_supervisor` at time `now`. */
    predicate ShouldStartElection(now: real)
      reads this, leaderSubsystem, peerList.Values
    {
      var leader := GetLeader();
      leaderSubsystem.leaderUid == "" || leader.None? || !leader.value.IsOnline(now)
      || leaderSubsystem.leaderElectionNecessary
    }

    /** The object-level test is the value-level one on the current table. */
    lemma ShouldStartElectionMatchesValues(now: real)
      ensures ShouldStartElection(now) ==
        SupervisorStarts(leaderSubsystem.leaderUid, PeerStates(), leaderSubsystem.leaderElectionNecessary, now)
    {
    }

    /**
     * The table after the first half of `cb_mcast_message_received`: the
     * sender's entry is new (built from the header) or the old object,
     * refreshed; every other entry is the same object in the same state.
     */
    twostate predicate PeerUpserted(m: Message, now: real)
      requires Stamped(m)
      reads this, peerList.Values
    {
      var p := SenderOf(m);
      && peerList.Keys == old(peerList).Keys + {p}
      && (p !in old(peerList) ==>
            && fresh(peerList[p])
            && peerList[p].State() == Peers.PeerState(m.header[UID], m.header[ORIGIN_IP], m.header[UNICAST_PORT],
                 if READABLE_NAME in m.header then m.header[READABLE_NAME] else Peers.DefaultReadableName, now, 0))
      && (p in old(peerList) ==>
            && peerList[p] == old(peerList)[p]
            && peerList[p].State() == Peers.Refreshed(old(peerList[p].State()), m.header[ORIGIN_IP], m.header, now))
      && (forall u :: u in old(peerList) && u != p ==>
            peerList[u] == old(peerList)[u] && peerList[u].State() == old(peerList[u].State()))
    }

    method UpsertPeer(m: Message, now: real)
      requires Stamped(m) && Valid()
      modifies this, peerList.Values
      ensures Valid()
      ensures PeerUpserted(m, now)
      ensures peerList[SenderOf(m)].IsOnline(now)
      ensures externalMcast == old(externalMcast) && externalUcast == old(externalUcast)
    {
      var p := SenderOf(m);
      if p !in peerList {
        var peer := new Peers.Peer.FromHeader(m.header, now);
        peerList := peerList[p := peer];
      } else {
        peerList[p].Update(m.header[ORIGIN_IP], m.header, now);
      }
    }

    /**
     * `cb_mcast_message_received`: refresh or create the sender's entry,
     * then route by type. The entries of all other peers are untouched.
     * A COORDINATOR from a node that does not lose against us leaves the
     * supervisor idle at the same instant: the sender was just refreshed.
     */
    method McastReceived(m: Message, now: real) returns (target: McastTarget)
      requires Stamped(m) && Valid()
      modifies this, peerList.Values, leaderSubsystem
      ensures Valid()
      ensures target == McastRoute(m.header)
      ensures PeerUpserted(m, now)
      ensures target == ExternalMcast ==> externalMcast == old(externalMcast) + [m]
      ensures target != ExternalMcast ==> externalMcast == old(externalMcast)
      ensures externalUcast == old(externalUcast)
      ensures target == CoordinatorHandler && !LeaderElection.OtherLoses(leaderSubsystem.timeOf, uid, SenderOf(m)) ==>
        (SenderOf(m) != "" ==> !ShouldStartElection(now))
      ensures target == ElectionHandler && LeaderElection.OtherLoses(leaderSubsystem.timeOf, uid, SenderOf(m)) ==>
        && leaderSubsystem.sent == old(leaderSubsystem.sent) +
             [Unicast(m.header[ORIGIN_IP], m.header[UNICAST_PORT], NoBody, TypeHeader(LEADER_ANSWER_MESSAGE))]
        && leaderSubsystem.leaderElectionNecessary
      ensures target == ElectionHandler && !LeaderElection.OtherLoses(leaderSubsystem.timeOf, uid, SenderOf(m)) ==>
        leaderSubsystem.sent == old(leaderSubsystem.sent)
        && leaderSubsystem.leaderElectionNecessary == old(leaderSubsystem.leaderElectionNecessary)
      ensures target == CoordinatorHandler && !LeaderElection.OtherLoses(leaderSubsystem.timeOf, uid, SenderOf(m)) ==>
        IsUidLeader(SenderOf(m)) && !leaderSubsystem.leaderElectionNecessary
      ensures target == CoordinatorHandler && !LeaderElection.OtherLoses(leaderSubsystem.timeOf, uid, SenderOf(m)) && SenderOf(m) != uid && old(leaderSubsystem.leaderUid) == uid ==>
        && leaderSubsystem.emitted == old(leaderSubsystem.emitted) + [LeaderElection.LOST_LEADER_STATUS]
        && leaderSubsystem.invocations == old(leaderSubsystem.invocations) +
             Events.HandlersOf(eventEngine.registered, LeaderElection.LOST_LEADER_STATUS)
      ensures target == CoordinatorHandler && LeaderElection.OtherLoses(leaderSubsystem.timeOf, uid, SenderOf(m)) ==>
        leaderSubsystem.leaderUid == old(leaderSubsystem.leaderUid) && leaderSubsystem.leaderElectionNecessary
      ensures !(target == CoordinatorHandler && !LeaderElection.OtherLoses(leaderSubsystem.timeOf, uid, SenderOf(m)) && SenderOf(m) != uid && old(leaderSubsystem.leaderUid) == uid) ==>
        leaderSubsystem.emitted == old(leaderSubsystem.emitted) && leaderSubsystem.invocations == old(leaderSubsystem.invocations)
      ensures target != CoordinatorHandler ==> leaderSubsystem.leaderUid == old(leaderSubsystem.leaderUid)
      ensures target != ElectionHandler ==> leaderSubsystem.sent == old(leaderSubsystem.sent)
      ensures target != CoordinatorHandler && target != ElectionHandler ==>
        leaderSubsystem.leaderElectionNecessary == old(leaderSubsystem.leaderElectionNecessary)
      ensures leaderSubsystem.receivedLeaderAnswerMessage == old(leaderSubsystem.receivedLeaderAnswerMessage)
    {
      UpsertPeer(m, now);
      target := DispatchMcast(m);
    }

    /** The second half of `cb_mcast_message_received`: route by type; the peer table is not touched. */
    method DispatchMcast(m: Message) returns (target: McastTarget)
      requires Stamped(m) && Valid()
      modifies this, leaderSubsystem
      ensures Valid()
      ensures target == McastRoute(m.header)
      ensures peerList == old(peerList)
      ensures target == ExternalMcast ==> externalMcast == old(externalMcast) + [m]
      ensures target != ExternalMcast ==> externalMcast == old(externalMcast)
      ensures externalUcast == old(externalUcast)
      ensures target == ElectionHandler && LeaderElection.OtherLoses(leaderSubsystem.timeOf, uid, SenderOf(m)) ==>
        && leaderSubsystem.sent == old(leaderSubsystem.sent) +
             [Unicast(m.header[ORIGIN_IP], m.header[UNICAST_PORT], NoBody, TypeHeader(LEADER_ANSWER_MESSAGE))]
        && leaderSubsystem.leaderElectionNecessary
      ensures target == ElectionHandler && !LeaderElection.OtherLoses(leaderSubsystem.timeOf, uid, SenderOf(m)) ==>
        leaderSubsystem.sent == old(leaderSubsystem.sent)
        && leaderSubsystem.leaderElectionNecessary == old(leaderSubsystem.leaderElectionNecessary)
      ensures target == CoordinatorHandler && !LeaderElection.OtherLoses(leaderSubsystem.timeOf, uid, SenderOf(m)) ==>
        IsUidLeader(SenderOf(m)) && !leaderSubsystem.leaderElectionNecessary
      ensures target == CoordinatorHandler && !LeaderElection.OtherLoses(leaderSubsystem.timeOf, uid, SenderOf(m)) && SenderOf(m) != uid && old(leaderSubsystem.leaderUid) == uid ==>
        && leaderSubsystem.emitted == old(leaderSubsystem.emitted) + [LeaderElection.LOST_LEADER_STATUS]
        && leaderSubsystem.invocations == old(leaderSubsystem.invocations) +
             Events.HandlersOf(eventEngine.registered, LeaderElection.LOST_LEADER_STATUS)
      ensures target == CoordinatorHandler && LeaderElection.OtherLoses(leaderSubsystem.timeOf, uid, SenderOf(m)) ==>
        leaderSubsystem.leaderUid == old(leaderSubsystem.leaderUid) && leaderSubsystem.leaderElectionNecessary
      ensures !(target == CoordinatorHandler && !LeaderElection.OtherLoses(leaderSubsystem.timeOf, uid, SenderOf(m)) && SenderOf(m) != uid && old(leaderSubsystem.leaderUid) == uid) ==>
        leaderSubsystem.emitted == old(leaderSubsystem.emitted) && leaderSubsystem.invocations == old(leaderSubsystem.invocations)
      ensures target != CoordinatorHandler ==> leaderSubsystem.leaderUid == old(leaderSubsystem.leaderUid)
      ensures target != ElectionHandler ==> leaderSubsystem.sent == old(leaderSubsystem.sent)
      ensures target != CoordinatorHandler && target != ElectionHandler ==>
        leaderSubsystem.leaderElectionNecessary == old(leaderSubsystem.leaderElectionNecessary)
      ensures leaderSubsystem.receivedLeaderAnswerMessage == old(leaderSubsystem.receivedLeaderAnswerMessage)
    {
      target := McastRoute(m.header);
      match target
      case ElectionHandler =>
        leaderSubsystem.LeaderElectionMessageReceived(m);
      case CoordinatorHandler =>
        leaderSubsystem.LeaderCoordinatorMessageReceived(m);
      case DroppedAnswer =>
      case ExternalMcast =>
        externalMcast := externalMcast + [m];
      case MissingType =>
    }

    /**
     * `cb_uncast_message_received`: an ANSWER goes to the election, a
     * NEGATIVE_ACK to the reliable multicast, everything else to the
     * application.
     */
    method UcastReceived(m: Message) returns (target: UcastTarget)
      requires Valid()
      modifies this, leaderSubsystem, rMulticast
      ensures Valid()
      ensures target == UcastRoute(m.header)
      ensures target == AnswerHandler ==> leaderSubsystem.receivedLeaderAnswerMessage
      ensures target != AnswerHandler ==>
        leaderSubsystem.receivedLeaderAnswerMessage == old(leaderSubsystem.receivedLeaderAnswerMessage)
      ensures target == NackHandler && m.body.SeqNo? && m.body.n in old(rMulticast.sentMessages) ==>
        var resend := old(rMulticast.sentMessages)[m.body.n].(acks := rMulticast.latestDeliveries);
        && rMulticast.sent == old(rMulticast.sent) + [Multicast(resend)]
        && rMulticast.sentMessages == old(rMulticast.sentMessages)[m.body.n := resend]
      ensures !(target == NackHandler && m.body.SeqNo? && m.body.n in old(rMulticast.sentMessages)) ==>
        rMulticast.sent == old(rMulticast.sent) && rMulticast.sentMessages == old(rMulticast.sentMessages)
      ensures rMulticast.sequenceNumber == old(rMulticast.sequenceNumber)
      ensures rMulticast.latestDeliveries == old(rMulticast.latestDeliveries)
      ensures rMulticast.holdBackQueue == old(rMulticast.holdBackQueue)
      ensures target == ExternalUcast ==> externalUcast == old(externalUcast) + [m]
      ensures target != ExternalUcast ==> externalUcast == old(externalUcast)
      ensures peerList == old(peerList) && externalMcast == old(externalMcast)
      ensures leaderSubsystem.leaderUid == old(leaderSubsystem.leaderUid)
      ensures leaderSubsystem.leaderElectionNecessary == old(leaderSubsystem.leaderElectionNecessary)
      ensures leaderSubsystem.sent == old(leaderSubsystem.sent)
      ensures leaderSubsystem.emitted == old(leaderSubsystem.emitted) && leaderSubsystem.invocations == old(leaderSubsystem.invocations)
      ensures rMulticast.delivered == old(rMulticast.delivered)
    {
      target := UcastRoute(m.header);
      match target
      case AnswerHandler =>
        leaderSubsystem.LeaderAnswerMessageReceived(m);
      case NackHandler =>
        rMulticast.ReceivedNegAck(m);
      case ExternalUcast =>
        externalUcast := externalUcast + [m];
    }

    /** One pass of `_t_heartbeat`: multicast a heartbeat with the chosen body. */
    method HeartbeatTick(o: PayloadOutcome)
      requires Valid()
      modifies rMulticast
      ensures Valid()
      ensures rMulticast.sequenceNumber == old(rMulticast.sequenceNumber) + 1
      ensures var heartbeat := Message(TypeHeader(HEARTBEAT), HeartbeatBody(o), rMulticast.sequenceNumber,
                                       old(rMulticast.latestDeliveries));
        && rMulticast.sent == old(rMulticast.sent) + [Multicast(heartbeat)]
        && rMulticast.sentMessages == old(rMulticast.sentMessages)[rMulticast.sequenceNumber := heartbeat]
      ensures rMulticast.latestDeliveries == old(rMulticast.latestDeliveries)
      ensures rMulticast.holdBackQueue == old(rMulticast.holdBackQueue)
      ensures rMulticast.delivered == old(rMulticast.delivered)
    {
      rMulticast.Send(NewMessage(TypeHeader(HEARTBEAT), HeartbeatBody(o)));
    }
  }
}
