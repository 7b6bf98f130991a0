/**
 * The older single-file revision (`node/communication.py`): its sender's
 * header precedence, its unicast routing, and its own variant of the
 * bully election, which compares whole UUIDs, multicasts its ELECTION,
 * ignores ELECTION messages from its own address and keeps an `isLeader`
 * flag.
 *
 * Its sender has no reliable layer: every transmission is a plain message
 * in the ghost log `sent`. The 128-bit value of a UUID is `uuidValue`, a
 * fixed function of the id.
 */
module Legacy {
  import opened Messaging
  import Events
  import Facade

  /** The multicast group and the unicast port every node of this revision uses. */
  const MCAST_GRP := "224.1.1.1"
  const UNCAST_PORT: int := 5008

  /** A transmission of this revision's sender. */
  datatype LegacyTransmission =
    | McastSent(msg: Message)
    | UcastSent(ip: HVal, port: int, msg: Message)

  /** `_generate_default_header`: the additional entries, then origin, destination and uid over them. */
  function DefaultHeader(additional: Header, ownIp: string, destinationIp: string, uid: string): (h: Header)
    ensures h.Keys == additional.Keys + {ORIGIN_IP, DESTINATION_IP, UID}
    ensures h[ORIGIN_IP] == Str(ownIp) && h[DESTINATION_IP] == Str(destinationIp) && h[UID] == Str(uid)
    ensures forall k :: k in additional && k != ORIGIN_IP && k != DESTINATION_IP && k != UID ==> h[k] == additional[k]
  {
    additional + map[ORIGIN_IP := Str(ownIp), DESTINATION_IP := Str(destinationIp), UID := Str(uid)]
  }

  /** A multicast header: the defaults win over the caller's entries. */
  function MulticastHeader(custom: Header, defaults: Header): (h: Header)
    ensures h.Keys == custom.Keys + defaults.Keys
    ensures forall k :: k in defaults ==> h[k] == defaults[k]
    ensures forall k :: k in custom && k !in defaults ==> h[k] == custom[k]
  {
    custom + defaults
  }

  /** A unicast header: the caller's entries win over the defaults. */
  function UnicastHeader(defaults: Header, custom: Header): (h: Header)
    ensures h.Keys == custom.Keys + defaults.Keys
    ensures forall k :: k in custom ==> h[k] == custom[k]
    ensures forall k :: k in defaults && k !in custom ==> h[k] == defaults[k]
  {
    defaults + custom
  }

  /** `send_message_multicast(body, custom)` of the node at `ownIp` with id `uid`. */
  function McastMessage(ownIp: string, uid: string, body: Body, custom: Header): Message
  {
    NewMessage(MulticastHeader(custom, DefaultHeader(map[], ownIp, MCAST_GRP, uid)), body)
  }

  /** `send_message_unicast(dest, body, custom)` of the node at `ownIp` with id `uid`. */
  function UcastMessage(ownIp: string, uid: string, destinationIp: string, body: Body, custom: Header): Message
  {
    NewMessage(UnicastHeader(DefaultHeader(map[], ownIp, destinationIp, uid), custom), body)
  }

  /**
   * Where the two merges part: on a key both sides carry with different
   * values, the multicast keeps the default and the unicast the caller's.
   */
  lemma {:induction false} PrecedenceOpposite(custom: Header, defaults: Header, k: string)
    requires k in custom && k in defaults && custom[k] != defaults[k]
    ensures MulticastHeader(custom, defaults)[k] == defaults[k]
    ensures UnicastHeader(defaults, custom)[k] == custom[k]
    ensures MulticastHeader(custom, defaults) != UnicastHeader(defaults, custom)
  {
    assert MulticastHeader(custom, defaults)[k] != UnicastHeader(defaults, custom)[k];
  }

  /**
   * A multicast always names its true sender, whatever entries the caller
   * adds, so a node recognises its own COORDINATOR when it comes back.
   */
  lemma {:induction false} MulticastSenderNotSpoofable(ownIp: string, uid: string, body: Body, custom: Header)
    ensures var m := McastMessage(ownIp, uid, body, custom);
      UID in m.header && m.header[UID] == Str(uid) && m.header[ORIGIN_IP] == Str(ownIp)
  {
    var d := DefaultHeader(map[], ownIp, MCAST_GRP, uid);
    assert UID in d && ORIGIN_IP in d;
  }

  /** A unicast carries whatever uid the caller's entries put in, over the sender's own. */
  lemma {:induction false} UnicastSenderOverridable(ownIp: string, uid: string, destinationIp: string, body: Body, other: string)
    ensures UcastMessage(ownIp, uid, destinationIp, body, map[UID := Str(other)]).header[UID] == Str(other)
  {
  }

  /** The message header entries this revision's receive paths read: uid and origin, both strings. */
  predicate LegacyStamped(m: Message)
  {
    UID in m.header && m.header[UID].Str? && ORIGIN_IP in m.header && m.header[ORIGIN_IP].Str?
  }

  /** This revision's tie-break: the other node loses when our UUID is the smaller 128-bit value. */
  predicate OldOtherLoses(uuidValue: string -> nat, ownUid: string, otherUid: string)
  {
    uuidValue(ownUid) < uuidValue(otherUid)
  }

  lemma OldOtherLosesIrreflexive(uuidValue: string -> nat, u: string)
    ensures !OldOtherLoses(uuidValue, u, u)
  {
  }

  /** Two ids with different UUID values: exactly one loses against the other. */
  lemma OldTieBreakExactlyOne(uuidValue: string -> nat, a: string, b: string)
    requires uuidValue(a) != uuidValue(b)
    ensures OldOtherLoses(uuidValue, a, b) != OldOtherLoses(uuidValue, b, a)
  {
  }

  /** Where this revision's unicast handler sends a message. */
  datatype LegacyUcastTarget = LegacyAnswerHandler | LegacyExternal

  function LegacyUcastRoute(header: Header): (t: LegacyUcastTarget)
    ensures t == LegacyAnswerHandler <==> TYPE in header && header[TYPE] == Str(LEADER_ANSWER_MESSAGE)
  {
    if TYPE in header && header[TYPE] == Str(LEADER_ANSWER_MESSAGE) then LegacyAnswerHandler else LegacyExternal
  }

  /**
   * The two revisions route unicasts alike except for NEGATIVE_ACK, which
   * the older one has no handler for and hands to the application.
   */
  lemma {:induction false} UcastRoutesAgree(header: Header)
    ensures (LegacyUcastRoute(header) == LegacyAnswerHandler) <==> (Facade.UcastRoute(header) == Facade.AnswerHandler)
    ensures !(TYPE in header && header[TYPE] == Str(NEGATIVE_ACK)) ==>
      ((LegacyUcastRoute(header) == LegacyExternal) <==> (Facade.UcastRoute(header) == Facade.ExternalUcast))
    ensures TYPE in header && header[TYPE] == Str(NEGATIVE_ACK) ==>
      LegacyUcastRoute(header) == LegacyExternal && Facade.UcastRoute(header) == Facade.NackHandler
  {
    TypeTagsDistinct();
    assert TypeTags()[2] == LEADER_ANSWER_MESSAGE && TypeTags()[4] == NEGATIVE_ACK;
  }

  /** This revision's heartbeat: the same body choice, sent straight through the plain sender. */
  function HeartbeatMessage(ownIp: string, uid: string, o: Facade.PayloadOutcome): (m: Message)
    ensures m.body == Facade.HeartbeatBody(o)
    ensures TYPE in m.header && UID in m.header
    ensures m.header[TYPE] == Str(HEARTBEAT) && m.header[UID] == Str(uid)
  {
    McastMessage(ownIp, uid, Facade.HeartbeatBody(o), TypeHeader(HEARTBEAT))
  }

  class LegacyLeaderSubsystem {
    const ownUid: string
    const ownIp: string
    const uuidValue: string -> nat
    const globalEvents: Events.EventRegistry

    var isLeader: bool
    var receivedLeaderAnswerMessage: bool
    var leaderUid: string
    var leaderElectionNeccessary: bool
    var lostAnElection: bool

    ghost var sent: seq<LegacyTransmission>
    ghost var emitted: seq<string>
    ghost var invocations: seq<Events.HandlerId>
    ghost var leaderFoundCalls: nat

    constructor (globalEvents: Events.EventRegistry, ownUid: string, ownIp: string, uuidValue: string -> nat)
      ensures this.ownUid == ownUid && this.ownIp == ownIp && this.uuidValue == uuidValue
      ensures this.globalEvents == globalEvents
      ensures !isLeader && !receivedLeaderAnswerMessage && leaderUid == ""
      ensures !leaderElectionNeccessary && !lostAnElection
      ensures sent == [] && emitted == [] && invocations == [] && leaderFoundCalls == 0
    {
      this.ownUid := ownUid;
      this.ownIp := ownIp;
      this.uuidValue := uuidValue;
      this.globalEvents := globalEvents;
      isLeader := false;
      receivedLeaderAnswerMessage := false;
      leaderUid := "";
      leaderElectionNeccessary := false;
      lostAnElection := false;
      sent := [];
      emitted := [];
      invocations := [];
      leaderFoundCalls := 0;
    }

    /** `_reset_leader_state`: all five fields back to their initial values. */
    method ResetLeaderState()
      modifies this
      ensures !isLeader && leaderUid == "" && !receivedLeaderAnswerMessage
      ensures !lostAnElection && !leaderElectionNeccessary
      ensures sent == old(sent) && emitted == old(emitted) && invocations == old(invocations)
      ensures leaderFoundCalls == old(leaderFoundCalls)
    {
      isLeader := false;
      leaderUid := "";
      receivedLeaderAnswerMessage := false;
      lostAnElection := false;
      leaderElectionNeccessary := false;
    }

    /** `_broadcast_election_message`: one ELECTION multicast to the whole group. */
    method BroadcastElectionMessage()
      modifies this
      ensures sent == old(sent) + [McastSent(McastMessage(ownIp, ownUid, NoBody, TypeHeader(LEADER_ELECTION_MESSAGE)))]
      ensures isLeader == old(isLeader) && leaderUid == old(leaderUid)
      ensures receivedLeaderAnswerMessage == old(receivedLeaderAnswerMessage)
      ensures lostAnElection == old(lostAnElection) && leaderElectionNeccessary == old(leaderElectionNeccessary)
      ensures emitted == old(emitted) && invocations == old(invocations) && leaderFoundCalls == old(leaderFoundCalls)
    {
      sent := sent + [McastSent(McastMessage(ownIp, ownUid, NoBody, TypeHeader(LEADER_ELECTION_MESSAGE)))];
    }

    /**
     * `leader_election_message_received_handler`: an ELECTION from our own
     * address changes nothing; one from a loser is answered by unicast at
     * its address; one from a winner marks the election as lost.
     */
    method LeaderElectionMessageReceived(m: Message)
      requires LegacyStamped(m)
      modifies this
      ensures m.header[ORIGIN_IP] == Str(ownIp) ==>
        sent == old(sent) && lostAnElection == old(lostAnElection)
      ensures m.header[ORIGIN_IP] != Str(ownIp) && OldOtherLoses(uuidValue, ownUid, m.header[UID].s) ==>
        sent == old(sent) + [UcastSent(m.header[ORIGIN_IP], UNCAST_PORT,
          UcastMessage(ownIp, ownUid, m.header[ORIGIN_IP].s, NoBody, TypeHeader(LEADER_ANSWER_MESSAGE)))]
        && lostAnElection == old(lostAnElection)
      ensures m.header[ORIGIN_IP] != Str(ownIp) && !OldOtherLoses(uuidValue, ownUid, m.header[UID].s) ==>
        sent == old(sent) && lostAnElection
      ensures isLeader == old(isLeader) && leaderUid == old(leaderUid)
      ensures receivedLeaderAnswerMessage == old(receivedLeaderAnswerMessage)
      ensures leaderElectionNeccessary == old(leaderElectionNeccessary)
      ensures emitted == old(emitted) && invocations == old(invocations) && leaderFoundCalls == old(leaderFoundCalls)
    {
      if m.header[ORIGIN_IP] == Str(ownIp) {
        return;
      }
      var otherUid := m.header[UID].s;
      var otherIp := m.header[ORIGIN_IP];
      if OldOtherLoses(uuidValue, ownUid, otherUid) {
        sent := sent + [UcastSent(otherIp, UNCAST_PORT,
          UcastMessage(ownIp, ownUid, otherIp.s, NoBody, TypeHeader(LEADER_ANSWER_MESSAGE)))];
      } else {
        lostAnElection := true;
      }
    }

    /** `leader_answer_message_received_handler` */
    method LeaderAnswerMessageReceived(m: Message)
      modifies this
      ensures receivedLeaderAnswerMessage
      ensures isLeader == old(isLeader) && leaderUid == old(leaderUid)
      ensures lostAnElection == old(lostAnElection) && leaderElectionNeccessary == old(leaderElectionNeccessary)
      ensures sent == old(sent) && emitted == old(emitted) && invocations == old(invocations)
      ensures leaderFoundCalls == old(leaderFoundCalls)
    {
      receivedLeaderAnswerMessage := true;
    }

    /**
     * `leader_coordinator_message_received_handler`: our own COORDINATOR
     * makes us leader and emits SELF_ELECTED_AS_LEADER on the global
     * registry; a winner's makes it leader and calls the leader-found
     * callback; a loser's flags a new election.
     */
    method LeaderCoordinatorMessageReceived(m: Message)
      requires LegacyStamped(m)
      modifies this
      ensures var other := m.header[UID].s;
        && (other == ownUid ==>
              && isLeader && leaderUid == ownUid
              && emitted == old(emitted) + [Events.SELF_ELECTED_AS_LEADER]
              && invocations == old(invocations) + Events.HandlersOf(globalEvents.registered, Events.SELF_ELECTED_AS_LEADER)
              && leaderFoundCalls == old(leaderFoundCalls)
              && leaderElectionNeccessary == old(leaderElectionNeccessary))
        && (other != ownUid && !OldOtherLoses(uuidValue, ownUid, other) ==>
              && !isLeader && leaderUid == other
              && leaderFoundCalls == old(leaderFoundCalls) + 1
              && emitted == old(emitted) && invocations == old(invocations)
              && leaderElectionNeccessary == old(leaderElectionNeccessary))
        && (other != ownUid && OldOtherLoses(uuidValue, ownUid, other) ==>
              && isLeader == old(isLeader) && leaderUid == old(leaderUid)
              && leaderElectionNeccessary
              && leaderFoundCalls == old(leaderFoundCalls)
              && emitted == old(emitted) && invocations == old(invocations))
      ensures sent == old(sent) && lostAnElection == old(lostAnElection)
      ensures receivedLeaderAnswerMessage == old(receivedLeaderAnswerMessage)
    {
      var otherUid := m.header[UID].s;
      if otherUid == ownUid {
        isLeader := true;
        leaderUid := ownUid;
        var invoked := globalEvents.EmitEvent(Events.SELF_ELECTED_AS_LEADER);
        emitted := emitted + [Events.SELF_ELECTED_AS_LEADER];
        invocations := invocations + invoked;
      } else if !OldOtherLoses(uuidValue, ownUid, otherUid) {
        leaderUid := otherUid;
        isLeader := false;
        leaderFoundCalls := leaderFoundCalls + 1;
      } else {
        leaderElectionNeccessary := true;
      }
    }

    /** The first half of `leader_election_alg`: reset, then multicast ELECTION. */
    method StartRound()
      modifies this
      ensures !isLeader && leaderUid == "" && !receivedLeaderAnswerMessage
      ensures !lostAnElection && !leaderElectionNeccessary
      ensures sent == old(sent) + [McastSent(McastMessage(ownIp, ownUid, NoBody, TypeHeader(LEADER_ELECTION_MESSAGE)))]
      ensures emitted == old(emitted) && invocations == old(invocations) && leaderFoundCalls == old(leaderFoundCalls)
    {
      ResetLeaderState();
      BroadcastElectionMessage();
    }

    /**
     * The second half of `leader_election_alg`: multicast COORDINATOR
     * unless an ANSWER arrived or an election was lost during the wait;
     * either way no further election is flagged afterwards.
     */
    method EndRound()
      modifies this
      ensures !(old(receivedLeaderAnswerMessage) || old(lostAnElection)) ==>
        sent == old(sent) + [McastSent(McastMessage(ownIp, ownUid, NoBody, TypeHeader(LEADER_COORDINATOR_MESSAGE)))]
      ensures old(receivedLeaderAnswerMessage) || old(lostAnElection) ==> sent == old(sent)
      ensures !leaderElectionNeccessary
      ensures isLeader == old(isLeader) && leaderUid == old(leaderUid)
      ensures receivedLeaderAnswerMessage == old(receivedLeaderAnswerMessage) && lostAnElection == old(lostAnElection)
      ensures emitted == old(emitted) && invocations == old(invocations) && leaderFoundCalls == old(leaderFoundCalls)
    {
      if !(receivedLeaderAnswerMessage || lostAnElection) {
        sent := sent + [McastSent(McastMessage(ownIp, ownUid, NoBody, TypeHeader(LEADER_COORDINATOR_MESSAGE)))];
      }
      leaderElectionNeccessary := false;
    }
  }

  /**
   * A node that sent COORDINATOR and receives it back becomes leader: the
   * message carries its own id, so the handler takes its first branch.
   */
  method OwnCoordinatorMakesLeader(s: LegacyLeaderSubsystem)
    modifies s
    ensures s.isLeader && s.leaderUid == s.ownUid
    ensures s.emitted == old(s.emitted) + [Events.SELF_ELECTED_AS_LEADER]
  {
    var m := McastMessage(s.ownIp, s.ownUid, NoBody, TypeHeader(LEADER_COORDINATOR_MESSAGE));
    MulticastSenderNotSpoofable(s.ownIp, s.ownUid, NoBody, TypeHeader(LEADER_COORDINATOR_MESSAGE));
    s.LeaderCoordinatorMessageReceived(m);
  }

  /** A node never answers or yields to its own ELECTION multicast: it comes from its own address. */
  method OwnElectionIgnored(s: LegacyLeaderSubsystem)
    modifies s
    ensures s.sent == old(s.sent) && s.lostAnElection == old(s.lostAnElection)
    ensures s.isLeader == old(s.isLeader) && s.leaderUid == old(s.leaderUid)
  {
    var m := McastMessage(s.ownIp, s.ownUid, NoBody, TypeHeader(LEADER_ELECTION_MESSAGE));
    MulticastSenderNotSpoofable(s.ownIp, s.ownUid, NoBody, TypeHeader(LEADER_ELECTION_MESSAGE));
    s.LeaderElectionMessageReceived(m);
  }
}
