/**
 * Bully-style leader election (`LeaderSubsystem`, current revision).
 *
 * Identities are UUID strings. The tie-break compares their time fields and
 * falls back to string order on a tie; the time field is `timeOf`, a fixed
 * function of the id that the model leaves uninterpreted. The round that the
 * source runs with a sleep in the middle is split into `StartRound` (before
 * the wait) and `EndRound` (after it). Unicasts through the IP sender go to
 * the ghost log `sent`; emitted events go to `emitted`, and the handlers
 * they invoke to `invocations`.
 */
module LeaderElection {
  import opened Messaging
  import opened Lexicographic
  import ReliableMulticast
  import Peers
  import Events

  /** The event name the coordinator handler emits when this node is superseded. */
  const LOST_LEADER_STATUS := "LOST_LEADER_STATUS"

  /**
   * `_other_looses_election`: the other node loses when its time field is
   * later than ours, or, on equal time fields, when our id is the smaller
   * string.
   */
  predicate OtherLoses(timeOf: string -> nat, ownUid: string, otherUid: string)
  {
    if timeOf(otherUid) == timeOf(ownUid) then StrLess(ownUid, otherUid)
    else timeOf(ownUid) < timeOf(otherUid)
  }

  /** A node never considers itself the loser against its own id. */
  lemma {:induction false} OtherLosesIrreflexive(timeOf: string -> nat, u: string)
    ensures !OtherLoses(timeOf, u, u)
  {
    StrLessIrreflexive(u);
  }

  /** For two distinct ids exactly one loses against the other. */
  lemma {:induction false} TieBreakExactlyOne(timeOf: string -> nat, a: string, b: string)
    requires a != b
    ensures OtherLoses(timeOf, a, b) != OtherLoses(timeOf, b, a)
  {
    if timeOf(a) == timeOf(b) {
      StrLessConnected(a, b);
    }
  }

  /** Losing is transitive, so the tie-break is a strict total order on ids. */
  lemma {:induction false} TieBreakTransitive(timeOf: string -> nat, a: string, b: string, c: string)
    requires OtherLoses(timeOf, a, b) && OtherLoses(timeOf, b, c)
    ensures OtherLoses(timeOf, a, c)
  {
    if timeOf(a) == timeOf(b) && timeOf(b) == timeOf(c) {
      StrLessTransitive(a, b, c);
    }
  }

  /** The peers an election message goes to: every other peer that does not lose against us. */
  function ElectionTargets(timeOf: string -> nat, ownUid: string, peers: set<string>): (t: set<string>)
    ensures forall u :: u in t <==> u in peers && u != ownUid && !OtherLoses(timeOf, ownUid, u)
  {
    set u | u in peers && !OtherLoses(timeOf, ownUid, u) && u != ownUid
  }

  class LeaderSubsystem {
    const ownUid: string
    const timeOf: string -> nat
    const rMcast: ReliableMulticast.RMulticast
    const eventEngine: Events.EventRegistry

    var leaderUid: string
    var receivedLeaderAnswerMessage: bool
    var leaderElectionNecessary: bool

    ghost var sent: seq<Transmission>
    ghost var emitted: seq<string>
    ghost var invocations: seq<Events.HandlerId>

    constructor (eventEngine: Events.EventRegistry, rMcast: ReliableMulticast.RMulticast, ownUid: string, timeOf: string -> nat)
      ensures this.ownUid == ownUid && this.timeOf == timeOf
      ensures this.rMcast == rMcast && this.eventEngine == eventEngine
      ensures leaderUid == "" && !receivedLeaderAnswerMessage && !leaderElectionNecessary
      ensures sent == [] && emitted == [] && invocations == []
    {
      this.ownUid := ownUid;
      this.timeOf := timeOf;
      this.rMcast := rMcast;
      this.eventEngine := eventEngine;
      leaderUid := "";
      receivedLeaderAnswerMessage := false;
      leaderElectionNecessary := false;
      sent := [];
      emitted := [];
      invocations := [];
    }

    /** `emit_event`: the registry invokes the type's handlers in order. */
    method Emit(eventType: string)
      modifies this
      ensures emitted == old(emitted) + [eventType]
      ensures invocations == old(invocations) + Events.HandlersOf(eventEngine.registered, eventType)
      ensures sent == old(sent) && leaderUid == old(leaderUid)
      ensures receivedLeaderAnswerMessage == old(receivedLeaderAnswerMessage)
      ensures leaderElectionNecessary == old(leaderElectionNecessary)
    {
      var invoked := eventEngine.EmitEvent(eventType);
      emitted := emitted + [eventType];
      invocations := invocations + invoked;
    }

    /**
     * `_broadcast_election_message`: one ELECTION unicast to the address and
     * port of each peer that does not lose against us and is not us. The
     * source visits the peer table in its insertion order; `targets` is the
     * order of this run, each such peer once.
     */
    method BroadcastElectionMessage(peers: map<string, Peers.Peer>) returns (ghost targets: seq<string>)
      modifies this
      ensures PairwiseDistinct(targets)
      ensures forall u :: u in targets <==> u in ElectionTargets(timeOf, ownUid, peers.Keys)
      ensures |sent| == |old(sent)| + |targets| && sent[..|old(sent)|] == old(sent)
      ensures forall k :: 0 <= k < |targets| ==>
        sent[|old(sent)| + k] == Unicast(peers[targets[k]].ip, peers[targets[k]].port, NoBody, TypeHeader(LEADER_ELECTION_MESSAGE))
      ensures leaderUid == old(leaderUid) && emitted == old(emitted) && invocations == old(invocations)
      ensures receivedLeaderAnswerMessage == old(receivedLeaderAnswerMessage)
      ensures leaderElectionNecessary == old(leaderElectionNecessary)
    {
      targets := [];
      var remaining := peers.Keys;
      while remaining != {}
        invariant remaining <= peers.Keys
        invariant forall k :: 0 <= k < |targets| ==> targets[k] in peers.Keys - remaining
        invariant PairwiseDistinct(targets)
        invariant forall u :: u in targets <==> u in ElectionTargets(timeOf, ownUid, peers.Keys - remaining)
        invariant |sent| == |old(sent)| + |targets| && sent[..|old(sent)|] == old(sent)
        invariant forall k :: 0 <= k < |targets| ==>
          sent[|old(sent)| + k] == Unicast(peers[targets[k]].ip, peers[targets[k]].port, NoBody, TypeHeader(LEADER_ELECTION_MESSAGE))
        invariant leaderUid == old(leaderUid) && emitted == old(emitted) && invocations == old(invocations)
        invariant receivedLeaderAnswerMessage == old(receivedLeaderAnswerMessage)
        invariant leaderElectionNecessary == old(leaderElectionNecessary)
        decreases remaining
      {
        var u :| u in remaining;
        remaining := remaining - {u};
        if !OtherLoses(timeOf, ownUid, u) && u != ownUid {
          sent := sent + [Unicast(peers[u].ip, peers[u].port, NoBody, TypeHeader(LEADER_ELECTION_MESSAGE))];
          targets := targets + [u];
        }
      }
    }

    /**
     * `leader_election_message_received_handler`: an ELECTION from a node
     * that loses against us is answered at its origin address and port, and
     * a fresh election becomes necessary; one from a winner changes nothing.
     */
    method LeaderElectionMessageReceived(m: Message)
      requires Stamped(m)
      modifies this
      ensures OtherLoses(timeOf, ownUid, SenderOf(m)) ==>
        && sent == old(sent) + [Unicast(m.header[ORIGIN_IP], m.header[UNICAST_PORT], NoBody, TypeHeader(LEADER_ANSWER_MESSAGE))]
        && leaderElectionNecessary
      ensures !OtherLoses(timeOf, ownUid, SenderOf(m)) ==>
        sent == old(sent) && leaderElectionNecessary == old(leaderElectionNecessary)
      ensures leaderUid == old(leaderUid) && receivedLeaderAnswerMessage == old(receivedLeaderAnswerMessage)
      ensures emitted == old(emitted) && invocations == old(invocations)
    {
      if OtherLoses(timeOf, ownUid, SenderOf(m)) {
        sent := sent + [Unicast(m.header[ORIGIN_IP], m.header[UNICAST_PORT], NoBody, TypeHeader(LEADER_ANSWER_MESSAGE))];
        leaderElectionNecessary := true;
      }
    }

    /** `leader_answer_message_received_handler`: records that an ANSWER arrived, nothing else. */
    method LeaderAnswerMessageReceived(m: Message)
      modifies this
      ensures receivedLeaderAnswerMessage
      ensures leaderUid == old(leaderUid) && leaderElectionNecessary == old(leaderElectionNecessary)
      ensures sent == old(sent) && emitted == old(emitted) && invocations == old(invocations)
    {
      receivedLeaderAnswerMessage := true;
    }

    /**
     * `leader_coordinator_message_received_handler`: a COORDINATOR from us or
     * from a winner is accepted (and, when it supersedes us as leader, the
     * lost-leadership event fires first); one from a loser is rejected and
     * flags a new election.
     */
    method LeaderCoordinatorMessageReceived(m: Message)
      requires Stamped(m)
      modifies this
      ensures var other := SenderOf(m);
        && (!OtherLoses(timeOf, ownUid, other) ==>
              && leaderUid == other
              && !leaderElectionNecessary
              && (other != ownUid && old(leaderUid) == ownUid ==>
                    emitted == old(emitted) + [LOST_LEADER_STATUS]
                    && invocations == old(invocations) + Events.HandlersOf(eventEngine.registered, LOST_LEADER_STATUS))
              && (!(other != ownUid && old(leaderUid) == ownUid) ==>
                    emitted == old(emitted) && invocations == old(invocations)))
        && (OtherLoses(timeOf, ownUid, other) ==>
              && leaderUid == old(leaderUid)
              && leaderElectionNecessary
              && emitted == old(emitted) && invocations == old(invocations))
      ensures sent == old(sent) && receivedLeaderAnswerMessage == old(receivedLeaderAnswerMessage)
    {
      var other := SenderOf(m);
      if !OtherLoses(timeOf, ownUid, other) {
        if other != ownUid && leaderUid == ownUid {
          Emit(LOST_LEADER_STATUS);
        }
        leaderUid := other;
        leaderElectionNecessary := false;
      } else {
        leaderElectionNecessary := true;
      }
    }

    /** The first half of `leader_election_alg`: clear both flags and send ELECTION. */
    method StartRound(peers: map<string, Peers.Peer>) returns (ghost targets: seq<string>)
      modifies this
      ensures !leaderElectionNecessary && !receivedLeaderAnswerMessage
      ensures forall u :: u in targets <==> u in ElectionTargets(timeOf, ownUid, peers.Keys)
      ensures PairwiseDistinct(targets) && |sent| == |old(sent)| + |targets| && sent[..|old(sent)|] == old(sent)
      ensures forall k :: 0 <= k < |targets| ==>
        sent[|old(sent)| + k] == Unicast(peers[targets[k]].ip, peers[targets[k]].port, NoBody, TypeHeader(LEADER_ELECTION_MESSAGE))
      ensures leaderUid == old(leaderUid) && emitted == old(emitted) && invocations == old(invocations)
    {
      leaderElectionNecessary := false;
      receivedLeaderAnswerMessage := false;
      targets := BroadcastElectionMessage(peers);
    }

    /**
     * The second half of `leader_election_alg`, after the voting timeout:
     * without an ANSWER, multicast COORDINATOR through the reliable
     * multicast and emit SELF_ELECTED_AS_LEADER; with one, do nothing.
     */
    method EndRound()
      requires rMcast.Valid()
      modifies this, rMcast
      ensures rMcast.Valid()
      ensures !old(receivedLeaderAnswerMessage) ==>
        var coordinator := NewMessage(TypeHeader(LEADER_COORDINATOR_MESSAGE), NoBody)
                             .(seqNum := rMcast.sequenceNumber, acks := rMcast.latestDeliveries);
        && rMcast.sequenceNumber == old(rMcast.sequenceNumber) + 1
        && rMcast.sent == old(rMcast.sent) + [Multicast(coordinator)]
        && rMcast.sentMessages == old(rMcast.sentMessages)[rMcast.sequenceNumber := coordinator]
        && emitted == old(emitted) + [Events.SELF_ELECTED_AS_LEADER]
        && invocations == old(invocations) + Events.HandlersOf(eventEngine.registered, Events.SELF_ELECTED_AS_LEADER)
      ensures old(receivedLeaderAnswerMessage) ==>
        && rMcast.sequenceNumber == old(rMcast.sequenceNumber) && rMcast.sent == old(rMcast.sent)
        && rMcast.sentMessages == old(rMcast.sentMessages)
        && emitted == old(emitted) && invocations == old(invocations)
      ensures rMcast.latestDeliveries == old(rMcast.latestDeliveries) && rMcast.holdBackQueue == old(rMcast.holdBackQueue)
      ensures rMcast.delivered == old(rMcast.delivered)
      ensures leaderUid == old(leaderUid) && sent == old(sent)
      ensures receivedLeaderAnswerMessage == old(receivedLeaderAnswerMessage)
      ensures leaderElectionNecessary == old(leaderElectionNecessary)
    {
      if !receivedLeaderAnswerMessage {
        rMcast.Send(NewMessage(TypeHeader(LEADER_COORDINATOR_MESSAGE), NoBody));
        Emit(Events.SELF_ELECTED_AS_LEADER);
      }
    }
  }

  /**
   * A node's own COORDINATOR, delivered back to it by the multicast group:
   * it never loses against its own id, so it accepts itself as leader,
   * clears the necessity flag and emits nothing, whoever led before.
   */
  method OwnCoordinatorAccepted(s: LeaderSubsystem, m: Message)
    requires Stamped(m) && SenderOf(m) == s.ownUid
    modifies s
    ensures s.leaderUid == s.ownUid && !s.leaderElectionNecessary
    ensures s.emitted == old(s.emitted) && s.invocations == old(s.invocations) && s.sent == old(s.sent)
    ensures s.receivedLeaderAnswerMessage == old(s.receivedLeaderAnswerMessage)
  {
    OtherLosesIrreflexive(s.timeOf, s.ownUid);
    s.LeaderCoordinatorMessageReceived(m);
  }

  /**
   * The decisions of the election handler and of the target choice for two
   * nodes a and b: exactly one of them would answer the other's ELECTION,
   * namely the one the other loses against, and only the loser sends
   * ELECTION to the other. (As the unicast dispatch stands, an ELECTION
   * never reaches the handler: see `Facade.ElectionUnicastReachesApplication`.)
   */
  lemma {:induction false} TwoNodesOneAnswers(timeOf: string -> nat, a: string, b: string)
    requires a != b
    ensures OtherLoses(timeOf, a, b) <==> !OtherLoses(timeOf, b, a)
    ensures OtherLoses(timeOf, a, b) ==> b !in ElectionTargets(timeOf, a, {a, b}) && a in ElectionTargets(timeOf, b, {a, b})
    ensures OtherLoses(timeOf, b, a) ==> a !in ElectionTargets(timeOf, b, {a, b}) && b in ElectionTargets(timeOf, a, {a, b})
  {
    TieBreakExactlyOne(timeOf, a, b);
  }
}
