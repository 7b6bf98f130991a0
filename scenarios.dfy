/**
 * Concrete runs of the reliable multicast receive path, one peer "p" at
 * 10.0.0.2, showing two consequences of its rules: a message that arrives
 * in order is delivered after the held-back successors it releases, and a
 * peer's very first message numbered 1 is never delivered.
 */
module Scenarios {
  import opened Messaging
  import opened ReliableMulticast

  function PeerHeader(): Header
  {
    map[UID := Str("p"), ORIGIN_IP := Str("10.0.0.2"), UNICAST_PORT := Num(5008)]
  }

  function Numbered(n: nat): (m: Message)
    ensures Stamped(m) && SenderOf(m) == "p" && m.seqNum == n
  {
    Message(PeerHeader(), Payload(n), n, map[])
  }

  /**
   * Messages 2, 4, 3 from a new peer: 2 is delivered on first contact, 4
   * is held back and 3 requested, and when 3 arrives the drain delivers 4
   * before 3 itself.
   */
  method OutOfOrderDelivery() returns (rm: RMulticast)
    ensures rm.delivered == [Numbered(2), Numbered(4), Numbered(3)]
    ensures rm.latestDeliveries == map["p" := 4]
    ensures rm.holdBackQueue == []
    ensures rm.sent == [NackFor(Numbered(4), 3)]
  {
    rm := new RMulticast();
    assert Scan([], "p", 3, 0) == ([], []);
    rm.Receive(Numbered(2));
    rm.Receive(Numbered(4));
    assert Scan([Numbered(4)], "p", 4, 0) == ([], [Numbered(4)]) by {
      assert Matches(Numbered(4), "p", 4);
      ScanMatchStep([Numbered(4)], "p", 4, 0);
      assert RemoveAt([Numbered(4)], 0) == [];
      assert Scan([], "p", 5, 0) == ([], []);
      assert Scan([], "p", 4, 1) == ([], []);
      assert [Numbered(4)] + [] + [] == [Numbered(4)];
    }
    rm.Receive(Numbered(3));
  }

  /** A new peer's first message numbered 1 counts as already delivered. */
  method FirstMessageDropped() returns (rm: RMulticast)
    ensures rm.delivered == []
    ensures rm.latestDeliveries == map["p" := 1]
    ensures rm.holdBackQueue == [] && rm.sent == []
  {
    rm := new RMulticast();
    rm.Receive(Numbered(1));
  }

  /** Three sends from a new node are numbered 1, 2 and 3, each archived under its number. */
  method SuccessiveSends(a: Message, b: Message, c: Message) returns (rm: RMulticast)
    ensures |rm.sent| == 3 && rm.sequenceNumber == 3
    ensures forall k :: 0 <= k < 3 ==> rm.sent[k].Multicast? && rm.sent[k].msg.seqNum == k + 1
    ensures rm.sent[0].msg.body == a.body && rm.sent[1].msg.body == b.body && rm.sent[2].msg.body == c.body
    ensures rm.sentMessages.Keys == {1, 2, 3}
    ensures forall k :: k in rm.sentMessages ==> rm.sent[k - 1].msg == rm.sentMessages[k]
  {
    rm := new RMulticast();
    rm.Send(a);
    rm.Send(b);
    rm.Send(c);
  }
}
