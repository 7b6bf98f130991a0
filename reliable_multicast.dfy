/**
 * Reliable FIFO multicast with piggy-backed acknowledgements and negative
 * acknowledgements (`RMulticast`).
 *
 * The sender numbers its messages 1, 2, 3, ... and archives each one; the
 * receiver keeps, per sender, the latest delivered sequence number and a
 * hold-back list of messages that arrived ahead of a gap. The application
 * delivery callback and the IP sender are the ghost logs `delivered` and
 * `sent`.
 */
module ReliableMulticast {
  import opened Messaging

  /** A held-back message is the one the drain looks for: sender `uid`, sequence number `s`. */
  predicate Matches(m: Message, uid: string, s: int)
  {
    m.seqNum == s && UID in m.header && m.header[UID] == Str(uid)
  }

  /** Two messages share the (sender, sequence number) key. */
  predicate SameKey(a: Message, b: Message)
  {
    a.seqNum == b.seqNum && GetHeader(a, UID) == GetHeader(b, UID)
  }

  /** No two entries of a hold-back list share a (sender, sequence number) key. */
  predicate UniqueKeys(hb: seq<Message>)
  {
    forall a, b :: 0 <= a < b < |hb| ==> !SameKey(hb[a], hb[b])
  }

  function RemoveAt(hb: seq<Message>, i: nat): (r: seq<Message>)
    requires i < |hb|
    ensures |r| == |hb| - 1
    ensures multiset(r) + multiset{hb[i]} == multiset(hb)
    ensures forall k :: 0 <= k < |r| ==> r[k] == (if k < i then hb[k] else hb[k + 1])
  {
    assert hb == hb[..i] + [hb[i]] + hb[i + 1..];
    hb[..i] + hb[i + 1..]
  }

  /**
   * `deliver_items_from_hb(uid, s)` exactly as written, from list index `i`
   * on: a for-loop over the hold-back list that, on a match, removes the
   * entry from the list it is iterating over, recursively drains `s + 1`
   * over the whole (now shorter) list, and then resumes its own iteration
   * at the next index of the mutated list. Returns the remaining list and
   * the messages delivered, in delivery order; the two together are as
   * long as the input and hold only entries of the input.
   */
  function Scan(hb: seq<Message>, uid: string, s: int, i: nat): (r: (seq<Message>, seq<Message>))
    ensures |r.0| + |r.1| == |hb|
    ensures forall x :: x in r.0 ==> x in hb
    ensures forall x :: x in r.1 ==> x in hb
    decreases |hb|, |hb| - i
  {
    if i >= |hb| then (hb, [])
    else if Matches(hb[i], uid, s) then
      var (hb2, d2) := Scan(RemoveAt(hb, i), uid, s + 1, 0);
      var (hb3, d3) := Scan(hb2, uid, s, i + 1);
      (hb3, [hb[i]] + d2 + d3)
    else
      Scan(hb, uid, s, i + 1)
  }

  lemma MatchPartsConserve(hb: seq<Message>, i: nat, rest: seq<Message>,
                           left: seq<Message>, run: seq<Message>, remainder: seq<Message>, later: seq<Message>)
    requires i < |hb| && multiset(rest) + multiset{hb[i]} == multiset(hb)
    requires multiset(left) + multiset(run) == multiset(rest)
    requires multiset(remainder) + multiset(later) == multiset(left)
    ensures multiset(remainder) + multiset([hb[i]] + run + later) == multiset(hb)
  {
    assert multiset([hb[i]] + run + later) == multiset{hb[i]} + multiset(run) + multiset(later);
  }

  /** The as-written drain loses and invents nothing: remainder and delivered run together are the list. */
  lemma {:induction false} ScanConserves(hb: seq<Message>, uid: string, s: int, i: nat)
    ensures var r := Scan(hb, uid, s, i); multiset(r.0) + multiset(r.1) == multiset(hb)
    decreases |hb|, |hb| - i
  {
    if i < |hb| {
      if Matches(hb[i], uid, s) {
        var rest := RemoveAt(hb, i);
        ScanConserves(rest, uid, s + 1, 0);
        var r2 := Scan(rest, uid, s + 1, 0);
        ScanConserves(r2.0, uid, s, i + 1);
        var r3 := Scan(r2.0, uid, s, i + 1);
        ScanMatchStep(hb, uid, s, i);
        MatchPartsConserve(hb, i, rest, r2.0, r2.1, r3.0, r3.1);
      } else {
        ScanConserves(hb, uid, s, i + 1);
      }
    }
  }

  /** The index of the first entry that matches (uid, s), if any. */
  function IndexOf(hb: seq<Message>, uid: string, s: int): (r: Option<nat>)
    ensures r.Some? ==> r.value < |hb| && Matches(hb[r.value], uid, s)
    ensures r.Some? ==> forall k :: 0 <= k < r.value ==> !Matches(hb[k], uid, s)
    ensures r.None? ==> forall k :: 0 <= k < |hb| ==> !Matches(hb[k], uid, s)
  {
    if hb == [] then None
    else if Matches(hb[0], uid, s) then Some(0)
    else match IndexOf(hb[1..], uid, s)
      case None => None
      case Some(j) => Some(j + 1)
  }

  /**
   * The drain as the design describes it: take the held-back message with
   * sequence number s, then s + 1, and so on while the run is contiguous.
   * The delivered messages are from `uid`, numbered s, s + 1, ... in order,
   * and nothing left over continues the run.
   */
  function CleanDrain(hb: seq<Message>, uid: string, s: int): (r: (seq<Message>, seq<Message>))
    ensures |r.0| + |r.1| == |hb|
    ensures multiset(r.0) + multiset(r.1) == multiset(hb)
    ensures forall k :: 0 <= k < |r.1| ==> Matches(r.1[k], uid, s + k)
    ensures forall k :: 0 <= k < |r.0| ==> !Matches(r.0[k], uid, s + |r.1|)
    decreases |hb|
  {
    match IndexOf(hb, uid, s)
    case None => (hb, [])
    case Some(j) =>
      var (h, d) := CleanDrain(RemoveAt(hb, j), uid, s + 1);
      RunExtends(hb[j], d, uid, s);
      TakeOneConserves(hb, j, h, d);
      (h, [hb[j]] + d)
  }

  /** A message numbered s in front of a run numbered s + 1, ... is a run numbered s, ... */
  lemma RunExtends(x: Message, d: seq<Message>, uid: string, s: int)
    requires Matches(x, uid, s)
    requires forall k :: 0 <= k < |d| ==> Matches(d[k], uid, s + 1 + k)
    ensures forall k :: 0 <= k < |[x] + d| ==> Matches(([x] + d)[k], uid, s + k)
  {
    forall k | 0 <= k < |[x] + d|
      ensures Matches(([x] + d)[k], uid, s + k)
    {
      if k > 0 {
        assert ([x] + d)[k] == d[k - 1];
      }
    }
  }

  /** Taking entry j out and putting it at the head of the run keeps the multiset of entries. */
  lemma TakeOneConserves(hb: seq<Message>, j: nat, h: seq<Message>, d: seq<Message>)
    requires j < |hb|
    requires multiset(h) + multiset(d) == multiset(RemoveAt(hb, j))
    ensures multiset(h) + multiset([hb[j]] + d) == multiset(hb)
  {
    assert multiset([hb[j]] + d) == multiset{hb[j]} + multiset(d);
  }

  /** One step of the as-written drain at a matching index. */
  lemma ScanMatchStep(hb: seq<Message>, uid: string, s: int, i: nat)
    requires i < |hb| && Matches(hb[i], uid, s)
    ensures var r2 := Scan(RemoveAt(hb, i), uid, s + 1, 0);
      var r3 := Scan(r2.0, uid, s, i + 1);
      Scan(hb, uid, s, i) == (r3.0, [hb[i]] + r2.1 + r3.1)
  {
  }

  /** One step of the contiguous-run drain when the run goes on at index `j`. */
  lemma CleanDrainStep(hb: seq<Message>, uid: string, s: int, j: nat)
    requires IndexOf(hb, uid, s) == Some(j)
    ensures var r := CleanDrain(RemoveAt(hb, j), uid, s + 1);
      CleanDrain(hb, uid, s) == (r.0, [hb[j]] + r.1)
  {
  }

  lemma {:induction false} ScanNoMatch(hb: seq<Message>, uid: string, s: int, i: nat)
    requires forall k :: i <= k < |hb| ==> !Matches(hb[k], uid, s)
    ensures Scan(hb, uid, s, i) == (hb, [])
    decreases |hb| - i
  {
    if i < |hb| {
      ScanNoMatch(hb, uid, s, i + 1);
    }
  }

  lemma {:induction false} ScanSkip(hb: seq<Message>, uid: string, s: int, i: nat, j: nat)
    requires i <= j <= |hb|
    requires forall k :: i <= k < j ==> !Matches(hb[k], uid, s)
    ensures Scan(hb, uid, s, i) == Scan(hb, uid, s, j)
    decreases j - i
  {
    if i < j {
      ScanSkip(hb, uid, s, i + 1, j);
    }
  }

  lemma UniqueRemoveAt(hb: seq<Message>, j: nat)
    requires j < |hb| && UniqueKeys(hb)
    ensures UniqueKeys(RemoveAt(hb, j))
  {
    var r := RemoveAt(hb, j);
    forall a, b | 0 <= a < b < |r|
      ensures !SameKey(r[a], r[b])
    {
      var a' := if a < j then a else a + 1;
      var b' := if b < j then b else b + 1;
      assert r[a] == hb[a'] && r[b] == hb[b'] && a' < b';
    }
  }

  /** Only the entry at `j` carries the key (uid, s), so nothing else matches it. */
  lemma OnlyMatchRemoved(hb: seq<Message>, j: nat, uid: string, s: int)
    requires j < |hb| && UniqueKeys(hb) && Matches(hb[j], uid, s)
    ensures forall k :: 0 <= k < |RemoveAt(hb, j)| ==> !Matches(RemoveAt(hb, j)[k], uid, s)
  {
    var r := RemoveAt(hb, j);
    forall k | 0 <= k < |r|
      ensures !Matches(r[k], uid, s)
    {
      var k' := if k < j then k else k + 1;
      assert r[k] == hb[k'];
      if k' < j { assert !SameKey(hb[k'], hb[j]); } else { assert !SameKey(hb[j], hb[k']); }
    }
  }

  /** A list whose entries all come from a list without a match has no match either. */
  lemma NoMatchInSublist(a: seq<Message>, b: seq<Message>, uid: string, s: int)
    requires forall x :: x in a ==> x in b
    requires forall k :: 0 <= k < |b| ==> !Matches(b[k], uid, s)
    ensures forall k :: 0 <= k < |a| ==> !Matches(a[k], uid, s)
  {
    forall k | 0 <= k < |a|
      ensures !Matches(a[k], uid, s)
    {
      assert a[k] in b;
    }
  }

  /**
   * When no two held-back entries share a key, the as-written drain is the
   * contiguous-run drain: it delivers exactly the run s, s + 1, ... of `uid`
   * and removes exactly those entries.
   */
  lemma {:induction false} ScanIsCleanDrain(hb: seq<Message>, uid: string, s: int)
    requires UniqueKeys(hb)
    ensures Scan(hb, uid, s, 0) == CleanDrain(hb, uid, s)
    decreases |hb|
  {
    match IndexOf(hb, uid, s)
    case None =>
      ScanNoMatch(hb, uid, s, 0);
    case Some(j) =>
      ScanSkip(hb, uid, s, 0, j);
      var hb1 := RemoveAt(hb, j);
      UniqueRemoveAt(hb, j);
      ScanIsCleanDrain(hb1, uid, s + 1);
      var r2 := Scan(hb1, uid, s + 1, 0);
      OnlyMatchRemoved(hb, j, uid, s);
      NoMatchInSublist(r2.0, hb1, uid, s);
      ScanNoMatch(r2.0, uid, s, j + 1);
      ScanMatchStep(hb, uid, s, j);
      CleanDrainStep(hb, uid, s, j);
      assert [hb[j]] + r2.1 + [] == [hb[j]] + r2.1;
      calc {
        Scan(hb, uid, s, 0);
        Scan(hb, uid, s, j);
        (r2.0, [hb[j]] + r2.1 + []);
        CleanDrain(hb, uid, s);
      }
  }

  /**
   * With a duplicated entry in the hold-back list the as-written drain can
   * deliver the same sequence number twice: removing the first copy shifts
   * the list under the iteration, and the loop meets the second copy later.
   */
  lemma DuplicateHeldBackDeliveredTwice(m: Message, other: Message, uid: string, s: int)
    requires Matches(m, uid, s)
    requires !Matches(other, uid, s) && !Matches(other, uid, s + 1)
    ensures Scan([m, other, m], uid, s, 0) == ([other], [m, m])
  {
    var hb := [m, other, m];
    assert [hb[1], hb[2]] == [other, m];
    FirstCopyDelivered(hb, uid, s);
    SecondCopyDelivered(m, other, uid, s);
    assert [m] + [m] == [m, m];
  }

  /** A match whose successor s + 1 is not held back: the drain of s + 1 is empty. */
  lemma MatchWithoutSuccessor(hb: seq<Message>, uid: string, s: int, i: nat)
    requires i < |hb| && Matches(hb[i], uid, s)
    requires forall k :: 0 <= k < |hb| && k != i ==> !Matches(hb[k], uid, s + 1)
    ensures var r3 := Scan(RemoveAt(hb, i), uid, s, i + 1);
      Scan(hb, uid, s, i) == (r3.0, [hb[i]] + r3.1)
  {
    var rest := RemoveAt(hb, i);
    assert forall k :: 0 <= k < |rest| ==> !Matches(rest[k], uid, s + 1) by {
      forall k | 0 <= k < |rest|
        ensures !Matches(rest[k], uid, s + 1)
      {
        if k >= i {
          assert rest[k] == hb[k + 1];
        }
      }
    }
    ScanNoMatch(rest, uid, s + 1, 0);
    ScanMatchStep(hb, uid, s, i);
    assert [hb[i]] + [] == [hb[i]];
  }

  /** The first copy is delivered; the recursive drain of s + 1 finds nothing. */
  lemma FirstCopyDelivered(hb: seq<Message>, uid: string, s: int)
    requires |hb| == 3 && hb[0] == hb[2] && Matches(hb[0], uid, s)
    requires !Matches(hb[1], uid, s + 1)
    ensures var r3 := Scan([hb[1], hb[2]], uid, s, 1);
      Scan(hb, uid, s, 0) == (r3.0, [hb[0]] + r3.1)
  {
    assert RemoveAt(hb, 0) == [hb[1], hb[2]];
    MatchWithoutSuccessor(hb, uid, s, 0);
  }

  /** The resumed iteration meets the second copy at index 1. */
  lemma SecondCopyDelivered(m: Message, other: Message, uid: string, s: int)
    requires Matches(m, uid, s)
    requires !Matches(other, uid, s) && !Matches(other, uid, s + 1)
    ensures Scan([other, m], uid, s, 1) == ([other], [m])
  {
    var hb := [other, m];
    assert RemoveAt(hb, 1) == [other];
    ScanNoMatch([other], uid, s + 1, 0);
    var r2 := Scan([other], uid, s + 1, 0);
    ScanNoMatch(r2.0, uid, s, 2);
    var r3 := Scan(r2.0, uid, s, 2);
    ScanMatchStep(hb, uid, s, 1);
    assert [m] + r2.1 + r3.1 == [m];
  }

  /** The lazily initialised entry for a sender never heard from, given its first sequence number. */
  function InitialLatest(s: int): (r: int)
    ensures s == 1 ==> r == 1
    ensures s != 1 ==> r == s - 1
  {
    if s - 1 == 0 then 1 else s - 1
  }

  /** The first message ever seen from a sender is in order, unless it carries number 1. */
  lemma FirstContact(s: int)
    ensures s != 1 ==> s == InitialLatest(s) + 1
    ensures s == 1 ==> s <= InitialLatest(s)
  {
  }

  /** The negative acknowledgement for `s` sent back to the origin of `m`. */
  function NackFor(m: Message, s: int): (t: Transmission)
    requires Stamped(m)
    ensures t.Unicast? && t.ip == m.header[ORIGIN_IP] && t.port == m.header[UNICAST_PORT]
    ensures t.body == SeqNo(s) && t.custom == TypeHeader(NEGATIVE_ACK)
  {
    Unicast(m.header[ORIGIN_IP], m.header[UNICAST_PORT], SeqNo(s), TypeHeader(NEGATIVE_ACK))
  }

  /**
   * The loop of `deliver_items_from_hb` keeps "delivered so far + still to
   * deliver == everything" across a match: the entry, the recursive drain
   * of s + 1 and the resumed iteration together are the walk from index i.
   */
  lemma MatchStepKeepsTotal(hb: seq<Message>, uid: string, s: int, i: nat, dBefore: seq<Message>,
                            d0: seq<Message>, total: (seq<Message>, seq<Message>))
    requires i < |hb| && Matches(hb[i], uid, s)
    requires Scan(hb, uid, s, i).0 == total.0 && dBefore + Scan(hb, uid, s, i).1 == d0 + total.1
    ensures var r2 := Scan(RemoveAt(hb, i), uid, s + 1, 0);
      && Scan(r2.0, uid, s, i + 1).0 == total.0
      && dBefore + [hb[i]] + r2.1 + Scan(r2.0, uid, s, i + 1).1 == d0 + total.1
  {
    ScanMatchStep(hb, uid, s, i);
    var r2 := Scan(RemoveAt(hb, i), uid, s + 1, 0);
    var r3 := Scan(r2.0, uid, s, i + 1);
    assert dBefore + [hb[i]] + r2.1 + r3.1 == dBefore + ([hb[i]] + r2.1 + r3.1);
  }

  class RMulticast {
    /** How many messages this node has multicast. */
    var sequenceNumber: int
    /** Per sender: the latest sequence number delivered to the application. */
    var latestDeliveries: map<string, int>
    var holdBackQueue: seq<Message>
    /** The archive of sent messages, by sequence number. */
    var sentMessages: map<int, Message>

    ghost var delivered: seq<Message>
    ghost var sent: seq<Transmission>

    /** The archive holds exactly the messages 1 .. sequenceNumber, each stamped with its key. */
    ghost predicate Valid()
      reads this
    {
      && sequenceNumber >= 0
      && (forall k :: k in sentMessages <==> 1 <= k <= sequenceNumber)
      && (forall k :: k in sentMessages ==> sentMessages[k].seqNum == k)
    }

    constructor ()
      ensures Valid()
      ensures sequenceNumber == 0 && latestDeliveries == map[] && holdBackQueue == [] && sentMessages == map[]
      ensures delivered == [] && sent == []
    {
      sequenceNumber := 0;
      latestDeliveries := map[];
      holdBackQueue := [];
      sentMessages := map[];
      delivered := [];
      sent := [];
    }

    /**
     * `send`: the next sequence number and the current acknowledgement
     * table are stamped on the message, which is archived under that number
     * and multicast.
     */
    method Send(m: Message)
      requires Valid()
      modifies this
      ensures Valid()
      ensures sequenceNumber == old(sequenceNumber) + 1
      ensures var stamped := m.(seqNum := sequenceNumber, acks := latestDeliveries);
        && sentMessages == old(sentMessages)[sequenceNumber := stamped]
        && sent == old(sent) + [Multicast(stamped)]
      ensures sequenceNumber !in old(sentMessages)
      ensures latestDeliveries == old(latestDeliveries) && holdBackQueue == old(holdBackQueue)
      ensures delivered == old(delivered)
    {
      sequenceNumber := sequenceNumber + 1;
      var stamped := m.(seqNum := sequenceNumber, acks := latestDeliveries);
      sentMessages := sentMessages[sequenceNumber := stamped];
      sent := sent + [Multicast(stamped)];
    }

    /**
     * `get_sequence_number_for_process(uid, s)`: the table entry for a known
     * sender; for an unknown one the entry is created from `s` first.
     */
    method GetSequenceNumberForProcess(uid: string, s: int) returns (r: int)
      modifies this
      ensures uid in old(latestDeliveries) ==> r == old(latestDeliveries)[uid] && latestDeliveries == old(latestDeliveries)
      ensures uid !in old(latestDeliveries) ==> r == InitialLatest(s) && latestDeliveries == old(latestDeliveries)[uid := r]
      ensures sequenceNumber == old(sequenceNumber) && sentMessages == old(sentMessages)
      ensures holdBackQueue == old(holdBackQueue) && delivered == old(delivered) && sent == old(sent)
    {
      if uid in latestDeliveries {
        r := latestDeliveries[uid];
      } else {
        if s - 1 == 0 {
          latestDeliveries := latestDeliveries[uid := 1];
          r := 1;
        } else {
          latestDeliveries := latestDeliveries[uid := s - 1];
          r := s - 1;
        }
      }
    }

    /** `deliverToApplication`: the delivery callback. */
    method DeliverToApplication(m: Message)
      modifies this
      ensures delivered == old(delivered) + [m]
      ensures sequenceNumber == old(sequenceNumber) && sentMessages == old(sentMessages)
      ensures latestDeliveries == old(latestDeliveries) && holdBackQueue == old(holdBackQueue) && sent == old(sent)
    {
      delivered := delivered + [m];
    }

    /** `send_negative_ack_for_seq`: unicast a request for `s` to the origin of `m`. */
    method SendNegativeAckForSeq(m: Message, s: int)
      requires Stamped(m)
      modifies this
      ensures sent == old(sent) + [NackFor(m, s)]
      ensures sequenceNumber == old(sequenceNumber) && sentMessages == old(sentMessages)
      ensures latestDeliveries == old(latestDeliveries) && holdBackQueue == old(holdBackQueue) && delivered == old(delivered)
    {
      sent := sent + [Unicast(m.header[ORIGIN_IP], m.header[UNICAST_PORT], SeqNo(s), TypeHeader(NEGATIVE_ACK))];
    }

    /**
     * `recived_neg_ack_message`: when the requested number is archived, the
     * archived message is re-multicast to the whole group with its number
     * and the current acknowledgement table; otherwise nothing happens.
     */
    method ReceivedNegAck(m: Message)
      requires Valid()
      modifies this
      ensures Valid()
      ensures m.body.SeqNo? && m.body.n in old(sentMessages) ==>
        var resend := old(sentMessages)[m.body.n].(acks := latestDeliveries);
        && resend.seqNum == m.body.n
        && sent == old(sent) + [Multicast(resend)]
        && sentMessages == old(sentMessages)[m.body.n := resend]
      ensures !(m.body.SeqNo? && m.body.n in old(sentMessages)) ==> sent == old(sent) && sentMessages == old(sentMessages)
      ensures sequenceNumber == old(sequenceNumber) && latestDeliveries == old(latestDeliveries)
      ensures holdBackQueue == old(holdBackQueue) && delivered == old(delivered)
    {
      if m.body.SeqNo? && m.body.n in sentMessages {
        var resend := sentMessages[m.body.n].(seqNum := m.body.n, acks := latestDeliveries);
        sentMessages := sentMessages[m.body.n := resend];
        sent := sent + [Multicast(resend)];
      }
    }

    /** `deliver_items_from_hb(uid, s)`, exactly as `Scan` describes it. */
    method DeliverItemsFromHoldBack(uid: string, s: int)
      requires uid in latestDeliveries
      modifies this
      decreases |holdBackQueue|
      ensures var r := Scan(old(holdBackQueue), uid, s, 0);
        && holdBackQueue == r.0
        && delivered == old(delivered) + r.1
        && latestDeliveries == old(latestDeliveries)[uid := old(latestDeliveries)[uid] + |r.1|]
      ensures sequenceNumber == old(sequenceNumber) && sentMessages == old(sentMessages) && sent == old(sent)
    {
      ghost var hb0 := holdBackQueue;
      ghost var total := Scan(hb0, uid, s, 0);
      ghost var d0 := delivered;
      ghost var r0 := latestDeliveries[uid];
      var i := 0;
      while i < |holdBackQueue|
        invariant |holdBackQueue| <= |hb0|
        invariant |delivered| >= |d0|
        invariant Scan(holdBackQueue, uid, s, i).0 == total.0
        invariant delivered + Scan(holdBackQueue, uid, s, i).1 == d0 + total.1
        invariant latestDeliveries == old(latestDeliveries)[uid := r0 + |delivered| - |d0|]
        invariant sequenceNumber == old(sequenceNumber) && sentMessages == old(sentMessages) && sent == old(sent)
        decreases |holdBackQueue| - i
      {
        var m := holdBackQueue[i];
        if m.seqNum == s && UID in m.header && m.header[UID] == Str(uid) {
          ghost var hbBefore := holdBackQueue;
          ghost var dBefore := delivered;
          latestDeliveries := latestDeliveries[uid := latestDeliveries[uid] + 1];
          DeliverToApplication(m);
          holdBackQueue := holdBackQueue[..i] + holdBackQueue[i + 1..];
          assert holdBackQueue == RemoveAt(hbBefore, i);
          DeliverItemsFromHoldBack(uid, s + 1);
          MatchStepKeepsTotal(hbBefore, uid, s, i, dBefore, d0, total);
        }
        i := i + 1;
      }
      assert Scan(holdBackQueue, uid, s, i) == (holdBackQueue, []);
    }

    /**
     * `receive`: classify the message against the sender's latest delivered
     * number R (lazily initialised) and act:
     *   in order (s == R + 1): advance R, drain the hold-back list from R + 2,
     *     and only then deliver the message itself;
     *   duplicate (s <= R): nothing but the lazy initialisation;
     *   gap (s > R + 1): request R + 1 from the origin and hold the message
     *     back; when s > R + 3, R jumps to s + 3.
     */
    method Receive(m: Message)
      requires Stamped(m)
      modifies this
      ensures var p := SenderOf(m);
        var r := if p in old(latestDeliveries) then old(latestDeliveries)[p] else InitialLatest(m.seqNum);
        && (m.seqNum == r + 1 ==>
              var (hb, d) := Scan(old(holdBackQueue), p, r + 2, 0);
              && holdBackQueue == hb
              && delivered == old(delivered) + d + [m]
              && latestDeliveries == old(latestDeliveries)[p := r + 1 + |d|]
              && sent == old(sent))
        && (m.seqNum <= r ==>
              && holdBackQueue == old(holdBackQueue)
              && delivered == old(delivered)
              && latestDeliveries == old(latestDeliveries)[p := r]
              && sent == old(sent))
        && (m.seqNum > r + 1 ==>
              && holdBackQueue == old(holdBackQueue) + [m]
              && delivered == old(delivered)
              && latestDeliveries == old(latestDeliveries)[p := if m.seqNum > r + 3 then m.seqNum + 3 else r]
              && sent == old(sent) + [NackFor(m, r + 1)])
      ensures forall u :: u in old(latestDeliveries) ==> u in latestDeliveries && latestDeliveries[u] >= old(latestDeliveries)[u]
      ensures sequenceNumber == old(sequenceNumber) && sentMessages == old(sentMessages)
    {
      var p := m.header[UID].s;
      var r := GetSequenceNumberForProcess(p, m.seqNum);
      if m.seqNum == r + 1 {
        latestDeliveries := latestDeliveries[p := latestDeliveries[p] + 1];
        DeliverItemsFromHoldBack(p, r + 2);
        DeliverToApplication(m);
      }
      if m.seqNum > r + 3 {
        latestDeliveries := latestDeliveries[p := m.seqNum + 3];
      }
      if m.seqNum > r + 1 {
        SendNegativeAckForSeq(m, r + 1);
        holdBackQueue := holdBackQueue + [m];
      }
    }
  }
}
