/**
 * The message envelope shared by every part of the coordination layer:
 * a header (string keys to loosely typed values), an opaque body, a
 * multicast sequence number and a piggy-backed acknowledgement table.
 * Also the message-type tags and header keys the dispatchers compare
 * against, and the transmissions that the senders hand to the transport.
 */
module Messaging {

  datatype Option<T> = None | Some(value: T)

  /** A header value as it arrives after JSON decoding: a string or a number. */
  datatype HVal = Str(s: string) | Num(n: int)

  /**
   * A message body. Negative acknowledgements carry the requested sequence
   * number, control messages carry nothing, heartbeat fallbacks carry a
   * one-entry dictionary and application payloads are opaque.
   */
  datatype Body = NoBody | SeqNo(n: int) | Dict(entries: map<string, string>) | Payload(id: nat)

  type Header = map<string, HVal>

  datatype Message = Message(header: Header, body: Body, seqNum: int, acks: map<string, int>)

  // Message types (DefaultMessageTypes)
  const HEARTBEAT := "heartbeat"
  const LEADER_ELECTION_MESSAGE := "LEADER_ELECTION_MESSAGE"
  const LEADER_ANSWER_MESSAGE := "LEADER_ANSWER_MESSAGE"
  const LEADER_COORDINATOR_MESSAGE := "LEADER_COORDINATOR_MESSAGE"
  const NEGATIVE_ACK := "NEGATIVE_ACK"

  // Header keys (DefaultHeaders)
  const DESTINATION_IP := "destination_ip"
  const ORIGIN_IP := "origin_ip"
  const UNICAST_PORT := "port"
  const UID := "uid"
  const TYPE := "type"
  const READABLE_NAME := "readable_name"

  /** The constructor with its defaults: no sequence number yet and no acknowledgements. */
  function NewMessage(header: Header, body: Body): (m: Message)
    ensures m.header == header && m.body == body
    ensures m.seqNum == 0 && m.acks == map[]
  {
    Message(header, body, 0, map[])
  }

  /** `get_header`: the value stored under `key`, or None when the key is absent. */
  function GetHeader(m: Message, key: string): (r: Option<HVal>)
    ensures key in m.header ==> r == Some(m.header[key])
    ensures key !in m.header ==> r == None
  {
    if key in m.header then Some(m.header[key]) else None
  }

  /** A header whose type entry is the string `tag`. */
  function TypeHeader(tag: string): (h: Header)
    ensures TYPE in h && h[TYPE] == Str(tag) && h.Keys == {TYPE}
  {
    map[TYPE := Str(tag)]
  }

  /**
   * The transport stamps every outgoing message with the sender's uid (a
   * string), its origin address and its unicast port; every message that a
   * receive path sees therefore carries these three keys.
   */
  predicate Stamped(m: Message)
  {
    && UID in m.header && m.header[UID].Str?
    && ORIGIN_IP in m.header
    && UNICAST_PORT in m.header
  }

  /** The sender identity of a stamped message. */
  function SenderOf(m: Message): string
    requires Stamped(m)
  {
    m.header[UID].s
  }

  /** What a sender hands to the transport. */
  datatype Transmission =
    | Multicast(msg: Message)
    | Unicast(ip: HVal, port: HVal, body: Body, custom: Header)

  function TypeTags(): seq<string>
  {
    [HEARTBEAT, LEADER_ELECTION_MESSAGE, LEADER_ANSWER_MESSAGE, LEADER_COORDINATOR_MESSAGE, NEGATIVE_ACK]
  }

  function HeaderKeys(): seq<string>
  {
    [DESTINATION_IP, ORIGIN_IP, UNICAST_PORT, UID, TYPE, READABLE_NAME]
  }

  /** No string occurs twice in `s`. */
  predicate PairwiseDistinct(s: seq<string>)
  {
    forall i, j :: 0 <= i < j < |s| ==> s[i] != s[j]
  }

  /** The five type tags differ pairwise, so a dispatch on the type tag is unambiguous. */
  lemma TypeTagsDistinct()
    ensures |TypeTags()| == 5 && PairwiseDistinct(TypeTags())
  {
    var t := TypeTags();
    assert t[0][0] == 'h' && t[1][7] == 'E' && t[2][7] == 'A' && t[3][7] == 'C' && t[4][0] == 'N';
  }

  /** The six header keys differ pairwise. */
  lemma HeaderKeysDistinct()
    ensures |HeaderKeys()| == 6 && PairwiseDistinct(HeaderKeys())
  {
    var k := HeaderKeys();
    assert k[0][0] == 'd' && k[1][0] == 'o' && k[2][0] == 'p' && k[3][0] == 'u' && k[4][0] == 't' && k[5][0] == 'r';
  }
}
