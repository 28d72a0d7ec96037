/** MQTT 3.1.1 control packets, and which of them a client can legally send. */
module Packets {
  import opened Common
  import opened Utf8
  import opened Topics

  datatype ReturnCode =
    | Accepted | UnacceptableProtocolVersion | IdentifierRejected
    | ServerUnavailable | BadUsernameOrPassword | NotAuthorized
  {
    function Byte(): byte {
      match this
      case Accepted => 0
      case UnacceptableProtocolVersion => 1
      case IdentifierRejected => 2
      case ServerUnavailable => 3
      case BadUsernameOrPassword => 4
      case NotAuthorized => 5
    }
  }

  datatype PublishPacket =
    PublishPacket(topic: Str, payload: seq<byte>, qos: byte, retain: bool, packetId: Option<u16>)

  datatype Packet =
    | Connect(protocolName: Str, protocolLevel: byte, cleanSession: bool, keepAlive: u16, clientId: Str)
    | ConnAck(sessionPresent: bool, returnCode: ReturnCode)
    | Subscribe(subscribeId: u16, subscriptions: seq<(Str, byte)>)
    | SubAck(subAckId: u16, returnCodes: seq<byte>)
    | Unsubscribe(unsubscribeId: u16, filters: seq<Str>)
    | UnsubAck(unsubAckId: u16)
    | Publish(publish: PublishPacket)
    | PubAck(pubAckId: u16)
    | PingReq
    | PingResp
    | Disconnect

  const MQTT: Str := [0x4D, 0x51, 0x54, 0x54]

  /** Section 4.7: a topic name is not empty and holds no wildcard. */
  predicate LegalTopic(topic: Str) {
    Encodable(topic) && topic != [] && !IsWildcard(topic)
  }

  predicate LegalFilter(filter: Str) {
    Encodable(filter) && ValidFilter(filter)
  }

  predicate LegalPublish(p: PublishPacket) {
    && LegalTopic(p.topic)
    && p.qos <= 1
    && (p.qos == 0 <==> p.packetId == None)
    && p.packetId != Some(0)
  }

  /** The fields of a packet that a client may send; length limits of the whole body come in Codec. */
  predicate LegalFields(p: Packet) {
    match p
    case Connect(name, level, _, _, clientId) => name == MQTT && level == 4 && Encodable(clientId)
    case Subscribe(_, subs) =>
      subs != [] && forall i :: 0 <= i < |subs| ==> LegalFilter(subs[i].0) && subs[i].1 <= 2
    case Unsubscribe(_, filters) =>
      filters != [] && forall i :: 0 <= i < |filters| ==> LegalFilter(filters[i])
    case Publish(publish) => LegalPublish(publish)
    case PubAck(id) => id != 0
    case PingReq => true
    case Disconnect => true
    case _ => false
  }
}
