/** The wire codec: one packet at the front of a buffer, and its bytes. */
module Codec {
  import opened Common
  import opened Errors
  import opened Utf8
  import opened Topics
  import opened Packets
  import RemainingLength

  // Packet types, table 2.1 of MQTT 3.1.1.
  const CONNECT := 1
  const CONNACK := 2
  const PUBLISH := 3
  const PUBACK := 4
  const SUBSCRIBE := 8
  const SUBACK := 9
  const UNSUBSCRIBE := 10
  const UNSUBACK := 11
  const PINGREQ := 12
  const PINGRESP := 13
  const DISCONNECT := 14

  // ---- Encoding ----

  function EncodeSubscriptions(subs: seq<(Str, byte)>): seq<byte> {
    if subs == [] then []
    else EncodeString(subs[0].0) + [subs[0].1] + EncodeSubscriptions(subs[1..])
  }

  function EncodeFilters(filters: seq<Str>): seq<byte> {
    if filters == [] then [] else EncodeString(filters[0]) + EncodeFilters(filters[1..])
  }

  function PacketType(p: Packet): (t: byte)
    ensures t < 16
  {
    match p
    case Connect(_, _, _, _, _) => CONNECT
    case ConnAck(_, _) => CONNACK
    case Subscribe(_, _) => SUBSCRIBE
    case SubAck(_, _) => SUBACK
    case Unsubscribe(_, _) => UNSUBSCRIBE
    case UnsubAck(_) => UNSUBACK
    case Publish(_) => PUBLISH
    case PubAck(_) => PUBACK
    case PingReq => PINGREQ
    case PingResp => PINGRESP
    case Disconnect => DISCONNECT
  }

  function PublishFlags(p: PublishPacket): byte {
    p.qos % 4 * 2 + if p.retain then 1 else 0
  }

  function Flags(p: Packet): (f: byte)
    ensures f < 16
  {
    match p
    case Subscribe(_, _) => 2
    case Unsubscribe(_, _) => 2
    case Publish(publish) => PublishFlags(publish)
    case _ => 0
  }

  function PublishBody(p: PublishPacket): seq<byte> {
    EncodeString(p.topic) + (if p.packetId.Some? then ToBe(p.packetId.value) else []) + p.payload
  }

  function ConnectBody(name: Str, level: byte, clean: bool, keepAlive: u16, clientId: Str): seq<byte> {
    EncodeString(name) + [level, if clean then 2 else 0] + ToBe(keepAlive) + EncodeString(clientId)
  }

  function Body(p: Packet): seq<byte> {
    match p
    case Connect(name, level, clean, keepAlive, clientId) => ConnectBody(name, level, clean, keepAlive, clientId)
    case ConnAck(sessionPresent, code) => [if sessionPresent then 1 else 0, code.Byte()]
    case Subscribe(id, subs) => ToBe(id) + EncodeSubscriptions(subs)
    case SubAck(id, codes) => ToBe(id) + codes
    case Unsubscribe(id, filters) => ToBe(id) + EncodeFilters(filters)
    case UnsubAck(id) => ToBe(id)
    case Publish(publish) => PublishBody(publish)
    case PubAck(id) => ToBe(id)
    case _ => []
  }

  /** The fixed header in front of a body; the length is cast to 32 bits. */
  function Frame(packetType: byte, flags: byte, body: seq<byte>): seq<byte>
    requires packetType < 16
  {
    [packetType * 16 + flags % 16] + RemainingLength.Encode(Cast32(|body|)) + body
  }

  function Encode(p: Packet): seq<byte> {
    Frame(PacketType(p), Flags(p), Body(p))
  }

  // ---- Decoding ----

  function DecodeConnect(body: seq<byte>): Decoded<Packet> {
    var (name, pos) :- DecodeString(body);
    if name != MQTT then Err(MalformedPayload(ProtocolName))
    else if |body| < pos + 1 then Err(MalformedPayload(LevelTruncated))
    else if body[pos] != 4 then Err(UnsupportedFeature(ProtocolLevel))
    else if |body| < pos + 2 then Err(MalformedPayload(FlagsTruncated))
    else
      var flags := body[pos + 1];
      if flags / 4 % 2 == 1 || flags / 0x80 % 2 == 1 || flags / 0x40 % 2 == 1 then
        Err(UnsupportedFeature(WillOrCredentials))
      else if |body| < pos + 4 then Err(MalformedPayload(KeepAliveTruncated))
      else
        var keepAlive := FromBe(body[pos + 2], body[pos + 3]);
        var id := DecodeString(body[pos + 4..]);
        if id.Err? then Err(MalformedPayload(ClientIdTruncated))
        else if pos + 4 + id.value.1 != |body| then Err(MalformedPayload(TrailingBytes))
        else Ok(Connect(name, 4, flags / 2 % 2 == 1, keepAlive, id.value.0))
  }

  /** Items decoded so far in front of the outcome for the remaining bytes. */
  function Onto<T>(done: seq<T>, rest: Decoded<seq<T>>): Decoded<seq<T>> {
    match rest
    case Ok(items) => Ok(done + items)
    case Err(e) => Err(e)
  }

  lemma OntoSnoc<T>(done: seq<T>, item: T, rest: Decoded<seq<T>>)
    ensures Onto([], rest) == rest
    ensures Onto(done, Ok([])) == Ok(done)
    ensures Onto(done + [item], rest) == Onto(done, Onto([item], rest))
  {
    if rest.Ok? {
      assert [] + rest.value == rest.value;
      assert done + [item] + rest.value == done + ([item] + rest.value);
    }
    assert done + [] == done;
  }

  /** One filter with its requested QoS, and the bytes they take. */
  function DecodeSubscription(b: seq<byte>): (r: Decoded<((Str, byte), nat)>)
    ensures r.Ok? ==> 0 < r.value.1 <= |b|
  {
    var field := DecodeString(b);
    if field.Err? then Err(MalformedPayload(FilterTruncated))
    else
      var (filter, k) := field.value;
      var _ :- Validate(filter);
      if k >= |b| then Err(MalformedPayload(QosMissing))
      else if b[k] > 2 then Err(MalformedPayload(QosOutOfRange))
      else Ok(((filter, b[k]), k + 1))
  }

  function DecodeSubscriptions(b: seq<byte>): Decoded<seq<(Str, byte)>>
    decreases |b|
  {
    if b == [] then Ok([])
    else
      var (sub, k) :- DecodeSubscription(b);
      Onto([sub], DecodeSubscriptions(b[k..]))
  }

  function DecodeSubscribe(body: seq<byte>): Decoded<Packet> {
    if |body| < 2 then Err(MalformedPayload(PacketIdTruncated))
    else if |body| == 2 then Err(MalformedPayload(NoFilter))
    else
      var subs :- DecodeSubscriptions(body[2..]);
      Ok(Subscribe(FromBe(body[0], body[1]), subs))
  }

  function DecodeFilter(b: seq<byte>): (r: Decoded<(Str, nat)>)
    ensures r.Ok? ==> 0 < r.value.1 <= |b|
  {
    var field := DecodeString(b);
    if field.Err? then Err(MalformedPayload(FilterTruncated))
    else
      var _ :- Validate(field.value.0);
      field
  }

  function DecodeFilters(b: seq<byte>): Decoded<seq<Str>>
    decreases |b|
  {
    if b == [] then Ok([])
    else
      var (filter, k) :- DecodeFilter(b);
      Onto([filter], DecodeFilters(b[k..]))
  }

  function DecodeUnsubscribe(body: seq<byte>): Decoded<Packet> {
    if |body| < 2 then Err(MalformedPayload(PacketIdTruncated))
    else if |body| == 2 then Err(MalformedPayload(NoFilter))
    else
      var filters :- DecodeFilters(body[2..]);
      Ok(Unsubscribe(FromBe(body[0], body[1]), filters))
  }

  function DecodePublish(flags: byte, body: seq<byte>): Decoded<Packet> {
    var qos := flags / 2 % 4;
    var retain := flags % 2 == 1;
    if qos == 3 then Err(MalformedPayload(PublishQosThree))
    else if qos == 2 then Err(UnsupportedFeature(QosTwo))
    else
      var field := DecodeString(body);
      if field.Err? then Err(MalformedPayload(TopicTruncated))
      else
        var (topic, pos) := field.value;
        if topic == [] then Err(MalformedPayload(TopicEmpty))
        else if IsWildcard(topic) then Err(MalformedPayload(TopicWildcard))
        else if qos == 0 then Ok(Publish(PublishPacket(topic, body[pos..], 0, retain, None)))
        else if |body| < pos + 2 then Err(MalformedPayload(PacketIdTruncated))
        else
          var id := FromBe(body[pos], body[pos + 1]);
          if id == 0 then Err(MalformedPayload(PacketIdZero))
          else Ok(Publish(PublishPacket(topic, body[pos + 2..], qos, retain, Some(id))))
  }

  function DecodePubAck(body: seq<byte>): Decoded<Packet> {
    if |body| != 2 then Err(MalformedPayload(PubAckLength))
    else
      var id := FromBe(body[0], body[1]);
      if id == 0 then Err(MalformedPayload(PacketIdZero)) else Ok(PubAck(id))
  }

  function DecodeBody(packetType: byte, flags: byte, body: seq<byte>): Decoded<Packet> {
    if packetType == CONNECT then DecodeConnect(body)
    else if packetType == SUBSCRIBE then DecodeSubscribe(body)
    else if packetType == UNSUBSCRIBE then DecodeUnsubscribe(body)
    else if packetType == PUBLISH then DecodePublish(flags, body)
    else if packetType == PUBACK then
      if flags != 0 then Err(MalformedPayload(PubAckFlags)) else DecodePubAck(body)
    else if packetType == PINGREQ then
      if body != [] then Err(MalformedPayload(PingReqBody)) else Ok(PingReq)
    else if packetType == DISCONNECT then
      if body != [] then Err(MalformedPayload(DisconnectBody)) else Ok(Disconnect)
    else if packetType == CONNACK then Err(UnsupportedFeature(ConnAckFromClient))
    else if packetType == SUBACK then Err(UnsupportedFeature(SubAckFromClient))
    else if packetType == UNSUBACK then Err(UnsupportedFeature(UnsubAckFromClient))
    else if packetType == PINGRESP then Err(UnsupportedFeature(PingRespFromClient))
    else Err(UnknownPacketType(packetType))
  }

  /** One packet at the front of the buffer, with the number of bytes it takes. */
  function Decode(buf: seq<byte>): (r: Decoded<(Packet, nat)>)
    ensures r.Ok? ==> 2 <= r.value.1 <= |buf|
  {
    if buf == [] then Err(Incomplete)
    else
      var (len, k) :- RemainingLength.Decode(buf[1..]);
      var total := 1 + k + len;
      if |buf| < total then Err(Incomplete)
      else
        var p :- DecodeBody(buf[0] / 16, buf[0] % 16, buf[1 + k..total]);
        Ok((p, total))
  }

  // ---- The decoding loops ----

  lemma SubscriptionsStep(body: seq<byte>, pos: nat, done: seq<(Str, byte)>)
    requires pos < |body|
    ensures var whole := Onto(done, DecodeSubscriptions(body[pos..]));
            match DecodeSubscription(body[pos..])
            case Ok((sub, k)) => whole == Onto(done + [sub], DecodeSubscriptions(body[pos + k..]))
            case Err(e) => whole == Err(e)
  {
    var head := DecodeSubscription(body[pos..]);
    if head.Ok? {
      assert body[pos..][head.value.1..] == body[pos + head.value.1..];
      OntoSnoc(done, head.value.0, DecodeSubscriptions(body[pos + head.value.1..]));
    }
  }

  /** One turn of the SUBSCRIBE loop. */
  method SubscriptionTurn(tail: seq<byte>) returns (r: Decoded<((Str, byte), nat)>)
    ensures r == DecodeSubscription(tail)
  {
    var field := DecodeString(tail);
    if field.Err? {
      return Err(MalformedPayload(FilterTruncated));
    }
    var (topic, consumed) := field.value;
    var verdict := ValidateTopicFilter(topic);
    if verdict.Err? {
      return Err(verdict.error);
    }
    if consumed >= |tail| {
      return Err(MalformedPayload(QosMissing));
    }
    var qos := tail[consumed];
    if qos > 2 {
      return Err(MalformedPayload(QosOutOfRange));
    }
    return Ok(((topic, qos), consumed + 1));
  }

  /** One turn of the UNSUBSCRIBE loop. */
  method FilterTurn(tail: seq<byte>) returns (r: Decoded<(Str, nat)>)
    ensures r == DecodeFilter(tail)
  {
    var field := DecodeString(tail);
    if field.Err? {
      return Err(MalformedPayload(FilterTruncated));
    }
    var verdict := ValidateTopicFilter(field.value.0);
    if verdict.Err? {
      return Err(verdict.error);
    }
    return field;
  }

  lemma NoSubscriptionsLeft(done: seq<(Str, byte)>)
    ensures Onto(done, DecodeSubscriptions([])) == Ok(done)
  {
    OntoSnoc(done, ([], 0), Ok([]));
  }

  /** The loop over the payload, from position 2 to the end of the body. */
  method SubscriptionList(body: seq<byte>) returns (r: Decoded<seq<(Str, byte)>>)
    requires |body| >= 2
    ensures r == DecodeSubscriptions(body[2..])
  {
    hide DecodeSubscriptions, DecodeSubscription, Onto;
    ghost var goal := DecodeSubscriptions(body[2..]);
    var pos := 2;
    var subscriptions: seq<(Str, byte)> := [];
    OntoSnoc([], ([], 0), goal);
    while pos < |body|
      invariant 2 <= pos <= |body|
      invariant goal == Onto(subscriptions, DecodeSubscriptions(body[pos..]))
    {
      SubscriptionsStep(body, pos, subscriptions);
      var turn := SubscriptionTurn(body[pos..]);
      if turn.Err? {
        return Err(turn.error);
      }
      pos := pos + turn.value.1;
      subscriptions := subscriptions + [turn.value.0];
    }
    assert body[pos..] == [];
    NoSubscriptionsLeft(subscriptions);
    return Ok(subscriptions);
  }

  method SubscribeLoop(body: seq<byte>) returns (r: Decoded<Packet>)
    ensures r == DecodeSubscribe(body)
  {
    hide DecodeSubscriptions;
    if |body| < 2 {
      return Err(MalformedPayload(PacketIdTruncated));
    }
    var packetId := FromBe(body[0], body[1]);
    if 2 >= |body| {
      return Err(MalformedPayload(NoFilter));
    }
    var list := SubscriptionList(body);
    if list.Err? {
      return Err(list.error);
    }
    return Ok(Subscribe(packetId, list.value));
  }

  lemma FiltersStep(body: seq<byte>, pos: nat, done: seq<Str>)
    requires pos < |body|
    ensures var whole := Onto(done, DecodeFilters(body[pos..]));
            match DecodeFilter(body[pos..])
            case Ok((filter, k)) => whole == Onto(done + [filter], DecodeFilters(body[pos + k..]))
            case Err(e) => whole == Err(e)
  {
    var head := DecodeFilter(body[pos..]);
    if head.Ok? {
      assert body[pos..][head.value.1..] == body[pos + head.value.1..];
      OntoSnoc(done, head.value.0, DecodeFilters(body[pos + head.value.1..]));
    }
  }

  lemma NoFiltersLeft(done: seq<Str>)
    ensures Onto(done, DecodeFilters([])) == Ok(done)
  {
    OntoSnoc(done, [], Ok([]));
  }

  /** The loop over the payload, from position 2 to the end of the body. */
  method FilterList(body: seq<byte>) returns (r: Decoded<seq<Str>>)
    requires |body| >= 2
    ensures r == DecodeFilters(body[2..])
  {
    hide DecodeFilters, DecodeFilter, Onto;
    ghost var goal := DecodeFilters(body[2..]);
    var pos := 2;
    var topicFilters: seq<Str> := [];
    OntoSnoc([], [], goal);
    while pos < |body|
      invariant 2 <= pos <= |body|
      invariant goal == Onto(topicFilters, DecodeFilters(body[pos..]))
    {
      FiltersStep(body, pos, topicFilters);
      var turn := FilterTurn(body[pos..]);
      if turn.Err? {
        return Err(turn.error);
      }
      pos := pos + turn.value.1;
      topicFilters := topicFilters + [turn.value.0];
    }
    assert body[pos..] == [];
    NoFiltersLeft(topicFilters);
    return Ok(topicFilters);
  }

  method UnsubscribeLoop(body: seq<byte>) returns (r: Decoded<Packet>)
    ensures r == DecodeUnsubscribe(body)
  {
    hide DecodeFilters;
    if |body| < 2 {
      return Err(MalformedPayload(PacketIdTruncated));
    }
    var packetId := FromBe(body[0], body[1]);
    if 2 >= |body| {
      return Err(MalformedPayload(NoFilter));
    }
    var list := FilterList(body);
    if list.Err? {
      return Err(list.error);
    }
    return Ok(Unsubscribe(packetId, list.value));
  }
}
