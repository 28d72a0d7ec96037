/** blitzclient's own codec, and its agreement with the broker's in both directions. */
module Client {
  import opened Common
  import opened Errors
  import opened Utf8
  import opened Packets
  import opened RoundTrip
  import Codec
  import RemainingLength
  import Wire

  // ---- What the client writes ----

  /** The client's copy of the length encoder consumes its argument. */
  method EncodeLength(length: u32) returns (out: seq<byte>)
    ensures out == RemainingLength.Encode(length)
  {
    out := [];
    var len: nat := length;
    ghost var goal := RemainingLength.Encode(length);
    while true
      invariant out + RemainingLength.Encode(len) == goal
      decreases len
    {
      var encodedByte: byte := len % 128;
      var rest := len / 128;
      if rest > 0 {
        encodedByte := encodedByte + 128;
      }
      RemainingLength.EncodeStep(out, len, encodedByte);
      out := out + [encodedByte];
      len := rest;
      if len == 0 {
        break;
      }
    }
  }

  function MakePacket(packetType: byte, flags: byte, body: seq<byte>): seq<byte>
    requires packetType < 16
  {
    [packetType * 16 + flags % 16] + RemainingLength.Encode(Cast32(|body|)) + body
  }

  function EncodeConnect(clientId: Str, keepAlive: u16): seq<byte> {
    MakePacket(1, 0, EncodeString(MQTT) + [4] + [2] + ToBe(keepAlive) + EncodeString(clientId))
  }

  function EncodeSubscribe(packetId: u16, filter: Str, qos: byte): seq<byte> {
    MakePacket(8, 2, ToBe(packetId) + EncodeString(filter) + [qos % 4])
  }

  function EncodePublish(topic: Str, payload: seq<byte>, qos: byte, packetId: Option<u16>): seq<byte> {
    var id := if packetId.Some? then packetId.value else 1;
    MakePacket(3, qos % 4 * 2, EncodeString(topic) + (if qos > 0 then ToBe(id) else []) + payload)
  }

  function EncodeDisconnect(): seq<byte> {
    [14 * 16, 0]
  }

  /** The broker reads a client's CONNECT as the intended one, whatever follows, exactly when the client identifier
      fits a string field. */
  lemma BrokerReadsConnect(clientId: Str, keepAlive: u16, rest: seq<byte>)
    ensures var bytes := EncodeConnect(clientId, keepAlive);
            Codec.Decode(bytes + rest) == Ok((Connect(MQTT, 4, true, keepAlive, clientId), |bytes|)) <==>
            Wire.Text(clientId)
  {
    var p := Connect(MQTT, 4, true, keepAlive, clientId);
    assert EncodeString(MQTT) + [4] + [2] == EncodeString(MQTT) + [4, 2];
    assert EncodeConnect(clientId, keepAlive) == Codec.Encode(p);
    hide Codec.Decode, Codec.Encode, EncodeConnect;
    ReadAsIntended(p, rest);
  }

  lemma SameSubscribe(packetId: u16, filter: Str, qos: byte)
    ensures EncodeSubscribe(packetId, filter, qos) == Codec.Encode(Subscribe(packetId, [(filter, qos % 4)]))
    ensures |Codec.Body(Subscribe(packetId, [(filter, qos % 4)]))| <= RemainingLength.MAX
  {
    hide RemainingLength.Encode;
    var subs := [(filter, qos % 4)];
    assert subs[1..] == [];
    assert Codec.EncodeSubscriptions(subs) == EncodeString(filter) + [qos % 4] + [] == EncodeString(filter) + [qos % 4];
    assert ToBe(packetId) + EncodeString(filter) + [qos % 4] == ToBe(packetId) + (EncodeString(filter) + [qos % 4]);
  }

  /** Likewise SUBSCRIBE, exactly when the filter is legal and the QoS bits on the wire are not 3. */
  lemma BrokerReadsSubscribe(packetId: u16, filter: Str, qos: byte, rest: seq<byte>)
    ensures var bytes := EncodeSubscribe(packetId, filter, qos);
            Codec.Decode(bytes + rest) == Ok((Subscribe(packetId, [(filter, qos % 4)]), |bytes|)) <==>
            Wire.TopicFilter(filter) && qos % 4 != 3
  {
    hide Codec.Decode, Codec.Encode, EncodeSubscribe, LegalFilter, Wire.TopicFilter;
    Wire.LegalExactly(filter);
    SameSubscribe(packetId, filter, qos);
    var p := Subscribe(packetId, [(filter, qos % 4)]);
    assert LegalFields(p) <==> LegalFilter(filter) && qos % 4 != 3 by {
      var sub := p.subscriptions[0];
      assert LegalFields(p) ==> LegalFilter(sub.0) && sub.1 <= 2;
    }
    ReadAsIntended(p, rest);
  }

  lemma SamePublish(topic: Str, payload: seq<byte>, qos: byte, packetId: Option<u16>, id: Option<u16>)
    requires id == if qos == 0 then None else if packetId.Some? then packetId else Some(1)
    ensures EncodePublish(topic, payload, qos, packetId) ==
            Codec.Encode(Publish(PublishPacket(topic, payload, qos, false, id)))
  {
    hide EncodeString, RemainingLength.Encode;
  }

  /** Likewise PUBLISH, exactly when the topic is legal, the QoS is 0 or 1, and no identifier 0 is given at QoS 1.
      The identifier is dropped at QoS 0 and defaults to 1. */
  lemma BrokerReadsPublish(topic: Str, payload: seq<byte>, qos: byte, packetId: Option<u16>, rest: seq<byte>)
    requires |topic| + |payload| + 4 <= RemainingLength.MAX
    ensures var bytes := EncodePublish(topic, payload, qos, packetId);
            var id := if qos == 0 then None else if packetId.Some? then packetId else Some(1);
            Codec.Decode(bytes + rest) == Ok((Publish(PublishPacket(topic, payload, qos, false, id)), |bytes|)) <==>
            Wire.TopicName(topic) && qos <= 1 && (qos == 1 ==> packetId != Some(0))
  {
    Wire.LegalExactly(topic);
    var id: Option<u16> := if qos == 0 then None else if packetId.Some? then packetId else Some(1);
    var p := Publish(PublishPacket(topic, payload, qos, false, id));
    hide Codec.Decode, Codec.Encode, EncodePublish, LegalTopic, Wire.TopicName;
    SamePublish(topic, payload, qos, packetId, id);
    ReadAsIntended(p, rest);
  }

  /** A packet within the length limit is read back exactly when its fields are legal. */
  lemma ReadAsIntended(p: Packet, rest: seq<byte>)
    requires |Codec.Body(p)| <= RemainingLength.MAX
    ensures Codec.Decode(Codec.Encode(p) + rest) == Ok((p, |Codec.Encode(p)|)) <==> LegalFields(p)
  {
    hide Codec.Decode, Codec.Encode, LegalFields;
    if LegalFields(p) {
      WellFormedRoundTrip(p, rest);
    } else if Codec.Decode(Codec.Encode(p) + rest).Ok? {
      AcceptedWellFormed(Codec.Encode(p) + rest);
    }
  }

  lemma BrokerReadsDisconnect(rest: seq<byte>)
    ensures Codec.Decode(EncodeDisconnect() + rest) == Ok((Disconnect, 2))
  {
    assert Codec.Encode(Disconnect) == EncodeDisconnect();
    PacketRoundTrip(Disconnect, rest);
  }

  // ---- What the client reads ----

  datatype ReadError = StreamEnded | LengthTooLong | LengthTruncated

  /** The client's own length decoder: the broker's verdicts under its own names. */
  method DecodeLength(buf: seq<byte>) returns (r: Result<(u32, nat), ReadError>)
    ensures r == match RemainingLength.Decode(buf)
                 case Ok(v) => Ok(v)
                 case Err(Incomplete) => Err(LengthTruncated)
                 case Err(_) => Err(LengthTooLong)
  {
    var value: u32 := 0;
    var i := 0;
    while true
      invariant 0 <= i <= 4 && i <= |buf|
      invariant forall j :: 0 <= j < i ==> buf[j] >= 128
      invariant value == RemainingLength.Value(buf[..i])
      decreases 4 - i
    {
      if i >= 4 {
        return Err(LengthTooLong);
      }
      if i >= |buf| {
        return Err(LengthTruncated);
      }
      var b := buf[i];
      RemainingLength.ValueSnoc(buf[..i], b);
      assert buf[..i] + [b] == buf[..i + 1];
      RemainingLength.ValueBound(buf[..i + 1]);
      RemainingLength.PowersOf128();
      var multiplier: u32 := RemainingLength.Pow128(i);
      value := value + b % 128 * multiplier;
      i := i + 1;
      if b < 128 {
        break;
      }
    }
    return Ok((value, i));
  }

  datatype Received = Received(packetType: byte, flags: byte, body: seq<byte>, rest: seq<byte>)

  /** Framing as the broker does it: look at the whole buffer. */
  function Framed(stream: seq<byte>): Result<Received, ReadError> {
    if stream == [] then Err(StreamEnded)
    else
      match RemainingLength.Decode(stream[1..])
      case Err(Incomplete) => Err(StreamEnded)
      case Err(_) => Err(LengthTooLong)
      case Ok((len, k)) =>
        if |stream| < 1 + k + len then Err(StreamEnded)
        else Ok(Received(stream[0] / 16, stream[0] % 16, stream[1 + k..1 + k + len], stream[1 + k + len..]))
  }

  /** Only continuation bytes so far: the broker waits for more, or gives up after the fourth. */
  lemma FramedContinued(stream: seq<byte>, rl: seq<byte>)
    requires stream != [] && rl <= stream[1..] && |rl| <= 4 && forall j :: 0 <= j < |rl| ==> rl[j] >= 128
    ensures |rl| == 4 ==> Framed(stream) == Err(LengthTooLong)
    ensures |rl| < 4 && rl == stream[1..] ==> Framed(stream) == Err(StreamEnded)
  {
    assert forall j :: 0 <= j < |rl| ==> stream[1..][j] == rl[j];
  }

  /** A whole code word after the first byte: the broker has the length. */
  lemma FramedWord(stream: seq<byte>, rl: seq<byte>)
    requires stream != [] && RemainingLength.CodeWord(rl) && rl <= stream[1..]
    ensures RemainingLength.Decode(rl).Ok?
    ensures var len, pos := RemainingLength.Decode(rl).value.0, 1 + |rl|;
            Framed(stream) ==
            if |stream| < pos + len then Err(StreamEnded)
            else Ok(Received(stream[0] / 16, stream[0] % 16, stream[pos..pos + len], stream[pos + len..]))
  {
    var tail := stream[1..];
    assert rl + [] == rl && tail == rl + tail[|rl|..];
    RemainingLength.DecodeWord(rl, []);
    RemainingLength.DecodeWord(rl, tail[|rl|..]);
  }

  /** The loop that reads the length field a byte at a time. */
  method ReadLengthBytes(stream: seq<byte>) returns (r: Result<seq<byte>, ReadError>)
    requires stream != []
    ensures r.Ok? ==> RemainingLength.CodeWord(r.value) && r.value <= stream[1..]
    ensures r.Err? ==> Framed(stream) == Err(r.error)
  {
    hide Framed;
    var rl: seq<byte> := [];
    var pos := 1;
    while true
      invariant |rl| < 4 && pos == 1 + |rl| <= |stream| && rl <= stream[1..]
      invariant forall j :: 0 <= j < |rl| ==> rl[j] >= 128
      decreases 4 - |rl|
    {
      if pos >= |stream| {
        FramedContinued(stream, rl);
        return Err(StreamEnded);
      }
      var b := stream[pos];
      assert b == stream[1..][|rl|];
      pos := pos + 1;
      rl := rl + [b];
      if b < 128 {
        return Ok(rl);
      }
      if |rl| >= 4 {
        FramedContinued(stream, rl);
        return Err(LengthTooLong);
      }
    }
  }

  /** Framing as the client does it agrees with the broker's. */
  method ReadPacket(stream: seq<byte>) returns (r: Result<Received, ReadError>)
    ensures r == Framed(stream)
  {
    if |stream| < 1 {
      return Err(StreamEnded);
    }
    hide Framed, RemainingLength.Decode, RemainingLength.Value, RemainingLength.CodeWord;
    var packetType, flags := stream[0] / 16, stream[0] % 16;
    var rl := ReadLengthBytes(stream);
    if rl.Err? {
      return Err(rl.error);
    }
    FramedWord(stream, rl.value);
    var length := DecodeLength(rl.value);
    if length.Err? {
      return Err(LengthTruncated);
    }
    var pos, bodyLen := 1 + |rl.value|, length.value.0;
    if |stream| - pos < bodyLen {
      return Err(StreamEnded);
    }
    return Ok(Received(packetType, flags, stream[pos..pos + bodyLen], stream[pos + bodyLen..]));
  }

  function DecodeConnAckBody(body: seq<byte>): Option<(bool, byte)> {
    if |body| < 2 then None else Some((body[0] % 2 == 1, body[1]))
  }

  function DecodeSubAckBody(body: seq<byte>): Option<(u16, seq<byte>)> {
    if |body| < 3 then None else Some((FromBe(body[0], body[1]), body[2..]))
  }

  function DecodePubAckBody(body: seq<byte>): Option<u16> {
    if |body| < 2 then None else Some(FromBe(body[0], body[1]))
  }

  /** `decode_utf8_str`: a string field at a position, and where it ends. */
  function StringAt(buf: seq<byte>, pos: nat): Option<(Str, nat)> {
    if pos + 2 > |buf| then None
    else
      var end := pos + 2 + FromBe(buf[pos], buf[pos + 1]);
      if end > |buf| || !Valid(buf[pos + 2..end]) then None else Some((buf[pos + 2..end], end))
  }

  function DecodePublishBody(flags: byte, body: seq<byte>): Option<(Str, seq<byte>, byte, Option<u16>)> {
    var qos := flags / 2 % 4;
    match StringAt(body, 0)
    case None => None
    case Some((topic, pos)) =>
      if qos == 0 then Some((topic, body[pos..], qos, None))
      else if pos + 2 > |body| || FromBe(body[pos], body[pos + 1]) == 0 then None
      else Some((topic, body[pos + 2..], qos, Some(FromBe(body[pos], body[pos + 1]))))
  }

  lemma TypeAndBody(p: Packet)
    requires |Codec.Body(p)| <= RemainingLength.MAX
    ensures var bytes := Codec.Encode(p);
            && |bytes| > |Codec.Body(p)| && bytes[0] == 16 * Codec.PacketType(p) + Codec.Flags(p)
            && Codec.Body(p) == bytes[|bytes| - |Codec.Body(p)|..]
  {
    hide Codec.Frame, RemainingLength.Encode, Codec.Body, Codec.PacketType, Codec.Flags;
    FrameLength(Codec.PacketType(p), Codec.Flags(p), Codec.Body(p));
  }

  /** The client's framing takes exactly one packet of the broker off a longer stream. */
  lemma ClientFrames(p: Packet, rest: seq<byte>)
    requires |Codec.Body(p)| <= RemainingLength.MAX
    ensures Framed(Codec.Encode(p) + rest) ==
            Ok(Received(Codec.PacketType(p), Codec.Flags(p), Codec.Body(p), rest))
    ensures var bytes := Codec.Encode(p);
            && Codec.PacketType(p) == bytes[0] / 16 && Codec.Flags(p) == bytes[0] % 16
            && |Codec.Body(p)| < |bytes| && Codec.Body(p) == bytes[|bytes| - |Codec.Body(p)|..]
  {
    TypeAndBody(p);
    hide Codec.Body, Codec.Flags, Codec.PacketType;
    FrameBytes(Codec.PacketType(p), Codec.Flags(p), Codec.Body(p), rest);
    assert (Codec.Encode(p) + rest)[|Codec.Encode(p)|..] == rest;
  }

  /** The client gives up exactly on a length field that does not end within four bytes, and runs out of stream exactly
      where the broker would wait. */
  lemma FramingFails(stream: seq<byte>)
    ensures Framed(stream) == Err(LengthTooLong) <==> |stream| >= 5 && forall i :: 1 <= i < 5 ==> stream[i] >= 128
    ensures Framed(stream) == Err(StreamEnded) <==> Codec.Decode(stream) == Err(Incomplete)
  {
    hide Codec.DecodeBody;
    if stream != [] {
      var tail := stream[1..];
      assert forall j :: 0 <= j < |tail| ==> tail[j] == stream[j + 1];
      assert |stream| >= 5 ==>
          tail[0] == stream[1] && tail[1] == stream[2] && tail[2] == stream[3] && tail[3] == stream[4];
      var header := RemainingLength.Decode(tail);
      if header.Ok? {
        var (len, k) := header.value;
        BodyNeverIncomplete(stream[0] / 16, stream[0] % 16,
                            if |stream| < 1 + k + len then [] else stream[1 + k..1 + k + len]);
      }
    }
  }

  /** UNSUBACK, which the client knows by its type and leaves undecoded. */
  lemma ClientFramesUnsubAck(id: u16, rest: seq<byte>)
    ensures Framed(Codec.Encode(UnsubAck(id)) + rest) == Ok(Received(11, 0, [id / 256, id % 256], rest))
  {
    hide Framed;
    ClientFrames(UnsubAck(id), rest);
    Wire.AnswerBytes(id, false, Accepted);
  }

  // ---- The client's body decoders, for every body ----

  lemma AnswersExactly(body: seq<byte>, present: bool, code: byte, id: u16, codes: seq<byte>)
    ensures DecodeConnAckBody(body) == Some((present, code)) <==>
            |body| >= 2 && (present <==> body[0] % 2 == 1) && body[1] == code
    ensures DecodeSubAckBody(body) == Some((id, codes)) <==> codes != [] && body == [id / 256, id % 256] + codes
    ensures DecodePubAckBody(body) == Some(id) <==> |body| >= 2 && body[..2] == [id / 256, id % 256]
  {
    Wire.IdExactly(body, id, codes);
    if |body| >= 2 {
      BeRoundTrip(id, body[0], body[1]);
    }
  }

  /** PUBLISH, at any QoS: text, an identifier that is not zero exactly when the QoS is not, and the payload. */
  lemma PublishExactly(flags: byte, body: seq<byte>, topic: Str, payload: seq<byte>, qos: byte, id: Option<u16>)
    ensures DecodePublishBody(flags, body) == Some((topic, payload, qos, id)) <==>
            && Wire.Text(topic) && qos == flags / 2 % 4
            && match id
               case None => qos == 0 && body == Wire.Field(topic) + payload
               case Some(x) => qos > 0 && x != 0 && body == Wire.Field(topic) + Wire.Id(x) + payload
  {
    hide StringAt, Utf8.DecodeString, Valid, FromBe, Wire.Id;
    var pos := 2 + |topic|;
    StringAtFront(body);
    Wire.FieldExactly(body, topic, pos);
    if pos <= |body| {
      Wire.IdAt(body, pos, PublishPacket(topic, payload, qos, false, id));
      assert body == body[..pos] + body[pos..];
    }
    if |topic| <= 65_535 {
      Wire.FieldInFront(topic, payload);
      if id.Some? {
        Wire.FieldInFront(topic, Wire.Id(id.value) + payload);
        assert Wire.Field(topic) + Wire.Id(id.value) + payload == Wire.Field(topic) + (Wire.Id(id.value) + payload);
      }
    }
  }

  /** And its body decoders recover the fields of what the broker sends: CONNACK, SUBACK, PUBACK and PUBLISH. */
  lemma ClientReadsBody(p: Packet)
    ensures p.ConnAck? ==> DecodeConnAckBody(Codec.Body(p)) == Some((p.sessionPresent, p.returnCode.Byte()))
    ensures p.SubAck? ==>
        (DecodeSubAckBody(Codec.Body(p)) == Some((p.subAckId, p.returnCodes)) <==> p.returnCodes != [])
    ensures p.PubAck? ==> DecodePubAckBody(Codec.Body(p)) == Some(p.pubAckId)
    ensures p.Publish? && LegalPublish(p.publish) ==>
        DecodePublishBody(Codec.Flags(p), Codec.Body(p)) ==
        Some((p.publish.topic, p.publish.payload, p.publish.qos, p.publish.packetId))
  {
    match p
    case SubAck(id, codes) =>
      BeRoundTrip(id, 0, 0);
      assert Codec.Body(p)[2..] == codes;
    case PubAck(id) => BeRoundTrip(id, 0, 0);
    case Publish(publish) =>
      if LegalPublish(publish) {
        ClientReadsPublish(publish);
      }
    case _ =>
  }

  lemma StringAtFront(buf: seq<byte>)
    ensures StringAt(buf, 0) == match Utf8.DecodeString(buf) case Ok(v) => Some(v) case Err(_) => None
  {
  }

  lemma ClientReadsPublish(p: PublishPacket)
    requires LegalPublish(p)
    ensures DecodePublishBody(Codec.PublishFlags(p), Codec.PublishBody(p)) ==
            Some((p.topic, p.payload, p.qos, p.packetId))
  {
    hide Valid;
    PublishRoundTrip(p);
    StringAtFront(Codec.PublishBody(p));
    PublishFlagsRoundTrip(p);
  }
}
