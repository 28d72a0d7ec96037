/** Laws of the wire codec: round trips, normal forms, and stability under more input. */
module RoundTrip {
  import opened Common
  import opened Errors
  import opened Utf8
  import opened Topics
  import opened Packets
  import opened Codec
  import RemainingLength

  /** What a client can send and the length field can announce. */
  predicate WellFormed(p: Packet) {
    LegalFields(p) && |Body(p)| <= RemainingLength.MAX
  }

  // ---- Bodies ----

  /** One encoded item in front of others is decoded as that item. */
  lemma SubscriptionFirst(filter: Str, qos: byte, rest: seq<byte>)
    requires LegalFilter(filter) && qos <= 2
    ensures var bytes := EncodeString(filter) + [qos] + rest;
            && DecodeSubscription(bytes) == Ok(((filter, qos), 3 + |filter|))
            && 3 + |filter| <= |bytes| && bytes[3 + |filter|..] == rest
  {
    var bytes := EncodeString(filter) + [qos] + rest;
    assert bytes == EncodeString(filter) + ([qos] + rest);
    StringRoundTrip(filter, [qos] + rest);
    ValidateAccepts(filter);
  }

  lemma EncodeSubscriptionsCons(sub: (Str, byte), rest: seq<(Str, byte)>)
    ensures EncodeSubscriptions([sub] + rest) == EncodeString(sub.0) + [sub.1] + EncodeSubscriptions(rest)
  {
    assert ([sub] + rest)[1..] == rest;
  }

  lemma SubscriptionsFromFirst(b: seq<byte>, sub: (Str, byte), k: nat, rest: seq<(Str, byte)>)
    requires DecodeSubscription(b) == Ok((sub, k)) && DecodeSubscriptions(b[k..]) == Ok(rest)
    ensures DecodeSubscriptions(b) == Ok([sub] + rest)
  {
    hide DecodeSubscription;
  }

  lemma {:induction false} SubscriptionsRoundTrip(subs: seq<(Str, byte)>)
    requires forall i :: 0 <= i < |subs| ==> LegalFilter(subs[i].0) && subs[i].1 <= 2
    ensures DecodeSubscriptions(EncodeSubscriptions(subs)) == Ok(subs)
    ensures subs != [] ==> EncodeSubscriptions(subs) != []
  {
    if subs != [] {
      hide DecodeSubscription, DecodeSubscriptions, EncodeSubscriptions, EncodeString, LegalFilter;
      var rest := subs[1..];
      assert subs == [subs[0]] + rest;
      EncodeSubscriptionsCons(subs[0], rest);
      SubscriptionFirst(subs[0].0, subs[0].1, EncodeSubscriptions(rest));
      SubscriptionsRoundTrip(rest);
      SubscriptionsFromFirst(EncodeSubscriptions(subs), subs[0], 3 + |subs[0].0|, rest);
    }
  }

  lemma FilterFirst(filter: Str, rest: seq<byte>)
    requires LegalFilter(filter)
    ensures var bytes := EncodeString(filter) + rest;
            && DecodeFilter(bytes) == Ok((filter, 2 + |filter|))
            && 2 + |filter| <= |bytes| && bytes[2 + |filter|..] == rest
  {
    StringRoundTrip(filter, rest);
    ValidateAccepts(filter);
  }

  lemma EncodeFiltersCons(filter: Str, rest: seq<Str>)
    ensures EncodeFilters([filter] + rest) == EncodeString(filter) + EncodeFilters(rest)
  {
    assert ([filter] + rest)[1..] == rest;
  }

  lemma FiltersFromFirst(b: seq<byte>, filter: Str, k: nat, rest: seq<Str>)
    requires DecodeFilter(b) == Ok((filter, k)) && DecodeFilters(b[k..]) == Ok(rest)
    ensures DecodeFilters(b) == Ok([filter] + rest)
  {
    hide DecodeFilter;
  }

  lemma {:induction false} FiltersRoundTrip(filters: seq<Str>)
    requires forall i :: 0 <= i < |filters| ==> LegalFilter(filters[i])
    ensures DecodeFilters(EncodeFilters(filters)) == Ok(filters)
    ensures filters != [] ==> EncodeFilters(filters) != []
  {
    if filters != [] {
      hide DecodeFilter, DecodeFilters, EncodeFilters, EncodeString, LegalFilter;
      var rest := filters[1..];
      assert filters == [filters[0]] + rest;
      EncodeFiltersCons(filters[0], rest);
      FilterFirst(filters[0], EncodeFilters(rest));
      FiltersRoundTrip(rest);
      FiltersFromFirst(EncodeFilters(filters), filters[0], 2 + |filters[0]|, rest);
    }
  }

  /** The name, the four bytes after it and the rest of a CONNECT body. */
  lemma ConnectParts(name: seq<byte>, a: byte, b: byte, c: byte, d: byte, id: seq<byte>)
    requires |name| == 6
    ensures var body := name + [a, b] + [c, d] + id;
            && body == name + ([a, b, c, d] + id)
            && body[6] == a && body[7] == b && body[8] == c && body[9] == d
            && body[10..] == id
  {
  }

  lemma ConnectDecodes(body: seq<byte>, clean: bool, clientId: Str)
    requires |body| >= 10 && DecodeString(body) == Ok((MQTT, 6))
    requires body[6] == 4 && body[7] == if clean then 2 else 0
    requires DecodeString(body[10..]) == Ok((clientId, |body| - 10))
    ensures DecodeConnect(body) == Ok(Connect(MQTT, 4, clean, FromBe(body[8], body[9]), clientId))
  {
  }

  lemma ConnectRoundTrip(clean: bool, keepAlive: u16, clientId: Str)
    requires Encodable(clientId)
    ensures DecodeConnect(ConnectBody(MQTT, 4, clean, keepAlive, clientId)) ==
            Ok(Connect(MQTT, 4, clean, keepAlive, clientId))
  {
    AsciiValid(MQTT);
    var id := EncodeString(clientId);
    var flags := if clean then 2 else 0;
    var k := ToBe(keepAlive);
    BeRoundTrip(keepAlive, 0, 0);
    StringRoundTrip(MQTT, [4, flags, k[0], k[1]] + id);
    ConnectParts(EncodeString(MQTT), 4, flags, k[0], k[1], id);
    StringRoundTrip(clientId, []);
    assert id + [] == id;
    ConnectDecodes(ConnectBody(MQTT, 4, clean, keepAlive, clientId), clean, clientId);
  }

  lemma PublishFlagsRoundTrip(p: PublishPacket)
    requires p.qos <= 1
    ensures PublishFlags(p) / 2 % 4 == p.qos && (PublishFlags(p) % 2 == 1 <==> p.retain)
    ensures PublishFlags(p) < 16
  {
    assert p.qos == 0 || p.qos == 1;
  }

  lemma PublishRoundTrip(p: PublishPacket)
    requires LegalPublish(p)
    ensures DecodePublish(PublishFlags(p), PublishBody(p)) == Ok(Publish(p))
  {
    PublishFlagsRoundTrip(p);
    var flags := PublishFlags(p);
    var body := PublishBody(p);
    var pos := 2 + |p.topic|;
    if p.packetId.Some? {
      var id := ToBe(p.packetId.value);
      assert body == EncodeString(p.topic) + (id + p.payload);
      StringRoundTrip(p.topic, id + p.payload);
      BeRoundTrip(p.packetId.value, 0, 0);
      assert body[pos] == id[0] && body[pos + 1] == id[1];
      assert body[pos + 2..] == p.payload;
    } else {
      assert body == EncodeString(p.topic) + p.payload;
      StringRoundTrip(p.topic, p.payload);
      assert body[pos..] == p.payload;
    }
  }

  lemma BodyRoundTrip(p: Packet)
    requires LegalFields(p)
    ensures DecodeBody(PacketType(p), Flags(p), Body(p)) == Ok(p)
  {
    match p
    case Connect(_, _, clean, keepAlive, clientId) => ConnectRoundTrip(clean, keepAlive, clientId);
    case Subscribe(id, subs) =>
      SubscriptionsRoundTrip(subs);
      BeRoundTrip(id, 0, 0);
      assert Body(p)[2..] == EncodeSubscriptions(subs);
    case Unsubscribe(id, filters) =>
      FiltersRoundTrip(filters);
      BeRoundTrip(id, 0, 0);
      assert Body(p)[2..] == EncodeFilters(filters);
    case Publish(publish) => PublishRoundTrip(publish);
    case PubAck(id) => BeRoundTrip(id, 0, 0);
    case PingReq =>
    case Disconnect =>
  }

  lemma SubscriptionNormalForm(b: seq<byte>)
    requires DecodeSubscription(b).Ok?
    ensures var ((filter, qos), k) := DecodeSubscription(b).value;
            LegalFilter(filter) && qos <= 2 && EncodeString(filter) + [qos] == b[..k]
  {
    var ((filter, qos), k) := DecodeSubscription(b).value;
    StringNormalForm(b);
    ValidateAccepts(filter);
  }

  lemma DecodeSubscriptionsCons(b: seq<byte>)
    requires b != [] && DecodeSubscriptions(b).Ok?
    ensures DecodeSubscription(b).Ok?
    ensures var (sub, k) := DecodeSubscription(b).value;
            DecodeSubscriptions(b[k..]).Ok? && DecodeSubscriptions(b).value == [sub] + DecodeSubscriptions(b[k..]).value
  {
    hide DecodeSubscription;
  }

  lemma {:induction false} SubscriptionsNormalForm(b: seq<byte>)
    requires DecodeSubscriptions(b).Ok?
    ensures var subs := DecodeSubscriptions(b).value;
            && EncodeSubscriptions(subs) == b
            && (b != [] ==> subs != [])
            && forall i :: 0 <= i < |subs| ==> LegalFilter(subs[i].0) && subs[i].1 <= 2
    decreases |b|
  {
    if b != [] {
      hide DecodeSubscription, DecodeSubscriptions, EncodeSubscriptions, LegalFilter, EncodeString;
      DecodeSubscriptionsCons(b);
      var (sub, k) := DecodeSubscription(b).value;
      SubscriptionNormalForm(b);
      SubscriptionsNormalForm(b[k..]);
      EncodeSubscriptionsCons(sub, DecodeSubscriptions(b[k..]).value);
      assert b == b[..k] + b[k..];
    }
  }

  lemma FilterNormalForm(b: seq<byte>)
    requires DecodeFilter(b).Ok?
    ensures var (filter, k) := DecodeFilter(b).value;
            LegalFilter(filter) && EncodeString(filter) == b[..k]
  {
    StringNormalForm(b);
    ValidateAccepts(DecodeFilter(b).value.0);
  }

  lemma DecodeFiltersCons(b: seq<byte>)
    requires b != [] && DecodeFilters(b).Ok?
    ensures DecodeFilter(b).Ok?
    ensures var (filter, k) := DecodeFilter(b).value;
            DecodeFilters(b[k..]).Ok? && DecodeFilters(b).value == [filter] + DecodeFilters(b[k..]).value
  {
    hide DecodeFilter;
  }

  lemma {:induction false} FiltersNormalForm(b: seq<byte>)
    requires DecodeFilters(b).Ok?
    ensures var filters := DecodeFilters(b).value;
            && EncodeFilters(filters) == b
            && (b != [] ==> filters != [])
            && forall i :: 0 <= i < |filters| ==> LegalFilter(filters[i])
    decreases |b|
  {
    if b != [] {
      hide DecodeFilter, DecodeFilters, EncodeFilters, LegalFilter, EncodeString;
      DecodeFiltersCons(b);
      var (filter, k) := DecodeFilter(b).value;
      FilterNormalForm(b);
      FiltersNormalForm(b[k..]);
      EncodeFiltersCons(filter, DecodeFilters(b[k..]).value);
      assert b == b[..k] + b[k..];
    }
  }

  lemma ConnectNormalForm(body: seq<byte>)
    requires DecodeConnect(body).Ok?
    ensures var p := DecodeConnect(body).value;
            p.Connect? && LegalFields(p) && |Body(p)| == |body|
  {
    var p := DecodeConnect(body).value;
    var pos := DecodeString(body).value.1;
    StringNormalForm(body);
    StringNormalForm(body[pos + 4..]);
    StringRoundTrip(p.protocolName, []);
    StringRoundTrip(p.clientId, []);
  }

  lemma PublishNormalForm(flags: byte, body: seq<byte>)
    requires DecodePublish(flags, body).Ok?
    ensures var p := DecodePublish(flags, body).value;
            p.Publish? && LegalPublish(p.publish) && PublishBody(p.publish) == body
  {
    StringNormalForm(body);
    var p := DecodePublish(flags, body).value.publish;
    var pos := DecodeString(body).value.1;
    assert LegalPublish(p);
    PublishBytes(p, body, pos);
  }

  lemma PublishBytes(p: PublishPacket, body: seq<byte>, pos: nat)
    requires pos <= |body| && EncodeString(p.topic) == body[..pos]
    requires match p.packetId
             case None => p.payload == body[pos..]
             case Some(id) =>
               pos + 2 <= |body| && id == FromBe(body[pos], body[pos + 1]) && p.payload == body[pos + 2..]
    ensures PublishBody(p) == body
  {
    if p.packetId.Some? {
      BeRoundTrip(0, body[pos], body[pos + 1]);
      assert body[..pos + 2] == body[..pos] + [body[pos], body[pos + 1]];
    } else {
      assert body[..pos] + [] == body[..pos];
    }
  }

  /** An accepted body has legal fields, and re-encoding keeps its length. */
  lemma BodyNormalForm(packetType: byte, flags: byte, body: seq<byte>)
    requires DecodeBody(packetType, flags, body).Ok?
    ensures var p := DecodeBody(packetType, flags, body).value;
            LegalFields(p) && PacketType(p) == packetType && |Body(p)| == |body|
  {
    if packetType == CONNECT {
      ConnectNormalForm(body);
    } else if packetType == PUBLISH {
      PublishNormalForm(flags, body);
    } else if packetType == SUBSCRIBE {
      SubscriptionsNormalForm(body[2..]);
    } else if packetType == UNSUBSCRIBE {
      FiltersNormalForm(body[2..]);
    }
  }

  /** No body is ever "incomplete": only the framing asks for more bytes. */
  lemma BodyNeverIncomplete(packetType: byte, flags: byte, body: seq<byte>)
    ensures DecodeBody(packetType, flags, body) != Err(Incomplete)
  {
    if packetType == SUBSCRIBE && |body| > 2 {
      SubscriptionsDefects(body[2..]);
    }
    if packetType == UNSUBSCRIBE && |body| > 2 {
      FiltersDefects(body[2..]);
    }
  }

  /** What can be wrong with a list of filters. */
  predicate ListDefect(e: ProtocolError) {
    e.MalformedPayload? && e.defect in {FilterTruncated, EmptyFilter, HashNotAlone, HashNotLast, PlusNotAlone,
                                        QosMissing, QosOutOfRange}
  }

  lemma {:induction false} SubscriptionsDefects(b: seq<byte>)
    ensures DecodeSubscriptions(b).Err? ==> ListDefect(DecodeSubscriptions(b).error)
    decreases |b|
  {
    if b != [] {
      var field := DecodeString(b);
      if field.Ok? && Validate(field.value.0).Err? {
        ValidateReports(field.value.0);
      }
      var head := DecodeSubscription(b);
      if head.Ok? {
        SubscriptionsDefects(b[head.value.1..]);
      }
    }
  }

  lemma {:induction false} FiltersDefects(b: seq<byte>)
    ensures DecodeFilters(b).Err? ==> ListDefect(DecodeFilters(b).error)
    decreases |b|
  {
    if b != [] {
      var field := DecodeString(b);
      if field.Ok? && Validate(field.value.0).Err? {
        ValidateReports(field.value.0);
      }
      var head := DecodeFilter(b);
      if head.Ok? {
        FiltersDefects(b[head.value.1..]);
      }
    }
  }

  // ---- Whole packets ----

  lemma HeaderByte(packetType: byte, flags: byte)
    requires packetType < 16 && flags < 16
    ensures (packetType * 16 + flags % 16) / 16 == packetType
    ensures (packetType * 16 + flags % 16) % 16 == flags
  {
  }

  lemma FrameLength(packetType: byte, flags: byte, body: seq<byte>)
    requires packetType < 16 && |body| <= RemainingLength.MAX
    ensures Frame(packetType, flags, body) ==
            [packetType * 16 + flags % 16] + RemainingLength.Encode(|body|) + body
  {
    assert Cast32(|body|) == |body|;
  }

  lemma FrameParts(header: byte, word: seq<byte>, body: seq<byte>, rest: seq<byte>)
    ensures var buf := [header] + word + body + rest;
            var k := |word|;
            && buf[0] == header
            && buf[1..] == word + (body + rest)
            && buf[1 + k..1 + k + |body|] == body
  {
  }

  /** Where the parts of a frame lie. */
  lemma FrameBytes(packetType: byte, flags: byte, body: seq<byte>, rest: seq<byte>)
    requires packetType < 16 && flags < 16 && |body| <= RemainingLength.MAX
    ensures var buf := Frame(packetType, flags, body) + rest;
            var k := |RemainingLength.Encode(|body|)|;
            && |Frame(packetType, flags, body)| == 1 + k + |body|
            && buf[0] / 16 == packetType && buf[0] % 16 == flags
            && RemainingLength.Decode(buf[1..]) == Ok((|body|, k))
            && buf[1 + k..1 + k + |body|] == body
  {
    FrameLength(packetType, flags, body);
    HeaderByte(packetType, flags);
    FrameParts(packetType * 16 + flags % 16, RemainingLength.Encode(|body|), body, rest);
    RemainingLength.DecodeEncode(|body|, body + rest);
  }

  /** A framed body is decoded as that body, whatever follows the frame. */
  lemma FrameDecodes(packetType: byte, flags: byte, body: seq<byte>, rest: seq<byte>)
    requires packetType < 16 && flags < 16 && |body| <= RemainingLength.MAX
    ensures var frame := Frame(packetType, flags, body);
            Decode(frame + rest) ==
            match DecodeBody(packetType, flags, body)
            case Ok(p) => Ok((p, |frame|))
            case Err(e) => Err(e)
  {
    hide DecodeBody;
    FrameBytes(packetType, flags, body, rest);
  }

  /** A body over the limit is announced by a field of five bytes, which no decoder accepts. */
  lemma FrameTooLong(packetType: byte, flags: byte, body: seq<byte>, rest: seq<byte>)
    requires packetType < 16 && RemainingLength.MAX < |body| < 0x1_0000_0000
    ensures Decode(Frame(packetType, flags, body) + rest) == Err(InvalidRemainingLength)
  {
    var word := RemainingLength.Encode(|body|);
    RemainingLength.DecodeEncode(|body|, body + rest);
    assert (Frame(packetType, flags, body) + rest)[1..] == word + (body + rest);
  }

  /** A legal packet is read back from its encoding, whatever follows, exactly within the 28-bit limit. */
  lemma PacketRoundTrip(p: Packet, rest: seq<byte>)
    requires LegalFields(p) && |Body(p)| < 0x1_0000_0000
    ensures Decode(Encode(p) + rest) == Ok((p, |Encode(p)|)) <==> WellFormed(p)
  {
    if |Body(p)| <= RemainingLength.MAX {
      BodyRoundTrip(p);
      FrameDecodes(PacketType(p), Flags(p), Body(p), rest);
    } else {
      FrameTooLong(PacketType(p), Flags(p), Body(p), rest);
    }
  }

  lemma WellFormedRoundTrip(p: Packet, rest: seq<byte>)
    requires WellFormed(p)
    ensures Decode(Encode(p) + rest) == Ok((p, |Encode(p)|))
  {
    PacketRoundTrip(p, rest);
  }

  /** An accepted packet is well formed, and takes no more bytes when encoded again. */
  lemma AcceptedWellFormed(buf: seq<byte>)
    requires Decode(buf).Ok?
    ensures var (p, n) := Decode(buf).value;
            WellFormed(p) && |Encode(p)| <= n
  {
    hide DecodeBody, LegalFields, Body, Flags;
    var (p, n) := Decode(buf).value;
    var (len, k) := RemainingLength.Decode(buf[1..]).value;
    BodyNormalForm(buf[0] / 16, buf[0] % 16, buf[1 + k..n]);
    RemainingLength.UniqueShortest(buf[1..]);
    FrameLength(PacketType(p), Flags(p), Body(p));
  }

  /** Whatever is accepted is well formed, is never longer when encoded again, and then reads back the same. */
  lemma NormalForm(buf: seq<byte>, rest: seq<byte>)
    requires Decode(buf).Ok?
    ensures var (p, n) := Decode(buf).value;
            && WellFormed(p)
            && |Encode(p)| <= n
            && Decode(Encode(p) + rest) == Ok((p, |Encode(p)|))
  {
    AcceptedWellFormed(buf);
    PacketRoundTrip(Decode(buf).value.0, rest);
  }

  lemma AppendTail(a: seq<byte>, b: seq<byte>)
    requires a != []
    ensures (a + b)[0] == a[0] && (a + b)[1..] == a[1..] + b
  {
  }

  lemma AppendSlice(a: seq<byte>, b: seq<byte>, i: nat, j: nat)
    requires i <= j <= |a|
    ensures (a + b)[i..j] == a[i..j]
  {
  }

  /** Acceptance and fatal errors never change when more bytes arrive. */
  lemma Stable(buf: seq<byte>, more: seq<byte>)
    requires Decode(buf) != Err(Incomplete)
    ensures Decode(buf + more) == Decode(buf)
  {
    hide DecodeBody, RemainingLength.Decode;
    AppendTail(buf, more);
    RemainingLength.Stable(buf[1..], more);
    var header := RemainingLength.Decode(buf[1..]);
    if header.Ok? {
      AppendSlice(buf, more, 1 + header.value.1, 1 + header.value.1 + header.value.0);
    }
  }

  /** Every proper prefix of an accepted packet is incomplete. */
  lemma PrefixIncomplete(buf: seq<byte>, k: nat)
    requires Decode(buf).Ok? && k < Decode(buf).value.1
    ensures Decode(buf[..k]) == Err(Incomplete)
  {
    hide DecodeBody;
    var head := buf[..k];
    if k > 0 {
      var tail := buf[1..];
      var w := RemainingLength.Decode(tail).value.1;
      assert head[1..] == tail[..k - 1];
      if k - 1 < w {
        RemainingLength.PrefixIncomplete(tail, k - 1);
      } else {
        assert tail[..k - 1] == tail[..w] + tail[w..k - 1];
        RemainingLength.DecodeWord(tail[..w], tail[w..k - 1]);
      }
    }
  }

  // ---- Streams ----

  datatype Stream = Stream(packets: seq<Packet>, leftover: seq<byte>, error: Option<ProtocolError>)

  /** Decode packets off the front until the rest is incomplete or malformed. */
  function DecodeAll(buf: seq<byte>): Stream
    decreases |buf|
  {
    match Decode(buf)
    case Ok((p, n)) =>
      var rest := DecodeAll(buf[n..]);
      rest.(packets := [p] + rest.packets)
    case Err(Incomplete) => Stream([], buf, None)
    case Err(e) => Stream([], buf, Some(e))
  }

  function EncodeAll(ps: seq<Packet>): seq<byte> {
    if ps == [] then [] else Encode(ps[0]) + EncodeAll(ps[1..])
  }

  /** Any list of well-formed packets survives the wire, with nothing left over. */
  lemma {:induction false} StreamRoundTrip(ps: seq<Packet>)
    requires forall i :: 0 <= i < |ps| ==> WellFormed(ps[i])
    ensures DecodeAll(EncodeAll(ps)) == Stream(ps, [], None)
  {
    if ps != [] {
      var rest := EncodeAll(ps[1..]);
      PacketRoundTrip(ps[0], rest);
      assert EncodeAll(ps)[|Encode(ps[0])|..] == rest;
      StreamRoundTrip(ps[1..]);
      assert [ps[0]] + ps[1..] == ps;
    }
  }
}
