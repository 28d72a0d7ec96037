/** The wire format in plain bytes, after chapters 2 and 3 of MQTT 3.1.1, and the codec against it. */
module Wire {
  import opened Common
  import opened Errors
  import opened Sequences
  import opened Utf8
  import opened Topics
  import opened Packets
  import opened Codec
  import opened RoundTrip
  import RemainingLength

  // ---- Fields ----

  /** Section 1.5.3: the length, high byte first, and the bytes. */
  function Field(s: Str): seq<byte>
    requires |s| <= 65_535
  {
    [|s| / 256, |s| % 256] + s
  }

  /** Section 2.3.1: a packet identifier, high byte first. */
  function Id(x: u16): seq<byte> {
    [x / 256, x % 256]
  }

  predicate Text(s: Str) {
    |s| <= 65_535 && Valid(s)
  }

  predicate TopicName(t: Str) {
    Text(t) && t != [] && '+' as int !in t && '#' as int !in t
  }

  predicate TopicFilter(f: Str) {
    Text(f) && f != [] && WellPlaced(f)
  }

  lemma LegalExactly(s: Str)
    ensures LegalTopic(s) <==> TopicName(s)
    ensures LegalFilter(s) <==> TopicFilter(s)
  {
    WildcardExactly(s);
    Topics.ValidExactly(s);
  }

  /** A string field is read exactly when it is there, is complete and is text. */
  lemma FieldExactly(buf: seq<byte>, s: Str, n: nat)
    ensures DecodeString(buf) == Ok((s, n)) <==> Text(s) && n == 2 + |s| <= |buf| && buf[..n] == Field(s)
  {
    hide Valid;
    if DecodeString(buf) == Ok((s, n)) {
      StringNormalForm(buf);
      StringBytes(s);
    }
    if Text(s) && n == 2 + |s| <= |buf| && buf[..n] == Field(s) {
      StringRoundTrip(s, buf[n..]);
      assert buf == Field(s) + buf[n..];
    }
  }

  // ---- Bodies that a client can send ----

  /** Section 3.1.2.3: the bits for will, password and user name are refused, the others but clean session ignored. */
  predicate ConnectFlags(c: byte, clean: bool) {
    (clean <==> c / 2 % 2 == 1) && c / 4 % 2 == 0 && c / 64 % 2 == 0 && c / 128 % 2 == 0
  }

  predicate IsConnect(body: seq<byte>, clean: bool, keepAlive: u16, clientId: Str) {
    && Text(clientId) && |body| >= 10
    && body[..7] == [0, 4, 'M' as int, 'Q' as int, 'T' as int, 'T' as int, 4]
    && ConnectFlags(body[7], clean)
    && body[8..10] == Id(keepAlive)
    && body[10..] == Field(clientId)
  }

  /** Filters with their requested QoS, section 3.8.3. */
  function Subscriptions(subs: seq<(Str, byte)>): seq<byte>
    requires forall i :: 0 <= i < |subs| ==> |subs[i].0| <= 65_535
  {
    Flatten(seq(|subs|, i requires 0 <= i < |subs| => Field(subs[i].0) + [subs[i].1]))
  }

  /** Filters to drop, section 3.10.3. */
  function Filters(filters: seq<Str>): seq<byte>
    requires forall i :: 0 <= i < |filters| ==> |filters[i]| <= 65_535
  {
    Flatten(seq(|filters|, i requires 0 <= i < |filters| => Field(filters[i])))
  }

  predicate IsSubscribe(body: seq<byte>, id: u16, subs: seq<(Str, byte)>) {
    && subs != [] && (forall i :: 0 <= i < |subs| ==> TopicFilter(subs[i].0) && subs[i].1 <= 2)
    && body == Id(id) + Subscriptions(subs)
  }

  predicate IsUnsubscribe(body: seq<byte>, id: u16, filters: seq<Str>) {
    && filters != [] && (forall i :: 0 <= i < |filters| ==> TopicFilter(filters[i]))
    && body == Id(id) + Filters(filters)
  }

  /** Section 3.3: QoS in bits 1 and 2 of the flags, RETAIN in bit 0; bit 3, DUP, does not matter. */
  predicate IsPublish(flags: byte, body: seq<byte>, p: PublishPacket) {
    && TopicName(p.topic)
    && p.qos == flags / 2 % 4 && p.qos <= 1 && (p.retain <==> flags % 2 == 1)
    && match p.packetId
       case None => p.qos == 0 && body == Field(p.topic) + p.payload
       case Some(id) => p.qos == 1 && id != 0 && body == Field(p.topic) + Id(id) + p.payload
  }

  /** A body of the packet, with the type and flags of its fixed header. Flags matter for PUBLISH and PUBACK only. */
  ghost predicate IsBody(p: Packet, packetType: byte, flags: byte, body: seq<byte>) {
    match p
    case Connect(name, level, clean, keepAlive, clientId) =>
      && packetType == 1 && name == ['M' as int, 'Q' as int, 'T' as int, 'T' as int] && level == 4
      && IsConnect(body, clean, keepAlive, clientId)
    case Publish(publish) => packetType == 3 && IsPublish(flags, body, publish)
    case PubAck(id) => packetType == 4 && flags == 0 && id != 0 && body == Id(id)
    case Subscribe(id, subs) => packetType == 8 && IsSubscribe(body, id, subs)
    case Unsubscribe(id, filters) => packetType == 10 && IsUnsubscribe(body, id, filters)
    case PingReq => packetType == 12 && body == []
    case Disconnect => packetType == 14 && body == []
    case _ => false
  }

  // ---- The body decoders against that ----

  lemma ConnectHead(body: seq<byte>)
    requires |body| >= 10 && body[..7] == [0, 4, 'M' as int, 'Q' as int, 'T' as int, 'T' as int, 4]
    ensures DecodeString(body) == Ok((MQTT, 6)) && body[6] == 4
  {
    hide Valid;
    AsciiValid(MQTT);
    assert body[..6] == body[..7][..6] == Field(MQTT);
    assert body[6] == body[..7][6];
    FieldExactly(body, MQTT, 6);
  }

  /** Bytes 6 to 9 and what follows, once the name has been read. */
  lemma ConnectRest(body: seq<byte>, clean: bool, keepAlive: u16, clientId: Str)
    requires DecodeString(body) == Ok((MQTT, 6))
    ensures DecodeConnect(body) == Ok(Connect(MQTT, 4, clean, keepAlive, clientId)) <==>
            && |body| >= 10 && body[6] == 4 && ConnectFlags(body[7], clean)
            && body[8] == keepAlive / 256 && body[9] == keepAlive % 256
            && DecodeString(body[10..]) == Ok((clientId, |body| - 10))
  {
    hide DecodeString;
    if |body| >= 10 {
      BeRoundTrip(keepAlive, body[8], body[9]);
    }
  }

  lemma ConnectExactly(body: seq<byte>, clean: bool, keepAlive: u16, clientId: Str)
    ensures DecodeConnect(body) == Ok(Connect(MQTT, 4, clean, keepAlive, clientId)) <==>
            IsConnect(body, clean, keepAlive, clientId)
  {
    hide DecodeString, Valid;
    if |body| >= 10 {
      FieldExactly(body[10..], clientId, |body| - 10);
      assert body[10..][..|body| - 10] == body[10..];
    }
    if IsConnect(body, clean, keepAlive, clientId) {
      ConnectHead(body);
      assert body[8..10][0] == body[8] && body[8..10][1] == body[9];
      ConnectRest(body, clean, keepAlive, clientId);
    }
    if DecodeConnect(body) == Ok(Connect(MQTT, 4, clean, keepAlive, clientId)) {
      NameFirst(body);
      ConnectRest(body, clean, keepAlive, clientId);
      FieldExactly(body, MQTT, 6);
      assert body[..7] == body[..6] + [4];
    }
  }

  lemma NameFirst(body: seq<byte>)
    requires DecodeConnect(body).Ok?
    ensures DecodeString(body) == Ok((MQTT, 6))
    ensures DecodeConnect(body).value.Connect?
    ensures DecodeConnect(body).value.protocolName == MQTT && DecodeConnect(body).value.protocolLevel == 4
  {
    hide Valid;
    assert DecodeString(body).Ok? && DecodeString(body).value.1 == 2 + |DecodeString(body).value.0|;
  }

  lemma FlattenSnoc<T>(pieces: seq<seq<T>>, last: seq<T>)
    ensures Flatten(pieces + [last]) == Flatten(pieces) + last
  {
    assert (pieces + [last])[..|pieces|] == pieces;
  }

  lemma {:induction false} FlattenCons<T>(first: seq<T>, rest: seq<seq<T>>)
    ensures Flatten([first] + rest) == first + Flatten(rest)
    decreases |rest|
  {
    if rest == [] {
      FlattenSnoc([], first);
      assert [] + [first] == [first] + rest;
    } else {
      hide Flatten;
      var front, last := rest[..|rest| - 1], rest[|rest| - 1];
      FlattenCons(first, front);
      FlattenSnoc([first] + front, last);
      FlattenSnoc(front, last);
      assert [first] + rest == ([first] + front) + [last] && rest == front + [last];
    }
  }

  lemma {:induction false} SubscriptionsWritten(subs: seq<(Str, byte)>)
    requires forall i :: 0 <= i < |subs| ==> |subs[i].0| <= 65_535
    ensures EncodeSubscriptions(subs) == Subscriptions(subs)
  {
    if subs != [] {
      hide EncodeString, Flatten;
      var rest := subs[1..];
      SubscriptionsWritten(rest);
      StringBytes(subs[0].0);
      var pieces := seq(|rest|, i requires 0 <= i < |rest| => Field(rest[i].0) + [rest[i].1]);
      FlattenCons(Field(subs[0].0) + [subs[0].1], pieces);
      assert seq(|subs|, i requires 0 <= i < |subs| => Field(subs[i].0) + [subs[i].1]) ==
             [Field(subs[0].0) + [subs[0].1]] + pieces;
    }
  }

  lemma {:induction false} FiltersWritten(filters: seq<Str>)
    requires forall i :: 0 <= i < |filters| ==> |filters[i]| <= 65_535
    ensures EncodeFilters(filters) == Filters(filters)
  {
    if filters != [] {
      hide EncodeString, Flatten;
      var rest := filters[1..];
      FiltersWritten(rest);
      StringBytes(filters[0]);
      var pieces := seq(|rest|, i requires 0 <= i < |rest| => Field(rest[i]));
      FlattenCons(Field(filters[0]), pieces);
      assert seq(|filters|, i requires 0 <= i < |filters| => Field(filters[i])) == [Field(filters[0])] + pieces;
    }
  }

  lemma SubscriptionsExactly(b: seq<byte>, subs: seq<(Str, byte)>)
    ensures DecodeSubscriptions(b) == Ok(subs) <==>
            (forall i :: 0 <= i < |subs| ==> TopicFilter(subs[i].0) && subs[i].1 <= 2) && b == Subscriptions(subs)
  {
    hide DecodeSubscriptions, EncodeSubscriptions, Subscriptions, LegalFilter;
    forall i | 0 <= i < |subs|
      ensures LegalFilter(subs[i].0) <==> TopicFilter(subs[i].0)
    {
      LegalExactly(subs[i].0);
    }
    if DecodeSubscriptions(b) == Ok(subs) {
      SubscriptionsNormalForm(b);
      SubscriptionsWritten(subs);
    } else if (forall i :: 0 <= i < |subs| ==> TopicFilter(subs[i].0) && subs[i].1 <= 2) && b == Subscriptions(subs) {
      SubscriptionsRoundTrip(subs);
      SubscriptionsWritten(subs);
    }
  }

  lemma FiltersExactly(b: seq<byte>, filters: seq<Str>)
    ensures DecodeFilters(b) == Ok(filters) <==>
            (forall i :: 0 <= i < |filters| ==> TopicFilter(filters[i])) && b == Filters(filters)
  {
    hide DecodeFilters, EncodeFilters, Filters, LegalFilter;
    forall i | 0 <= i < |filters|
      ensures LegalFilter(filters[i]) <==> TopicFilter(filters[i])
    {
      LegalExactly(filters[i]);
    }
    if DecodeFilters(b) == Ok(filters) {
      FiltersNormalForm(b);
      FiltersWritten(filters);
    } else if (forall i :: 0 <= i < |filters| ==> TopicFilter(filters[i])) && b == Filters(filters) {
      FiltersRoundTrip(filters);
      FiltersWritten(filters);
    }
  }

  /** A packet identifier in front. */
  lemma IdExactly(body: seq<byte>, id: u16, rest: seq<byte>)
    ensures |body| >= 2 && FromBe(body[0], body[1]) == id && body[2..] == rest <==> body == Id(id) + rest
  {
    if |body| >= 2 {
      BeRoundTrip(id, body[0], body[1]);
      assert body == [body[0], body[1]] + body[2..];
    }
  }

  lemma SubscribeExactly(body: seq<byte>, id: u16, subs: seq<(Str, byte)>)
    ensures DecodeSubscribe(body) == Ok(Subscribe(id, subs)) <==> IsSubscribe(body, id, subs)
  {
    hide DecodeSubscriptions, Subscriptions, Valid, WellPlaced, FromBe, Id;
    SubscriptionsExactly(if |body| >= 2 then body[2..] else [], subs);
    NoSubscriptions();
    if |body| >= 2 {
      IdExactly(body, id, body[2..]);
    }
    if IsSubscribe(body, id, subs) {
      IdExactly(body, id, Subscriptions(subs));
      SomeSubscriptions(subs);
    }
  }

  lemma NoSubscriptions()
    ensures Subscriptions([]) == []
  {
  }

  lemma SomeSubscriptions(subs: seq<(Str, byte)>)
    requires subs != [] && forall i :: 0 <= i < |subs| ==> |subs[i].0| <= 65_535
    ensures Subscriptions(subs) != []
  {
  }

  lemma UnsubscribeExactly(body: seq<byte>, id: u16, filters: seq<Str>)
    ensures DecodeUnsubscribe(body) == Ok(Unsubscribe(id, filters)) <==> IsUnsubscribe(body, id, filters)
  {
    hide DecodeFilters, Filters, Valid, WellPlaced, FromBe, Id;
    FiltersExactly(if |body| >= 2 then body[2..] else [], filters);
    NoFilters();
    if |body| >= 2 {
      IdExactly(body, id, body[2..]);
    }
    if IsUnsubscribe(body, id, filters) {
      IdExactly(body, id, Filters(filters));
      SomeFilters(filters);
    }
  }

  lemma NoFilters()
    ensures Filters([]) == []
  {
  }

  lemma SomeFilters(filters: seq<Str>)
    requires filters != [] && forall i :: 0 <= i < |filters| ==> |filters[i]| <= 65_535
    ensures Filters(filters) != []
  {
  }

  /** The topic in front, and what the decoder makes of the rest. */
  lemma PublishRest(flags: byte, body: seq<byte>, p: PublishPacket)
    ensures DecodePublish(flags, body) == Ok(Publish(p)) <==>
            var pos := 2 + |p.topic|;
            && p.qos == flags / 2 % 4 && p.qos <= 1 && (p.retain <==> flags % 2 == 1)
            && DecodeString(body) == Ok((p.topic, pos)) && p.topic != [] && !IsWildcard(p.topic)
            && match p.packetId
               case None => p.qos == 0 && p.payload == body[pos..]
               case Some(id) =>
                 p.qos == 1 && id != 0 && |body| >= pos + 2 && id == FromBe(body[pos], body[pos + 1])
                 && p.payload == body[pos + 2..]
  {
    hide Valid;
  }

  lemma PublishExactly(flags: byte, body: seq<byte>, p: PublishPacket)
    ensures DecodePublish(flags, body) == Ok(Publish(p)) <==> IsPublish(flags, body, p)
  {
    hide DecodePublish, DecodeString, Valid, IsWildcard, FromBe, Id;
    var pos := 2 + |p.topic|;
    PublishRest(flags, body, p);
    FieldExactly(body, p.topic, pos);
    WildcardExactly(p.topic);
    if pos <= |body| {
      IdAt(body, pos, p);
      assert body == body[..pos] + body[pos..];
    }
    if |p.topic| <= 65_535 {
      FieldInFront(p.topic, p.payload);
      if p.packetId.Some? {
        FieldInFront(p.topic, Id(p.packetId.value) + p.payload);
        assert Field(p.topic) + Id(p.packetId.value) + p.payload == Field(p.topic) + (Id(p.packetId.value) + p.payload);
      }
    }
  }

  lemma FieldInFront(s: Str, rest: seq<byte>)
    requires |s| <= 65_535
    ensures var body := Field(s) + rest;
            |body| >= 2 + |s| && body[..2 + |s|] == Field(s) && body[2 + |s|..] == rest
  {
  }

  lemma IdAt(body: seq<byte>, pos: nat, p: PublishPacket)
    requires pos <= |body|
    ensures p.packetId.Some? ==>
        (|body| >= pos + 2 && p.packetId.value == FromBe(body[pos], body[pos + 1]) && p.payload == body[pos + 2..] <==>
         body[pos..] == Id(p.packetId.value) + p.payload)
  {
    if p.packetId.Some? {
      IdExactly(body[pos..], p.packetId.value, p.payload);
      assert |body| >= pos + 2 ==> body[pos..][2..] == body[pos + 2..];
    }
  }

  lemma PubAckExactly(flags: byte, body: seq<byte>, id: u16)
    ensures DecodePubAck(body) == Ok(PubAck(id)) <==> id != 0 && body == Id(id)
  {
    IdExactly(body, id, []);
    assert Id(id) + [] == Id(id);
    assert |body| == 2 ==> body[2..] == [];
  }

  /** What a body decoder accepts is of its own kind. */
  lemma KindOfBody(packetType: byte, flags: byte, body: seq<byte>)
    requires DecodeBody(packetType, flags, body).Ok?
    ensures match DecodeBody(packetType, flags, body).value
            case Connect(name, level, _, _, _) => packetType == 1 && name == MQTT && level == 4
            case Publish(_) => packetType == 3
            case PubAck(_) => packetType == 4 && flags == 0
            case Subscribe(_, _) => packetType == 8
            case Unsubscribe(_, _) => packetType == 10
            case PingReq => packetType == 12
            case Disconnect => packetType == 14
            case _ => false
  {
    hide DecodeString, DecodeSubscriptions, DecodeFilters;
  }

  lemma BodyExactly(p: Packet, packetType: byte, flags: byte, body: seq<byte>)
    ensures DecodeBody(packetType, flags, body) == Ok(p) <==> IsBody(p, packetType, flags, body)
  {
    hide DecodeConnect, DecodeSubscribe, DecodeUnsubscribe, DecodePublish, DecodePubAck, IsConnect, IsSubscribe,
         IsUnsubscribe, IsPublish, Id;
    if DecodeBody(packetType, flags, body).Ok? {
      KindOfBody(packetType, flags, body);
    }
    match p
    case Connect(_, _, clean, keepAlive, clientId) => ConnectExactly(body, clean, keepAlive, clientId);
    case Publish(publish) => PublishExactly(flags, body, publish);
    case PubAck(id) => PubAckExactly(flags, body, id);
    case Subscribe(id, subs) => SubscribeExactly(body, id, subs);
    case Unsubscribe(id, filters) => UnsubscribeExactly(body, id, filters);
    case _ =>
  }

  // ---- What is wrong with the others ----

  /** A string field: no length, fewer bytes than announced, or no text. */
  lemma FieldDefects(buf: seq<byte>)
    ensures DecodeString(buf) == Err(MalformedPayload(StringPrefixTruncated)) <==> |buf| < 2
    ensures DecodeString(buf) == Err(MalformedPayload(StringTooLong)) <==>
            2 <= |buf| < 2 + 256 * buf[0] as int + buf[1] as int
    ensures DecodeString(buf) == Err(MalformedPayload(InvalidUtf8)) <==>
            |buf| >= 2 && var n := 2 + 256 * buf[0] as int + buf[1] as int; n <= |buf| && !Valid(buf[2..n])
  {
    hide Valid;
  }

  /** CONNECT whose protocol name is in order: the first check that fails decides. */
  lemma ConnectDefects(body: seq<byte>)
    requires DecodeString(body) == Ok((MQTT, 6))
    ensures var r := DecodeConnect(body);
            && (r == Err(MalformedPayload(LevelTruncated)) <==> |body| == 6)
            && (r == Err(UnsupportedFeature(ProtocolLevel)) <==> |body| > 6 && body[6] != 4)
            && (r == Err(MalformedPayload(FlagsTruncated)) <==> |body| == 7 && body[6] == 4)
            && (r == Err(UnsupportedFeature(WillOrCredentials)) <==>
                |body| > 7 && body[6] == 4 && !ConnectFlags(body[7], body[7] / 2 % 2 == 1))
            && (r == Err(MalformedPayload(KeepAliveTruncated)) <==>
                7 < |body| < 10 && body[6] == 4 && ConnectFlags(body[7], body[7] / 2 % 2 == 1))
            && (|body| >= 10 && body[6] == 4 && ConnectFlags(body[7], body[7] / 2 % 2 == 1) ==>
                  var id := DecodeString(body[10..]);
                  && (r == Err(MalformedPayload(ClientIdTruncated)) <==> id.Err?)
                  && (r == Err(MalformedPayload(TrailingBytes)) <==> id.Ok? && id.value.1 < |body| - 10))
  {
    hide DecodeString;
  }

  /** CONNECT whose protocol name is not. */
  lemma ConnectNameDefects(body: seq<byte>)
    requires DecodeString(body) != Ok((MQTT, 6))
    ensures DecodeConnect(body) == match DecodeString(body)
                                   case Err(e) => Err(e)
                                   case Ok(_) => Err(MalformedPayload(ProtocolName))
  {
    hide Valid;
    assert DecodeString(body).Ok? ==> DecodeString(body).value.1 == 2 + |DecodeString(body).value.0|;
  }

  /** One filter with its QoS: a bad field, a filter that is not legal, no QoS, or one above 2. */
  lemma SubscriptionDefects(b: seq<byte>)
    ensures DecodeSubscription(b) == Err(MalformedPayload(FilterTruncated)) <==> DecodeString(b).Err?
    ensures DecodeString(b).Ok? ==>
              var (f, k) := DecodeString(b).value;
              && (Validate(f).Err? ==> DecodeSubscription(b) == Err(Validate(f).error))
              && (Validate(f).Ok? ==>
                    && (DecodeSubscription(b) == Err(MalformedPayload(QosMissing)) <==> k == |b|)
                    && (DecodeSubscription(b) == Err(MalformedPayload(QosOutOfRange)) <==> k < |b| && b[k] > 2))
  {
    hide DecodeString, Validate;
    if DecodeString(b).Ok? && Validate(DecodeString(b).value.0).Err? {
      ValidateReports(DecodeString(b).value.0);
    }
  }

  lemma FilterDefects(b: seq<byte>)
    ensures DecodeFilter(b) == Err(MalformedPayload(FilterTruncated)) <==> DecodeString(b).Err?
    ensures DecodeString(b).Ok? ==>
              var f := DecodeString(b).value.0;
              DecodeFilter(b).Err? <==> Validate(f).Err? && DecodeFilter(b) == Err(Validate(f).error)
  {
    hide DecodeString, Validate;
    if DecodeString(b).Ok? && Validate(DecodeString(b).value.0).Err? {
      ValidateReports(DecodeString(b).value.0);
    }
  }

  /** A list of filters fails with the defect of its first bad item, behind good ones. */
  lemma {:induction false} FirstBadSubscription(b: seq<byte>) returns (good: seq<(Str, byte)>, tail: seq<byte>)
    requires DecodeSubscriptions(b).Err?
    ensures forall i :: 0 <= i < |good| ==> |good[i].0| <= 65_535 && TopicFilter(good[i].0) && good[i].1 <= 2
    ensures b == Subscriptions(good) + tail && tail != []
    ensures DecodeSubscription(tail) == Err(DecodeSubscriptions(b).error)
    decreases |b|
  {
    hide DecodeSubscription, Subscriptions, TopicFilter;
    if DecodeSubscription(b).Err? {
      good, tail := [], b;
      NoSubscriptions();
    } else {
      var (sub, k) := DecodeSubscription(b).value;
      good, tail := FirstBadSubscription(b[k..]);
      SubscriptionTaken(b, good);
      good := [sub] + good;
      assert b == b[..k] + b[k..];
    }
  }

  /** A good item in front of good ones. */
  lemma SubscriptionTaken(b: seq<byte>, rest: seq<(Str, byte)>)
    requires DecodeSubscription(b).Ok? && forall i :: 0 <= i < |rest| ==> |rest[i].0| <= 65_535
    ensures var (sub, k) := DecodeSubscription(b).value;
            && TopicFilter(sub.0) && sub.1 <= 2
            && (forall i :: 0 <= i < |[sub] + rest| ==> |([sub] + rest)[i].0| <= 65_535)
            && Subscriptions([sub] + rest) == b[..k] + Subscriptions(rest)
  {
    hide DecodeSubscription, EncodeSubscriptions, Subscriptions, Valid, WellPlaced;
    var (sub, k) := DecodeSubscription(b).value;
    SubscriptionNormalForm(b);
    LegalExactly(sub.0);
    var all := [sub] + rest;
    forall i | 0 <= i < |all|
      ensures |all[i].0| <= 65_535
    {
      assert i > 0 ==> all[i] == rest[i - 1];
    }
    SubscriptionsWritten(all);
    SubscriptionsWritten(rest);
    EncodeSubscriptionsCons(sub, rest);
  }

  lemma {:induction false} FirstBadFilter(b: seq<byte>) returns (good: seq<Str>, tail: seq<byte>)
    requires DecodeFilters(b).Err?
    ensures forall i :: 0 <= i < |good| ==> |good[i]| <= 65_535 && TopicFilter(good[i])
    ensures b == Filters(good) + tail && tail != []
    ensures DecodeFilter(tail) == Err(DecodeFilters(b).error)
    decreases |b|
  {
    hide DecodeFilter, Filters, TopicFilter;
    if DecodeFilter(b).Err? {
      good, tail := [], b;
      NoFilters();
    } else {
      var (f, k) := DecodeFilter(b).value;
      good, tail := FirstBadFilter(b[k..]);
      FilterTaken(b, good);
      good := [f] + good;
      assert b == b[..k] + b[k..];
    }
  }

  lemma FilterTaken(b: seq<byte>, rest: seq<Str>)
    requires DecodeFilter(b).Ok? && forall i :: 0 <= i < |rest| ==> |rest[i]| <= 65_535
    ensures var (f, k) := DecodeFilter(b).value;
            && TopicFilter(f)
            && (forall i :: 0 <= i < |[f] + rest| ==> |([f] + rest)[i]| <= 65_535)
            && Filters([f] + rest) == b[..k] + Filters(rest)
  {
    hide DecodeFilter, EncodeFilters, Filters, Valid, WellPlaced;
    var (f, k) := DecodeFilter(b).value;
    FilterNormalForm(b);
    LegalExactly(f);
    var all := [f] + rest;
    forall i | 0 <= i < |all|
      ensures |all[i]| <= 65_535
    {
      assert i > 0 ==> all[i] == rest[i - 1];
    }
    FiltersWritten(all);
    FiltersWritten(rest);
    EncodeFiltersCons(f, rest);
  }

  /** SUBSCRIBE and UNSUBSCRIBE: no identifier, nothing behind it, or the defect of the list. */
  lemma ListDefects(body: seq<byte>)
    ensures |body| < 2 <==> DecodeSubscribe(body) == Err(MalformedPayload(PacketIdTruncated))
    ensures |body| == 2 <==> DecodeSubscribe(body) == Err(MalformedPayload(NoFilter))
    ensures |body| > 2 && DecodeSubscriptions(body[2..]).Err? ==>
              DecodeSubscribe(body) == Err(DecodeSubscriptions(body[2..]).error)
    ensures |body| < 2 <==> DecodeUnsubscribe(body) == Err(MalformedPayload(PacketIdTruncated))
    ensures |body| == 2 <==> DecodeUnsubscribe(body) == Err(MalformedPayload(NoFilter))
    ensures |body| > 2 && DecodeFilters(body[2..]).Err? ==>
              DecodeUnsubscribe(body) == Err(DecodeFilters(body[2..]).error)
  {
    hide DecodeSubscriptions, DecodeFilters;
    if |body| > 2 {
      SubscriptionsDefects(body[2..]);
      FiltersDefects(body[2..]);
    }
  }

  /** PUBLISH at QoS 0 and 1: a bad topic field, an empty topic, a wildcard, no identifier, or the identifier 0. */
  lemma PublishDefects(flags: byte, body: seq<byte>)
    requires flags / 2 % 4 <= 1
    ensures DecodePublish(flags, body) == Err(MalformedPayload(TopicTruncated)) <==> DecodeString(body).Err?
    ensures DecodeString(body).Ok? ==>
              var (t, pos) := DecodeString(body).value;
              var r, wild := DecodePublish(flags, body), '+' as int in t || '#' as int in t;
              && (r == Err(MalformedPayload(TopicEmpty)) <==> t == [])
              && (r == Err(MalformedPayload(TopicWildcard)) <==> wild)
              && (r == Err(MalformedPayload(PacketIdTruncated)) <==>
                  t != [] && !wild && flags / 2 % 4 == 1 && |body| < pos + 2)
              && (r == Err(MalformedPayload(PacketIdZero)) <==>
                  t != [] && !wild && flags / 2 % 4 == 1 && |body| >= pos + 2 && body[pos] == 0 && body[pos + 1] == 0)
  {
    hide DecodeString, IsWildcard;
    if DecodeString(body).Ok? {
      WildcardExactly(DecodeString(body).value.0);
    }
  }

  /** The packets of fixed size. */
  lemma FixedDefects(flags: byte, body: seq<byte>)
    ensures DecodeBody(4, flags, body) == Err(MalformedPayload(PubAckFlags)) <==> flags != 0
    ensures DecodeBody(4, 0, body) == Err(MalformedPayload(PubAckLength)) <==> |body| != 2
    ensures DecodeBody(4, 0, body) == Err(MalformedPayload(PacketIdZero)) <==> body == [0, 0]
    ensures DecodeBody(12, flags, body) == Err(MalformedPayload(PingReqBody)) <==> body != []
    ensures DecodeBody(14, flags, body) == Err(MalformedPayload(DisconnectBody)) <==> body != []
  {
  }

  // ---- Whole packets ----

  /** The `k` bytes behind the header byte announce a body of `len` bytes. */
  predicate LengthAt(bytes: seq<byte>, k: nat, len: int) {
    1 + k <= |bytes| && RemainingLength.Announces(bytes[1..1 + k], len)
  }

  /** The header byte, a length field of `k` bytes and a body of the announced length. */
  ghost predicate IsPacket(p: Packet, bytes: seq<byte>, k: nat) {
    && LengthAt(bytes, k, |bytes| - 1 - k)
    && IsBody(p, bytes[0] / 16, bytes[0] % 16, bytes[1 + k..])
  }

  lemma HeaderExactly(buf: seq<byte>, k: nat, len: nat)
    requires buf != []
    ensures RemainingLength.Decode(buf[1..]) == Ok((len, k)) <==>
            LengthAt(buf, k, len)
  {
    RemainingLength.DecodeExactly(buf[1..], len, k);
    if 1 + k <= |buf| {
      assert buf[1..][..k] == buf[1..1 + k];
    }
  }

  /** The decoder accepts exactly the packets of the format, wherever the buffer goes on, and takes exactly them. */
  lemma DecodeExactly(buf: seq<byte>, p: Packet, n: nat)
    ensures Decode(buf) == Ok((p, n)) <==> n <= |buf| && exists k: nat :: IsPacket(p, buf[..n], k)
  {
    hide RemainingLength.Decode, RemainingLength.Announces, DecodeBody, IsBody;
    if Decode(buf) == Ok((p, n)) {
      var (len, k) := RemainingLength.Decode(buf[1..]).value;
      HeaderExactly(buf, k, len);
      BodyExactly(p, buf[0] / 16, buf[0] % 16, buf[1 + k..n]);
      SameParts(buf, n, k);
      assert IsPacket(p, buf[..n], k);
    }
    if n <= |buf| {
      forall k: nat | IsPacket(p, buf[..n], k)
        ensures Decode(buf) == Ok((p, n))
      {
        SameParts(buf, n, k);
        HeaderExactly(buf, k, n - 1 - k);
        BodyExactly(p, buf[0] / 16, buf[0] % 16, buf[1 + k..n]);
      }
    }
  }

  lemma SameParts(buf: seq<byte>, n: nat, k: nat)
    requires 1 + k <= n <= |buf|
    ensures buf[..n][0] == buf[0] && buf[..n][1..1 + k] == buf[1..1 + k] && buf[..n][1 + k..] == buf[1 + k..n]
  {
  }

  lemma AllContinue(buf: seq<byte>)
    requires buf != []
    ensures var tail := buf[1..];
            (forall j :: 0 <= j < |tail| ==> tail[j] >= 128) <==> forall i :: 1 <= i < |buf| ==> buf[i] >= 128
  {
    var tail := buf[1..];
    assert forall j :: 0 <= j < |tail| ==> tail[j] == buf[j + 1];
    assert forall i :: 1 <= i < |buf| ==> buf[i] == tail[i - 1];
  }

  /** The decoder waits for more exactly when the length field is not complete, or the body not as long as announced. */
  lemma IncompleteExactly(buf: seq<byte>)
    ensures Decode(buf) == Err(Incomplete) <==>
            || buf == []
            || (|buf| <= 4 && forall i :: 1 <= i < |buf| ==> buf[i] >= 128)
            || exists k: nat, len: nat :: LengthAt(buf, k, len) && |buf| - 1 - k < len
  {
    hide RemainingLength.Announces, DecodeBody;
    if buf != [] {
      AllContinue(buf);
      var header := RemainingLength.Decode(buf[1..]);
      forall k: nat, len: nat
        ensures LengthAt(buf, k, len) <==> header == Ok((len, k))
      {
        HeaderExactly(buf, k, len);
      }
      if header.Ok? {
        var (len, k) := header.value;
        assert LengthAt(buf, k, len);
        BodyNeverIncomplete(buf[0] / 16, buf[0] % 16, if |buf| < 1 + k + len then [] else buf[1 + k..1 + k + len]);
      }
    }
  }

  lemma NameDefects(body: seq<byte>)
    requires DecodeString(body).Err?
    ensures DecodeString(body).error.MalformedPayload?
    ensures DecodeString(body).error.defect in {StringPrefixTruncated, StringTooLong, InvalidUtf8}
  {
    hide Valid;
  }

  /** The refusals that look at type and flags alone: packets of the other direction, types that the broker does not
      know, and PUBLISH at QoS 2 and 3. */
  ghost predicate RefusedAs(t: byte, flags: byte, e: ProtocolError) {
    || (t in {0, 5, 6, 7, 15} && e == UnknownPacketType(t))
    || (t == 2 && e == UnsupportedFeature(ConnAckFromClient))
    || (t == 9 && e == UnsupportedFeature(SubAckFromClient))
    || (t == 11 && e == UnsupportedFeature(UnsubAckFromClient))
    || (t == 13 && e == UnsupportedFeature(PingRespFromClient))
    || (t == 3 && flags / 2 % 4 == 2 && e == UnsupportedFeature(QosTwo))
    || (t == 3 && flags / 2 % 4 == 3 && e == MalformedPayload(PublishQosThree))
  }

  /** The errors that say so. */
  predicate TypeError(e: ProtocolError) {
    || e.UnknownPacketType?
    || (e.UnsupportedFeature? && e.feature in {ConnAckFromClient, SubAckFromClient, UnsubAckFromClient,
                                               PingRespFromClient, QosTwo})
    || e == MalformedPayload(PublishQosThree)
  }

  lemma Refusals(t: byte, flags: byte, body: seq<byte>, e: ProtocolError)
    requires t < 16 && flags < 16 && TypeError(e)
    ensures DecodeBody(t, flags, body) == Err(e) <==> RefusedAs(t, flags, e)
  {
    hide DecodeConnect, DecodeSubscribe, DecodeUnsubscribe, DecodePublish, DecodePubAck;
    if t == 1 {
      ConnectHasType(body, e);
    } else if t == 3 {
      PublishHasType(flags, body, e);
    } else if t == 4 {
      assert DecodePubAck(body) != Err(e) by { PubAckHasType(body, e); }
    } else if t == 8 || t == 10 {
      ListHasType(body, e);
    }
  }

  lemma ConnectHasType(body: seq<byte>, e: ProtocolError)
    requires TypeError(e)
    ensures DecodeConnect(body) != Err(e)
  {
    hide DecodeString;
    if DecodeString(body).Err? {
      NameDefects(body);
    }
  }

  lemma PublishHasType(flags: byte, body: seq<byte>, e: ProtocolError)
    requires TypeError(e) && flags < 16
    ensures DecodePublish(flags, body) == Err(e) <==> RefusedAs(3, flags, e)
  {
    hide DecodeString;
  }

  lemma PubAckHasType(body: seq<byte>, e: ProtocolError)
    requires TypeError(e)
    ensures DecodePubAck(body) != Err(e)
  {
  }

  lemma ListHasType(body: seq<byte>, e: ProtocolError)
    requires TypeError(e)
    ensures DecodeSubscribe(body) != Err(e) && DecodeUnsubscribe(body) != Err(e)
  {
    hide DecodeSubscriptions, DecodeFilters;
    if |body| > 2 {
      SubscriptionsDefects(body[2..]);
      FiltersDefects(body[2..]);
    }
  }

  lemma FramedFails(buf: seq<byte>, k: nat, len: nat, e: ProtocolError)
    requires buf != [] && RemainingLength.Decode(buf[1..]) == Ok((len, k)) && 1 + k + len <= |buf|
    ensures Decode(buf) == Err(e) <==> DecodeBody(buf[0] / 16, buf[0] % 16, buf[1 + k..1 + k + len]) == Err(e)
  {
    hide RemainingLength.Decode, DecodeBody;
  }

  /** A complete packet fails as its body does. */
  lemma CompleteFails(buf: seq<byte>, k: nat, len: nat, e: ProtocolError)
    requires LengthAt(buf, k, len) && 1 + k + len <= |buf|
    ensures Decode(buf) == Err(e) <==> DecodeBody(buf[0] / 16, buf[0] % 16, buf[1 + k..1 + k + len]) == Err(e)
  {
    HeaderExactly(buf, k, len);
    hide *;
    FramedFails(buf, k, len, e);
  }

  /** A complete packet is refused for its type with exactly these errors. */
  lemma RefusedTypes(buf: seq<byte>, k: nat, len: nat, e: ProtocolError)
    requires LengthAt(buf, k, len) && 1 + k + len <= |buf| && TypeError(e)
    ensures Decode(buf) == Err(e) <==> RefusedAs(buf[0] / 16, buf[0] % 16, e)
  {
    hide Decode, DecodeBody, RefusedAs, TypeError, RemainingLength.Announces;
    CompleteFails(buf, k, len, e);
    Refusals(buf[0] / 16, buf[0] % 16, buf[1 + k..1 + k + len], e);
  }

  /** DUP is read by nobody. */
  lemma DupIgnored(flags: byte, body: seq<byte>)
    ensures DecodePublish(flags, body) == DecodePublish(flags % 8, body)
  {
    assert flags % 8 / 2 % 4 == flags / 2 % 4 && flags % 8 % 2 == flags % 2;
  }

  // ---- What is written ----

  lemma LengthByte(body: seq<byte>)
    requires |body| < 128
    ensures RemainingLength.Encode(Cast32(|body|)) == [|body|]
  {
    RemainingLength.EncodeExactly(|body|);
  }

  /** The broker's answers, byte for byte. */
  lemma AnswerBytes(id: u16, present: bool, code: ReturnCode)
    ensures Encode(ConnAck(present, code)) ==
            [0x20, 2, if present then 1 else 0,
             match code
             case Accepted => 0
             case UnacceptableProtocolVersion => 1
             case IdentifierRejected => 2
             case ServerUnavailable => 3
             case BadUsernameOrPassword => 4
             case NotAuthorized => 5]
    ensures Encode(PubAck(id)) == [0x40, 2, id / 256, id % 256]
    ensures Encode(UnsubAck(id)) == [0xB0, 2, id / 256, id % 256]
    ensures Encode(PingResp) == [0xD0, 0]
  {
    LengthByte(Body(ConnAck(present, code)));
    LengthByte(Body(PubAck(id)));
    LengthByte(Body(UnsubAck(id)));
    LengthByte(Body(PingResp));
  }

  /** Packets without fields, as a client writes them. */
  lemma BareBytes()
    ensures Encode(PingReq) == [0xC0, 0]
    ensures Encode(Disconnect) == [0xE0, 0]
  {
    LengthByte([]);
  }

  /** The packets of any length: header byte, length field, body. `RemainingLength.EncodeExactly` gives the field. */
  lemma SubAckBytes(id: u16, codes: seq<byte>)
    requires |codes| + 2 <= RemainingLength.MAX
    ensures Encode(SubAck(id, codes)) == [0x90] + RemainingLength.Encode(2 + |codes|) + (Id(id) + codes)
  {
    var body := Id(id) + codes;
    SubAckParts(id, codes);
    hide *;
    FrameLength(9, 0, body);
    assert |body| == 2 + |codes| && 9 * 16 + 0 % 16 == 0x90;
  }

  lemma SubAckParts(id: u16, codes: seq<byte>)
    ensures Encode(SubAck(id, codes)) == Frame(9, 0, Id(id) + codes)
    ensures |Id(id) + codes| == 2 + |codes|
  {
    hide Frame;
  }

  lemma PublishBytes(p: PublishPacket)
    requires |p.topic| <= 65_535 && |p.topic| + |p.payload| + 4 <= RemainingLength.MAX
    ensures var body := Field(p.topic) + (if p.packetId.Some? then Id(p.packetId.value) else []) + p.payload;
            var header := 0x30 + 2 * (p.qos % 4) + if p.retain then 1 else 0;
            Encode(Publish(p)) == [header] + RemainingLength.Encode(|body|) + body
  {
    hide RemainingLength.Encode, EncodeString, Frame;
    StringBytes(p.topic);
    FlagsInHeader(p);
    FrameLength(3, PublishFlags(p), PublishBody(p));
  }

  lemma FlagsInHeader(p: PublishPacket)
    ensures PublishFlags(p) % 16 == 2 * (p.qos % 4) + if p.retain then 1 else 0
  {
  }

  lemma RequestBytes(id: u16, subs: seq<(Str, byte)>, filters: seq<Str>)
    requires forall i :: 0 <= i < |subs| ==> |subs[i].0| <= 65_535
    requires forall i :: 0 <= i < |filters| ==> |filters[i]| <= 65_535
    requires 2 + |Subscriptions(subs)| <= RemainingLength.MAX && 2 + |Filters(filters)| <= RemainingLength.MAX
    ensures Encode(Subscribe(id, subs)) ==
            [0x82] + RemainingLength.Encode(2 + |Subscriptions(subs)|) + (Id(id) + Subscriptions(subs))
    ensures Encode(Unsubscribe(id, filters)) ==
            [0xA2] + RemainingLength.Encode(2 + |Filters(filters)|) + (Id(id) + Filters(filters))
  {
    hide RemainingLength.Encode, EncodeSubscriptions, EncodeFilters, Subscriptions, Filters, Frame;
    SubscriptionsWritten(subs);
    FiltersWritten(filters);
    FrameLength(8, 2, Id(id) + Subscriptions(subs));
    FrameLength(10, 2, Id(id) + Filters(filters));
  }

  lemma ConnectBytes(name: Str, level: byte, clean: bool, keepAlive: u16, clientId: Str)
    requires |name| <= 65_535 && |clientId| <= 65_535
    ensures var body := Field(name) + [level, if clean then 2 else 0] + Id(keepAlive) + Field(clientId);
            Encode(Connect(name, level, clean, keepAlive, clientId)) ==
            [0x10] + RemainingLength.Encode(|body|) + body
  {
    hide RemainingLength.Encode, EncodeString, Frame;
    StringBytes(name);
    StringBytes(clientId);
    FrameLength(1, 0, ConnectBody(name, level, clean, keepAlive, clientId));
  }
}
