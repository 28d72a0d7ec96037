/** What a client can observe of its own connection: one matching answer per request, in order. */
module Transcripts {
  import opened Common
  import opened Errors
  import opened Sequences
  import opened Packets
  import opened RoundTrip
  import opened Session
  import Broker
  import Codec

  ghost function AsAnswer(): Effect -> Option<Packet> {
    (e: Effect) => if e.Answer? then Some(e.packet) else None
  }

  /** The packets a reader puts on its connection's own queue. */
  ghost function Answers(effects: seq<Effect>): seq<Packet> {
    FilterMap(AsAnswer(), effects)
  }

  predicate NeedsAnswer(p: Packet) {
    p.Connect? || p.Subscribe? || p.Unsubscribe? || p.PingReq? || (p.Publish? && p.publish.qos == 1)
  }

  ghost function Needing(): Packet -> bool {
    (p: Packet) => NeedsAnswer(p)
  }

  /** `r` is the answer that MQTT 3.1.1 wants for `p`: the same packet identifier, one return code per filter. */
  predicate AnsweredBy(p: Packet, r: Packet) {
    match p
    case Connect(_, _, _, _, _) => r == ConnAck(false, Accepted)
    case Subscribe(id, subs) =>
      && r.SubAck? && r.subAckId == id && |r.returnCodes| == |subs|
      && forall i :: 0 <= i < |subs| ==> r.returnCodes[i] == 0
    case Unsubscribe(id, _) => r == UnsubAck(id)
    case Publish(publish) => r.PubAck? && publish.packetId == Some(r.pubAckId)
    case PingReq => r == PingResp
    case _ => false
  }

  lemma LastAnswers(before: seq<Effect>, e: Effect)
    requires e.Answer? && forall x :: x in before ==> !x.Answer?
    ensures Answers(before + [e]) == [e.packet]
  {
    FilterMapNone(AsAnswer(), before);
    FilterMapSnoc(AsAnswer(), before, e);
  }

  lemma NoAnswer(effects: seq<Effect>)
    requires forall e :: e in effects ==> !e.Answer?
    ensures Answers(effects) == []
  {
    FilterMapNone(AsAnswer(), effects);
  }

  lemma PublishAnswers(id: ConnId, publish: PublishPacket)
    requires LegalPublish(publish)
    ensures var a := Answers(Handled(id, Publish(publish)));
            if publish.qos == 1 then a == [PubAck(publish.packetId.value)] else a == []
  {
    hide Answers;
    var send := Send(Broker.Publish(id, publish));
    if publish.qos == 1 {
      var ack := Answer(PubAck(publish.packetId.value));
      LastAnswers([], ack);
      assert [] + [ack] == [ack] && Handled(id, Publish(publish)) == [ack] + [send];
      AnswersThenSend([ack], send);
    } else {
      assert Handled(id, Publish(publish)) == [send];
      NoAnswer([send]);
    }
  }

  lemma AnswersThenSend(before: seq<Effect>, e: Effect)
    requires !e.Answer?
    ensures Answers(before + [e]) == Answers(before)
  {
    FilterMapSnoc(AsAnswer(), before, e);
    assert Answers(before) + [] == Answers(before);
  }

  /** The answers to one packet: exactly one that matches, or none. */
  ghost predicate AnswersTo(p: Packet, a: seq<Packet>) {
    if NeedsAnswer(p) then |a| == 1 && AnsweredBy(p, a[0]) else a == []
  }

  lemma HandledAnswers(id: ConnId, p: Packet)
    requires LegalFields(p)
    ensures AnswersTo(p, Answers(Handled(id, p)))
  {
    hide Answers;
    match p
    case Connect(_, _, _, _, clientId) =>
      LastAnswers([Send(Broker.Register(id, clientId))], Answer(ConnAck(false, Accepted)));
      assert Handled(id, p) == [Send(Broker.Register(id, clientId))] + [Answer(ConnAck(false, Accepted))];
    case Subscribe(packetId, subs) =>
      LastAnswers(SubscribeAll(id, subs), Answer(SubAck(packetId, Zeros(|subs|))));
    case Unsubscribe(packetId, filters) => LastAnswers(UnsubscribeAll(id, filters), Answer(UnsubAck(packetId)));
    case Publish(publish) => PublishAnswers(id, publish);
    case PingReq =>
      LastAnswers([], Answer(PingResp));
      assert [] + [Answer(PingResp)] == [Answer(PingResp)];
    case _ => NoAnswer(Handled(id, p));
  }

  /** `a` answers the requests of `q` one by one. */
  ghost predicate AllAnswered(q: seq<Packet>, a: seq<Packet>) {
    |a| == |q| && forall i :: 0 <= i < |q| ==> AnsweredBy(q[i], a[i])
  }

  lemma AllAnsweredSnoc(q: seq<Packet>, a: seq<Packet>, p: Packet, more: seq<Packet>)
    requires AllAnswered(q, a) && AnswersTo(p, more)
    ensures AllAnswered(q + if NeedsAnswer(p) then [p] else [], a + more)
  {
    hide AnsweredBy, NeedsAnswer;
  }

  /** The requests among some packets are answered one by one. */
  ghost predicate Answered(id: ConnId, packets: seq<Packet>) {
    AllAnswered(Filter(Needing(), packets), Answers(Transcript(id, packets)))
  }

  lemma AnsweredSnoc(id: ConnId, packets: seq<Packet>, p: Packet)
    requires Answered(id, packets) && LegalFields(p)
    ensures Answered(id, packets + [p])
  {
    hide Handled, AllAnswered, AnswersTo, LegalFields, Transcript;
    HandledAnswers(id, p);
    TranscriptSnoc(id, packets, p);
    FilterMapAppend(AsAnswer(), Transcript(id, packets), Handled(id, p));
    AllAnsweredSnoc(Filter(Needing(), packets), Answers(Transcript(id, packets)), p, Answers(Handled(id, p)));
    FilterSnoc(Needing(), packets, p);
  }

  lemma {:induction false} TranscriptAnswers(id: ConnId, packets: seq<Packet>)
    requires forall i :: 0 <= i < |packets| ==> LegalFields(packets[i])
    ensures Answered(id, packets)
  {
    if packets != [] {
      hide Answered, LegalFields;
      var front, last := packets[..|packets| - 1], packets[|packets| - 1];
      TranscriptAnswers(id, front);
      AnsweredSnoc(id, front, last);
      assert packets == front + [last];
    }
  }

  /** Whatever is drained from a byte stream is well formed. */
  lemma {:induction false} DrainedWellFormed(buf: seq<byte>)
    ensures forall i :: 0 <= i < |Drain(buf).packets| ==> WellFormed(Drain(buf).packets[i])
    decreases |buf|
  {
    hide Codec.Decode, WellFormed;
    if Codec.Decode(buf).Ok? {
      AcceptedWellFormed(buf);
      DrainedWellFormed(buf[Codec.Decode(buf).value.1..]);
    }
  }

  /** For any bytes a client may send: its reader's own pushes are exactly one matching answer for each request that
      the bytes hold, in the order of the requests. */
  lemma OneAnswerPerRequest(id: ConnId, stream: seq<byte>)
    ensures var packets := Drain(stream).packets;
            AllAnswered(Filter(Needing(), packets), Answers(Whole(id, packets)))
  {
    hide AllAnswered, LegalFields, Drain;
    var packets := Drain(stream).packets;
    DrainedWellFormed(stream);
    assert forall i :: 0 <= i < |packets| ==> WellFormed(packets[i]) && LegalFields(packets[i]);
    TranscriptAnswers(id, packets);
    FilterMapAppend(AsAnswer(), Transcript(id, packets), Farewell(id));
    FilterMapNone(AsAnswer(), Farewell(id));
    assert Answers(Transcript(id, packets)) + [] == Answers(Transcript(id, packets));
  }

  /** A client that encodes packets is understood: the reader acts on exactly those packets, however they are cut. */
  lemma {:induction false} EncodedSessionDrains(ps: seq<Packet>)
    requires forall i :: 0 <= i < |ps| ==> WellFormed(ps[i]) && !ps[i].Disconnect?
    ensures Drain(EncodeAll(ps)) == Drained(ps, [], Waiting)
  {
    hide Codec.Decode, Codec.Encode, WellFormed;
    if ps == [] {
      assert Codec.Decode([]) == Err(Incomplete) by { DecodeNothing(); }
    } else {
      var rest := EncodeAll(ps[1..]);
      assert WellFormed(ps[0]);
      WellFormedRoundTrip(ps[0], rest);
      assert EncodeAll(ps)[|Codec.Encode(ps[0])|..] == rest;
      EncodedSessionDrains(ps[1..]);
      assert [ps[0]] + ps[1..] == ps;
    }
  }

  lemma DecodeNothing()
    ensures Codec.Decode([]) == Err(Incomplete)
  {
  }

  // ---- Broker messages ----

  /** The broker messages of one packet. */
  ghost predicate RequestsOf(id: ConnId, p: Packet, ms: seq<Broker.Msg>) {
    match p
    case Connect(_, _, _, _, clientId) => ms == [Broker.Register(id, clientId)]
    case Subscribe(_, subs) =>
      |ms| == |subs| && forall i :: 0 <= i < |subs| ==> ms[i] == Broker.Subscribe(id, subs[i].0)
    case Unsubscribe(_, filters) =>
      |ms| == |filters| && forall i :: 0 <= i < |filters| ==> ms[i] == Broker.Unsubscribe(id, filters[i])
    case Publish(publish) => ms == [Broker.Publish(id, publish)]
    case _ => ms == []
  }

  /** `ms` is the in-order expansion of the packets. */
  ghost predicate Expands(id: ConnId, packets: seq<Packet>, ms: seq<Broker.Msg>) {
    if packets == [] then ms == []
    else
      var front, last := packets[..|packets| - 1], packets[|packets| - 1];
      exists k :: 0 <= k <= |ms| && Expands(id, front, ms[..k]) && RequestsOf(id, last, ms[k..])
  }

  lemma {:induction false} AllSends(effects: seq<Effect>)
    requires forall i :: 0 <= i < |effects| ==> effects[i].Send?
    ensures |Sends(effects)| == |effects|
    ensures forall i :: 0 <= i < |effects| ==> Sends(effects)[i] == effects[i].msg
  {
    if effects != [] {
      AllSends(effects[..|effects| - 1]);
    }
  }

  lemma SendsThenAnswer(before: seq<Effect>, e: Effect)
    requires e.Answer?
    ensures Sends(before + [e]) == Sends(before)
  {
    FilterMapSnoc(AsSend(), before, e);
    assert Sends(before) + [] == Sends(before);
  }

  lemma HandledRequests(id: ConnId, p: Packet)
    ensures RequestsOf(id, p, Sends(Handled(id, p)))
  {
    hide Sends;
    match p
    case Connect(_, _, _, _, clientId) =>
      var send := [Send(Broker.Register(id, clientId))];
      AllSends(send);
      SendsThenAnswer(send, Answer(ConnAck(false, Accepted)));
      assert Handled(id, p) == send + [Answer(ConnAck(false, Accepted))];
    case Subscribe(packetId, subs) =>
      AllSends(SubscribeAll(id, subs));
      SendsThenAnswer(SubscribeAll(id, subs), Answer(SubAck(packetId, Zeros(|subs|))));
    case Unsubscribe(packetId, filters) =>
      AllSends(UnsubscribeAll(id, filters));
      SendsThenAnswer(UnsubscribeAll(id, filters), Answer(UnsubAck(packetId)));
    case Publish(publish) => PublishRequest(id, publish);
    case _ => NoRequest(id, p);
  }

  lemma PublishRequest(id: ConnId, publish: PublishPacket)
    ensures Sends(Handled(id, Publish(publish))) == [Broker.Publish(id, publish)]
  {
    var effects := Handled(id, Publish(publish));
    var ack := effects[..|effects| - 1];
    FilterMapNone(AsSend(), ack);
    assert effects == ack + [Send(Broker.Publish(id, publish))];
    FilterMapSnoc(AsSend(), ack, Send(Broker.Publish(id, publish)));
  }

  lemma NoRequest(id: ConnId, p: Packet)
    requires !(p.Connect? || p.Subscribe? || p.Unsubscribe? || p.Publish?)
    ensures Sends(Handled(id, p)) == []
  {
    FilterMapNone(AsSend(), Handled(id, p));
  }

  /** A reader's broker messages are the in-order expansion of its packets. */
  lemma {:induction false} TranscriptRequests(id: ConnId, packets: seq<Packet>)
    ensures Expands(id, packets, Sends(Transcript(id, packets)))
  {
    if packets != [] {
      hide Handled, RequestsOf;
      var front, last := packets[..|packets| - 1], packets[|packets| - 1];
      TranscriptRequests(id, front);
      HandledRequests(id, last);
      FilterMapAppend(AsSend(), Transcript(id, front), Handled(id, last));
      var ms, k := Sends(Transcript(id, packets)), |Sends(Transcript(id, front))|;
      assert ms[..k] == Sends(Transcript(id, front)) && ms[k..] == Sends(Handled(id, last));
    }
  }
}
