/** One connection: the reader that turns bytes into broker messages and answers. */
module Session {
  import opened Common
  import opened Errors
  import opened Sequences
  import opened Packets
  import opened Codec
  import opened RoundTrip
  import Broker

  type ConnId = Broker.ConnId

  /** What a reader does, in order: messages for the broker, packets for its own queue, closing that queue. */
  datatype Effect = Send(msg: Broker.Msg) | Answer(packet: Packet) | CloseQueue

  function SubscribeAll(id: ConnId, subs: seq<(Str, byte)>): seq<Effect> {
    seq(|subs|, i requires 0 <= i < |subs| => Send(Broker.Subscribe(id, subs[i].0)))
  }

  function UnsubscribeAll(id: ConnId, filters: seq<Str>): seq<Effect> {
    seq(|filters|, i requires 0 <= i < |filters| => Send(Broker.Unsubscribe(id, filters[i])))
  }

  function Zeros(n: nat): seq<byte> {
    seq(n, _ => 0)
  }

  /** What one packet makes the reader do. */
  function Handled(id: ConnId, p: Packet): seq<Effect> {
    match p
    case Connect(_, _, _, _, clientId) =>
      [Send(Broker.Register(id, clientId)), Answer(ConnAck(false, Accepted))]
    case Subscribe(packetId, subs) => SubscribeAll(id, subs) + [Answer(SubAck(packetId, Zeros(|subs|)))]
    case Unsubscribe(packetId, filters) => UnsubscribeAll(id, filters) + [Answer(UnsubAck(packetId))]
    case Publish(p) =>
      (if p.qos == 1 && p.packetId.Some? then [Answer(PubAck(p.packetId.value))] else [])
      + [Send(Broker.Publish(id, p))]
    case PingReq => [Answer(PingResp)]
    case _ => []
  }

  function Transcript(id: ConnId, packets: seq<Packet>): seq<Effect> {
    if packets == [] then []
    else Transcript(id, packets[..|packets| - 1]) + Handled(id, packets[|packets| - 1])
  }

  ghost function AsSend(): Effect -> Option<Broker.Msg> {
    (e: Effect) => if e.Send? then Some(e.msg) else None
  }

  /** The broker messages among a reader's effects. */
  ghost function Sends(effects: seq<Effect>): seq<Broker.Msg> {
    FilterMap(AsSend(), effects)
  }

  /** However a reader ends, it deregisters and closes its queue. */
  function Farewell(id: ConnId): seq<Effect> {
    [Send(Broker.Disconnect(id)), CloseQueue]
  }

  function Whole(id: ConnId, packets: seq<Packet>): seq<Effect> {
    Transcript(id, packets) + Farewell(id)
  }

  /** The connection is deregistered and then its queue closed, both once and both last. */
  predicate EndsOnce(effects: seq<Effect>, id: ConnId) {
    var n := |effects|;
    && n >= 2
    && effects[n - 1] == CloseQueue
    && effects[n - 2] == Send(Broker.Disconnect(id))
    && forall i :: 0 <= i < n - 2 ==> effects[i] != CloseQueue && !(effects[i].Send? && effects[i].msg.Disconnect?)
  }

  lemma HandledGoesOn(id: ConnId, p: Packet, e: Effect)
    requires e in Handled(id, p)
    ensures e != CloseQueue && !(e.Send? && e.msg.Disconnect?)
  {
  }

  lemma {:induction false} TranscriptGoesOn(id: ConnId, packets: seq<Packet>, e: Effect)
    requires e in Transcript(id, packets)
    ensures e != CloseQueue && !(e.Send? && e.msg.Disconnect?)
  {
    hide Handled;
    if packets != [] {
      var front, last := packets[..|packets| - 1], packets[|packets| - 1];
      if e in Transcript(id, front) {
        TranscriptGoesOn(id, front, e);
      } else {
        HandledGoesOn(id, last, e);
      }
    }
  }

  lemma WholeEndsOnce(id: ConnId, packets: seq<Packet>)
    ensures EndsOnce(Whole(id, packets), id)
  {
    hide Transcript;
    var body := Transcript(id, packets);
    forall i | 0 <= i < |body|
      ensures Whole(id, packets)[i] == body[i]
      ensures body[i] != CloseQueue && !(body[i].Send? && body[i].msg.Disconnect?)
    {
      TranscriptGoesOn(id, packets, body[i]);
    }
  }

  /** The broker hears of a CONNECT, SUBSCRIBE or UNSUBSCRIBE before the client is answered, and of a PUBLISH after. */
  lemma BrokerFirst(id: ConnId, p: Packet, i: nat, j: nat)
    requires i < j < |Handled(id, p)|
    ensures p.Publish? ==> Handled(id, p)[i].Answer? && Handled(id, p)[j].Send?
    ensures !p.Publish? ==> Handled(id, p)[i].Send?
    ensures !p.Publish? ==> (Handled(id, p)[j].Answer? <==> j == |Handled(id, p)| - 1)
  {
  }

  // ---- Draining a buffer ----

  datatype Fate = Waiting | Disconnected | Failed(error: ProtocolError)

  datatype Drained = Drained(packets: seq<Packet>, leftover: seq<byte>, fate: Fate)
  {
    /** The same, with packets taken earlier in front. */
    function Behind(earlier: seq<Packet>): Drained {
      this.(packets := earlier + packets)
    }

    /** The same, with bytes behind that were not looked at. */
    function Unread(more: seq<byte>): Drained {
      this.(leftover := leftover + more)
    }
  }

  lemma BehindTwice(a: seq<Packet>, b: seq<Packet>, d: Drained)
    ensures d.Behind([]) == d
    ensures d.Behind(b).Behind(a) == d.Behind(a + b)
  {
    assert [] + d.packets == d.packets;
    assert a + (b + d.packets) == (a + b) + d.packets;
  }

  lemma UnreadTwice(d: Drained, a: seq<byte>, b: seq<byte>)
    ensures d.Unread([]) == d
    ensures d.Unread(a).Unread(b) == d.Unread(a + b)
  {
    assert d.leftover + [] == d.leftover;
    assert (d.leftover + a) + b == d.leftover + (a + b);
  }

  /** The packets at the front of a byte stream, up to the first DISCONNECT or malformed packet. */
  function Drain(buf: seq<byte>): Drained
    decreases |buf|
  {
    match Decode(buf)
    case Ok((p, n)) =>
      if p.Disconnect? then Drained([p], buf[n..], Disconnected)
      else Drain(buf[n..]).Behind([p])
    case Err(Incomplete) => Drained([], buf, Waiting)
    case Err(e) => Drained([], buf, Failed(e))
  }

  /** One packet taken off the front. */
  lemma DrainStep(buf: seq<byte>)
    ensures var r := Decode(buf);
            Drain(buf) ==
            if r.Err? then Drained([], buf, if r.error == Incomplete then Waiting else Failed(r.error))
            else if r.value.0.Disconnect? then Drained([r.value.0], buf[r.value.1..], Disconnected)
            else Drain(buf[r.value.1..]).Behind([r.value.0])
  {
    hide Decode;
  }

  /** The packets up to and including the first DISCONNECT, and whether there is one. */
  function UpToDisconnect(packets: seq<Packet>): seq<Packet> {
    if packets == [] then []
    else if packets[0].Disconnect? then [packets[0]]
    else [packets[0]] + UpToDisconnect(packets[1..])
  }

  /** Draining is decoding the stream until it waits or breaks, but for what is behind a DISCONNECT. */
  lemma {:induction false} DrainFollowsStream(buf: seq<byte>)
    ensures var d, all := Drain(buf), DecodeAll(buf);
            && d.packets == UpToDisconnect(all.packets)
            && (d.fate == Disconnected <==> Disconnect in all.packets)
            && (d.fate != Disconnected ==>
                  d.leftover == all.leftover
                  && d.fate == if all.error.None? then Waiting else Failed(all.error.value))
    decreases |buf|
  {
    hide Decode;
    if Decode(buf).Ok? {
      var (p, n) := Decode(buf).value;
      DrainFollowsStream(buf[n..]);
      var rest := DecodeAll(buf[n..]);
      assert ([p] + rest.packets)[1..] == rest.packets;
    }
  }

  /** A stream goes on as long as there are packets; then it waits for bytes that are missing, or has a fatal error. */
  lemma {:induction false} StreamEnds(buf: seq<byte>)
    ensures var all := DecodeAll(buf);
            && (all.error == None <==> Decode(all.leftover) == Err(Incomplete))
            && (all.error.Some? ==> Decode(all.leftover) == Err(all.error.value) && all.error.value != Incomplete)
            && |all.leftover| <= |buf| && buf[|buf| - |all.leftover|..] == all.leftover
    decreases |buf|
  {
    hide Decode;
    if Decode(buf).Ok? {
      StreamEnds(buf[Decode(buf).value.1..]);
    }
  }

  /** Draining in two goes is draining at once, when the first go still waits; otherwise more bytes are not looked
      at. */
  lemma {:induction false} DrainInTwo(a: seq<byte>, b: seq<byte>)
    ensures var d := Drain(a);
            Drain(a + b) ==
            if d.fate == Waiting then Drain(d.leftover + b).Behind(d.packets) else d.Unread(b)
    decreases |a|
  {
    hide Decode;
    if Decode(a) == Err(Incomplete) {
      BehindTwice([], [], Drain(a + b));
    } else {
      Stable(a, b);
      if Decode(a).Ok? {
        var (p, n) := Decode(a).value;
        assert (a + b)[n..] == a[n..] + b;
        if !p.Disconnect? {
          DrainInTwo(a[n..], b);
          var d := Drain(a[n..]);
          BehindTwice([p], d.packets, Drain(d.leftover + b));
        }
      }
    }
  }

  /** What reading chunk by chunk has come to: packets taken, bytes still buffered, and how many chunks were read. */
  datatype Progress = Progress(drained: Drained, used: nat)

  function Reading(chunks: seq<seq<byte>>): (r: Progress)
    ensures r.used <= |chunks|
  {
    if chunks == [] then Progress(Drain([]), 0)
    else
      var before := Reading(chunks[..|chunks| - 1]);
      if before.drained.fate != Waiting then before
      else
        var buf := before.drained.leftover + chunks[|chunks| - 1];
        Progress(Drain(buf).Behind(before.drained.packets), |chunks|)
  }

  /** Reading chunk by chunk drains the stream: same packets, same end, and no byte lost. */
  lemma {:induction false} ReadingDrains(chunks: seq<seq<byte>>)
    ensures var r := Reading(chunks);
            && (r.drained.fate == Waiting ==> r.used == |chunks|)
            && Drain(Flatten(chunks)) == r.drained.Unread(Flatten(chunks[r.used..]))
  {
    hide Decode;
    var r := Reading(chunks);
    if chunks == [] {
      UnreadTwice(r.drained, [], []);
    } else {
      hide Drain;
      var front, last := chunks[..|chunks| - 1], chunks[|chunks| - 1];
      ReadingDrains(front);
      DrainInTwo(Flatten(front), last);
      UnreadTwice(r.drained, [], []);
      UnreadTwice(Reading(front).drained, [], []);
      if Reading(front).drained.fate == Waiting {
        assert front[Reading(front).used..] == [] && chunks[r.used..] == [];
      } else {
        var unread := front[r.used..];
        assert chunks[r.used..] == unread + [last];
        assert (unread + [last])[..|unread|] == unread;
        UnreadTwice(r.drained, Flatten(unread), last);
      }
    }
  }

  /** The way a byte stream is cut into reads cannot be observed. */
  lemma ChunkingIndependence(xs: seq<seq<byte>>, ys: seq<seq<byte>>)
    requires Flatten(xs) == Flatten(ys)
    ensures var x, y := Reading(xs), Reading(ys);
            && x.drained.packets == y.drained.packets
            && x.drained.fate == y.drained.fate
            && x.drained.leftover + Flatten(xs[x.used..]) == y.drained.leftover + Flatten(ys[y.used..])
            && (x.drained.fate == Waiting ==> x.drained.leftover == y.drained.leftover)
  {
    hide Drain, Reading;
    ReadingDrains(xs);
    ReadingDrains(ys);
    UnreadTwice(Reading(xs).drained, [], []);
    UnreadTwice(Reading(ys).drained, [], []);
  }

  // ---- The reader ----

  class Reader {
    const id: ConnId
    var buf: seq<byte>
    var effects: seq<Effect>

    constructor (id: ConnId)
      ensures this.id == id && buf == [] && effects == []
    {
      this.id := id;
      buf, effects := [], [];
    }

    /** `dispatch_packet`: false means that the connection must end. */
    method Dispatch(packet: Packet) returns (go: bool)
      modifies this`effects
      ensures effects == old(effects) + Handled(id, packet)
      ensures go <==> !packet.Disconnect?
    {
      go := true;
      match packet
      case Connect(_, _, _, _, clientId) =>
        effects := effects + [Send(Broker.Register(id, clientId))];
        effects := effects + [Answer(ConnAck(false, Accepted))];
      case Subscribe(packetId, subs) =>
        var returnCodes: seq<byte> := [];
        for i := 0 to |subs|
          invariant effects == old(effects) + SubscribeAll(id, subs[..i])
          invariant returnCodes == Zeros(i)
        {
          effects := effects + [Send(Broker.Subscribe(id, subs[i].0))];
          returnCodes := returnCodes + [0];
          assert SubscribeAll(id, subs[..i + 1]) ==
                 SubscribeAll(id, subs[..i]) + [Send(Broker.Subscribe(id, subs[i].0))];
        }
        assert subs[..|subs|] == subs;
        effects := effects + [Answer(SubAck(packetId, returnCodes))];
      case Unsubscribe(packetId, filters) =>
        for i := 0 to |filters|
          invariant effects == old(effects) + UnsubscribeAll(id, filters[..i])
        {
          effects := effects + [Send(Broker.Unsubscribe(id, filters[i]))];
          assert UnsubscribeAll(id, filters[..i + 1]) ==
                 UnsubscribeAll(id, filters[..i]) + [Send(Broker.Unsubscribe(id, filters[i]))];
        }
        assert filters[..|filters|] == filters;
        effects := effects + [Answer(UnsubAck(packetId))];
      case Publish(p) =>
        if p.qos == 1 && p.packetId.Some? {
          effects := effects + [Answer(PubAck(p.packetId.value))];
        }
        effects := effects + [Send(Broker.Publish(id, p))];
      case PingReq =>
        effects := effects + [Answer(PingResp)];
      case Disconnect =>
        go := false;
      case _ =>
    }

    /** The inner loop: take packets off the buffer until it runs dry or the connection ends. */
    method DrainBuffer() returns (fate: Fate)
      modifies this
      ensures var d := Drain(old(buf));
              && fate == d.fate && buf == d.leftover
              && effects == old(effects) + Transcript(id, d.packets)
    {
      hide Decode, Drain, Transcript;
      ghost var done := [];
      TranscriptNothing(id);
      BehindTwice([], [], Drain(buf));
      while true
        invariant effects == old(effects) + Transcript(id, done)
        invariant Drain(old(buf)) == Drain(buf).Behind(done)
        decreases |buf|
      {
        DrainStep(buf);
        match Decode(buf)
        case Ok((packet, consumed)) =>
          BehindTwice(done, [packet], Drain(buf[consumed..]));
          TranscriptSnoc(id, done, packet);
          buf := buf[consumed..];
          var go := Dispatch(packet);
          assert effects == old(effects) + Transcript(id, done + [packet]);
          done := done + [packet];
          if !go {
            return Disconnected;
          }
        case Err(Incomplete) =>
          assert done + [] == done;
          return Waiting;
        case Err(e) =>
          assert done + [] == done;
          return Failed(e);
      }
    }

    /** `reader_loop` over the chunks that the socket yields before it ends. */
    method ReadLoop(chunks: seq<seq<byte>>) returns (fate: Fate)
      requires buf == [] && effects == []
      modifies this
      ensures var r := Reading(chunks).drained;
              && fate == r.fate && buf == r.leftover
              && effects == Whole(id, r.packets)
      ensures EndsOnce(effects, id)
    {
      hide Decode, Drain;
      fate := Waiting;
      ghost var taken: seq<Packet> := [];
      ReadingNothing();
      for i := 0 to |chunks|
        invariant Reading(chunks[..i]).drained == Drained(taken, buf, Waiting) && fate == Waiting
        invariant effects == Transcript(id, taken)
      {
        ghost var soFar := chunks[..i + 1];
        assert soFar[..i] == chunks[..i];
        buf := buf + chunks[i];
        ghost var d := Drain(buf);
        fate := DrainBuffer();
        TranscriptAppend(id, taken, d.packets);
        taken := taken + d.packets;
        if fate != Waiting {
          ReadingStops(chunks, i + 1);
          break;
        }
      }
      assert chunks[..|chunks|] == chunks;
      ghost var packets := Reading(chunks).drained.packets;
      WholeEndsOnce(id, packets);
      effects := effects + [Send(Broker.Disconnect(id))];
      effects := effects + [CloseQueue];
    }
  }

  lemma ReadingNothing()
    ensures Reading([]).drained == Drained([], [], Waiting)
  {
  }

  lemma TranscriptNothing(id: ConnId)
    ensures Transcript(id, []) == []
  {
  }

  lemma TranscriptSnoc(id: ConnId, a: seq<Packet>, p: Packet)
    ensures Transcript(id, a + [p]) == Transcript(id, a) + Handled(id, p)
  {
    hide Handled;
    assert (a + [p])[..|a|] == a;
  }

  lemma {:induction false} TranscriptAppend(id: ConnId, a: seq<Packet>, b: seq<Packet>)
    ensures Transcript(id, a + b) == Transcript(id, a) + Transcript(id, b)
    decreases |b|
  {
    hide Handled;
    if b == [] {
      assert a + b == a;
    } else {
      var front, last := b[..|b| - 1], b[|b| - 1];
      assert a + b == (a + front) + [last];
      TranscriptSnoc(id, a + front, last);
      TranscriptAppend(id, a, front);
      assert (Transcript(id, a) + Transcript(id, front)) + Handled(id, last) ==
             Transcript(id, a) + (Transcript(id, front) + Handled(id, last));
    }
  }

  /** Once a connection has ended, later chunks are not read. */
  lemma {:induction false} ReadingStops(chunks: seq<seq<byte>>, k: nat)
    requires k <= |chunks| && Reading(chunks[..k]).drained.fate != Waiting
    ensures Reading(chunks) == Reading(chunks[..k])
    decreases |chunks|
  {
    if k < |chunks| {
      var front := chunks[..|chunks| - 1];
      assert front[..k] == chunks[..k];
      ReadingStops(front, k);
    } else {
      assert chunks[..k] == chunks;
    }
  }
}
