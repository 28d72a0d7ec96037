/** From one publisher's bytes to one subscriber's socket: order is kept all the way, section 4.6 of MQTT 3.1.1. */
module EndToEnd {
  import opened Common
  import opened Sequences
  import opened Packets
  import opened Broker
  import opened Network
  import opened Readers
  import Session
  import Linearizability
  import Queue

  /** The packet of a live delivery from publisher `p` on topic `t`. */
  ghost function LiveOut(p: ConnId, t: Str): Out -> Option<PublishPacket> {
    (o: Out) => if o.FromBroker? && LiveFrom(o.push, p, t) then Some(o.push.packet) else None
  }

  ghost function LiveIn(p: ConnId, t: Str): Push -> Option<PublishPacket> {
    (x: Push) => if LiveFrom(x, p, t) then Some(x.packet) else None
  }

  predicate LiveFrom(x: Push, p: ConnId, t: Str) {
    x.Live? && x.from == p && x.packet.topic == t
  }

  predicate PublishedOn(m: Msg, p: ConnId, t: Str) {
    m.Publish? && m.id == p && m.packet.topic == t
  }

  ghost function IsPublish(p: ConnId, t: Str): Msg -> bool {
    (m: Msg) => PublishedOn(m, p, t)
  }

  ghost function PublishedBy(p: ConnId, t: Str): Msg -> Option<PublishPacket> {
    (m: Msg) => if PublishedOn(m, p, t) then Some(m.packet) else None
  }

  /** The publishes on `t` among decoded packets. */
  ghost function PublishOn(t: Str): Packet -> Option<PublishPacket> {
    (x: Packet) => if x.Publish? && x.publish.topic == t then Some(x.publish) else None
  }

  // ---- The queue and the writer ----

  ghost predicate QueueKept(cfg: Config, s: State, c: ConnId) {
    && Queue.Consistent(QueueOf(s, c), cfg.capacity)
    && forall o :: o in QueueOf(s, c).pushed && o.FromBroker? ==> o.push.to == c
  }

  lemma StepKeepsQueue(cfg: Config, s: State, e: Event, c: ConnId)
    requires Enabled(cfg, s, e) && QueueKept(cfg, s, c)
    ensures QueueKept(cfg, Do(cfg, s, e), c)
  {
    hide Pushes, Queue.Consistent, Queue.Pushed, Queue.Taken;
    var q := QueueOf(s, c);
    match e
    case Act(d) =>
      if d == c && s.conns[d].todo[0].Reply? {
        PushKept(cfg, q, Own(s.conns[d].todo[0].packet), c);
      }
    case Take(_, _) =>
    case Deliver(i) =>
      if s.shards[i].pending[0].to == c {
        PushKept(cfg, q, FromBroker(s.shards[i].pending[0]), c);
      }
    case Write(d) =>
      if d == c {
        Queue.PopConsistent(q, cfg.capacity);
        assert Queue.Taken(q).pushed == q.pushed by { TakenPushed(q); }
      }
  }

  lemma TakenPushed(q: Queue.Trace<Out>)
    ensures Queue.Taken(q).pushed == q.pushed
  {
  }

  lemma PushKept(cfg: Config, q: Queue.Trace<Out>, o: Out, c: ConnId)
    requires Queue.Consistent(q, cfg.capacity) && (o.FromBroker? ==> o.push.to == c)
    requires forall x :: x in q.pushed && x.FromBroker? ==> x.push.to == c
    ensures Queue.Consistent(Queue.Pushed(q, cfg.capacity, o), cfg.capacity)
    ensures forall x :: x in Queue.Pushed(q, cfg.capacity, o).pushed && x.FromBroker? ==> x.push.to == c
  {
    hide Queue.Consistent, Queue.Pushed;
    Queue.PushConsistent(q, cfg.capacity, o);
    PushedPushed(q, cfg.capacity, o);
  }

  lemma PushedPushed(q: Queue.Trace<Out>, capacity: nat, o: Out)
    ensures Queue.Pushed(q, capacity, o).pushed == q.pushed + [o]
  {
  }

  lemma {:induction false} ReachedQueue(cfg: Config, es: seq<Event>, c: ConnId)
    requires Legal(cfg, es)
    ensures QueueKept(cfg, Reached(cfg, es), c)
  {
    if es != [] {
      ReachedQueue(cfg, es[..|es| - 1], c);
      StepKeepsQueue(cfg, Reached(cfg, es[..|es| - 1]), es[|es| - 1], c);
    }
  }

  /** What a writer emits is a subsequence of what was pushed onto its queue. */
  lemma WrittenFromPushed(cfg: Config, es: seq<Event>, c: ConnId, p: ConnId, t: Str)
    requires Legal(cfg, es)
    ensures var q := QueueOf(Reached(cfg, es), c);
            Subsequence(FilterMap(LiveOut(p, t), q.popped), FilterMap(LiveOut(p, t), q.pushed))
  {
    ReachedQueue(cfg, es, c);
    var q := QueueOf(Reached(cfg, es), c);
    Queue.PoppedInOrder(q, cfg.capacity);
    FilterMapSubsequence(LiveOut(p, t), q.popped, q.pushed);
  }

  // ---- The shard ----

  /** Each handled publish makes at most one live delivery to a client, in the order handled. */
  lemma {:induction false} FeedInOrder(h: seq<Msg>, c: ConnId, p: ConnId, t: Str)
    ensures Subsequence(FilterMap(LiveIn(p, t), Feed(h, c, t)), FilterMap(PublishedBy(p, t), h))
  {
    if h != [] {
      var front, m := h[..|h| - 1], h[|h| - 1];
      assert h == front + [m];
      FeedInOrder(front, c, p, t);
      var events := Expect(After(front), m, c, t);
      FilterMapAppend(LiveIn(p, t), Feed(front, c, t), events);
      FilterMapSnoc(PublishedBy(p, t), front, m);
      var before, published := FilterMap(LiveIn(p, t), Feed(front, c, t)), FilterMap(PublishedBy(p, t), front);
      ExpectLive(After(front), m, c, p, t);
      assert Feed(h, c, t) == Feed(front, c, t) + events;
      assert before + [] == before && published + [] == published;
      if PublishedOn(m, p, t) {
        SubsequenceSnoc(before, published, m.packet);
      }
    }
  }

  /** The live part of one message's events: the publish itself, or nothing. */
  lemma ExpectLive(r: Registry, m: Msg, c: ConnId, p: ConnId, t: Str)
    ensures var live := FilterMap(LiveIn(p, t), Expect(r, m, c, t));
            live == [] || (PublishedOn(m, p, t) && live == [m.packet])
  {
    var events := Expect(r, m, c, t);
    if events != [] {
      assert events == [] + [events[0]];
      FilterMapSnoc(LiveIn(p, t), [], events[0]);
    }
  }

  /** What has been pushed to `c` of `p`'s publishes on `t`, against what the topic's shard has handled. */
  lemma PushedFromHandled(cfg: Config, es: seq<Event>, c: ConnId, p: ConnId, t: Str)
    requires cfg.n >= 1 && Legal(cfg, es)
    ensures var s := Reached(cfg, es);
            && |s.shards| == cfg.n
            && Subsequence(FilterMap(LiveOut(p, t), QueueOf(s, c).pushed),
                           FilterMap(PublishedBy(p, t), s.shards[cfg.Shard(t)].done))
  {
    var s := Reached(cfg, es);
    var i := cfg.Shard(t);
    Linearizability.ReachedRelayed(cfg, es, c, t);
    ReachedQueue(cfg, es, c);
    var q := QueueOf(s, c);
    FilterMapTwice(Linearizability.BrokerAbout(c, t), LiveIn(p, t), LiveOut(p, t), q.pushed);
    var feed := Feed(s.shards[i].done, c, t);
    var delivered := Linearizability.Delivered(s, c, t);
    FeedInOrder(s.shards[i].done, c, p, t);
    assert delivered <= feed;
    FilterMapPrefix(LiveIn(p, t), delivered, feed);
    PrefixSubsequence(FilterMap(LiveIn(p, t), delivered), FilterMap(LiveIn(p, t), feed));
    SubsequenceTrans(FilterMap(LiveIn(p, t), delivered), FilterMap(LiveIn(p, t), feed),
                     FilterMap(PublishedBy(p, t), s.shards[i].done));
  }

  // ---- The publisher ----

  /** What the topic's shard has handled of `p`'s publishes on `t`: a prefix of what `p` sends. */
  lemma HandledFromSent(cfg: Config, es: seq<Event>, p: ConnId, t: Str)
    requires ReaderNetwork(cfg) && Legal(cfg, es) && p in cfg.scripts
    ensures var s := Reached(cfg, es);
            && |s.shards| == cfg.n
            && FilterMap(PublishedBy(p, t), s.shards[cfg.Shard(t)].done) <=
               FilterMap(PublishedBy(p, t), Session.Sends(cfg.scripts[p]))
  {
    var s := Reached(cfg, es);
    var i := cfg.Shard(t);
    var keep := IsPublish(p, t);
    ReadersUseOwnNames(cfg);
    ReceivedInProgramOrder(cfg, es, i, p, keep);
    var done := s.shards[i].done;
    var sent := Session.Sends(cfg.scripts[p]);
    FilterPrefix(keep, done, done + s.shards[i].channel);
    FilterMapOfFilter(PublishedBy(p, t), keep, done);
    FilterMapOfFilter(PublishedBy(p, t), keep, sent);
    FilterMapPrefix(PublishedBy(p, t), Filter(keep, done), Filter(keep, sent));
  }

  ghost function EffectPublish(p: ConnId, t: Str): Session.Effect -> Option<PublishPacket> {
    (e: Session.Effect) => if e.Send? && PublishedOn(e.msg, p, t) then Some(e.msg.packet) else None
  }

  lemma OnlyPublishPublishes(p: ConnId, x: Packet, e: Session.Effect)
    requires !x.Publish? && e in Session.Handled(p, x) && e.Send?
    ensures !e.msg.Publish?
  {
  }

  /** One packet contributes itself or nothing to what its reader publishes on `t`. */
  lemma HandledPublishes(p: ConnId, t: Str, x: Packet)
    ensures FilterMap(EffectPublish(p, t), Session.Handled(p, x)) == Optional(PublishOn(t)(x))
  {
    hide FilterMap, Session.SubscribeAll, Session.UnsubscribeAll;
    var f := EffectPublish(p, t);
    var effects := Session.Handled(p, x);
    if x.Publish? {
      var ack := effects[..|effects| - 1];
      FilterMapNone(f, ack);
      assert effects == ack + [Session.Send(Msg.Publish(p, x.publish))];
      FilterMapSnoc(f, ack, Session.Send(Msg.Publish(p, x.publish)));
    } else {
      hide Session.Handled;
      forall e | e in effects
        ensures f(e) == None
      {
        if e.Send? {
          OnlyPublishPublishes(p, x, e);
        }
      }
      FilterMapNone(f, effects);
    }
  }

  /** A reader sends its connection's PUBLISH packets on `t` as they come. */
  lemma {:induction false} TranscriptPublishes(p: ConnId, t: Str, packets: seq<Packet>)
    ensures FilterMap(EffectPublish(p, t), Session.Transcript(p, packets)) == FilterMap(PublishOn(t), packets)
  {
    if packets != [] {
      hide Session.Handled;
      var front, last := packets[..|packets| - 1], packets[|packets| - 1];
      TranscriptPublishes(p, t, front);
      HandledPublishes(p, t, last);
      FilterMapAppend(EffectPublish(p, t), Session.Transcript(p, front), Session.Handled(p, last));
      assert packets == front + [last];
      FilterMapSnoc(PublishOn(t), front, last);
    }
  }

  lemma WholePublishes(p: ConnId, t: Str, packets: seq<Packet>)
    ensures FilterMap(PublishedBy(p, t), Session.Sends(Session.Whole(p, packets))) == FilterMap(PublishOn(t), packets)
  {
    var whole := Session.Whole(p, packets);
    FilterMapTwice(Session.AsSend(), PublishedBy(p, t), EffectPublish(p, t), whole);
    FilterMapAppend(EffectPublish(p, t), Session.Transcript(p, packets), Session.Farewell(p));
    FilterMapNone(EffectPublish(p, t), Session.Farewell(p));
    TranscriptPublishes(p, t, packets);
  }

  /** The live publishes of `p` on `t` that `c`'s writer emits are a subsequence of the PUBLISH packets on `t` that
      `p` sent: none twice, none out of order, whatever shards, queues and writers do. */
  lemma OrderKeptEndToEnd(cfg: Config, es: seq<Event>, p: ConnId, packets: seq<Packet>, c: ConnId, t: Str)
    requires ReaderNetwork(cfg) && Legal(cfg, es)
    requires p in cfg.scripts && cfg.scripts[p] == Session.Whole(p, packets)
    ensures Subsequence(FilterMap(LiveOut(p, t), QueueOf(Reached(cfg, es), c).popped),
                        FilterMap(PublishOn(t), packets))
  {
    var s := Reached(cfg, es);
    var q := QueueOf(s, c);
    WrittenFromPushed(cfg, es, c, p, t);
    PushedFromHandled(cfg, es, c, p, t);
    HandledFromSent(cfg, es, p, t);
    WholePublishes(p, t, packets);
    var written := FilterMap(LiveOut(p, t), q.popped);
    var pushed := FilterMap(LiveOut(p, t), q.pushed);
    var handled := FilterMap(PublishedBy(p, t), s.shards[cfg.Shard(t)].done);
    var sent := FilterMap(PublishOn(t), packets);
    SubsequenceTrans(written, pushed, handled);
    PrefixSubsequence(handled, sent);
    SubsequenceTrans(written, handled, sent);
  }
}
