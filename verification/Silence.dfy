/** The two ends of a session: CONNACK comes first, and after Disconnect there is nothing. */
module Silence {
  import opened Common
  import opened Sequences
  import opened Topics
  import opened Broker
  import opened Session
  import opened Network
  import opened Readers
  import Packets
  import Linearizability
  import Router

  // ---- Silence after Disconnect ----

  ghost function FromAt(cfg: Config, c: ConnId, i: nat): Msg -> bool {
    (m: Msg) => m.id == c && cfg.GoesTo(m, i)
  }

  /** A prefix that holds the final element is everything. */
  lemma HoldsTheLast<T>(mine: seq<T>, earlier: seq<T>, last: T)
    requires mine <= earlier + [last] && last in mine && last !in earlier
    ensures mine == earlier + [last]
  {
    var k :| 0 <= k < |mine| && mine[k] == last;
    assert k == |earlier|;
  }

  /** What shard `i` has handled from `c` ends with `c`'s Disconnect, once it has handled that. */
  lemma DisconnectHandledLast(cfg: Config, es: seq<Event>, i: nat, c: ConnId) returns (earlier: seq<Msg>)
    requires ReaderNetwork(cfg) && Legal(cfg, es) && i < |Reached(cfg, es).shards|
    requires Disconnect(c) in Reached(cfg, es).shards[i].done
    ensures Filter(FromAt(cfg, c, i), Reached(cfg, es).shards[i].done) == earlier + [Disconnect(c)]
  {
    hide Reached, Legal, Filter, Actions, Router.GoesTo;
    var b := Reached(cfg, es).shards[i];
    var keep := FromAt(cfg, c, i);
    var d := Disconnect(c);
    ReachedBookkeeping(cfg, es);
    ReadersUseOwnNames(cfg);
    assert c in cfg.scripts && cfg.GoesTo(d, i) by {
      ReceivedFromSender(cfg, es, i, d);
      Linearizability.HandledRouted(cfg, Reached(cfg, es), i);
    }
    ReceivedInProgramOrder(cfg, es, i, c, keep);
    var before := WholeSends(c, cfg.scripts[c]);
    FilterSnoc(keep, before, d);
    FilterPrefix(keep, b.done, b.done + b.channel);
    FilterMember(keep, b.done, d);
    earlier := Filter(keep, before);
    if d in earlier {
      FilterMember(keep, before, d);
    }
    HoldsTheLast(Filter(keep, b.done), earlier, d);
  }

  lemma GoneAfterDisconnect(cfg: Config, es: seq<Event>, i: nat, c: ConnId, f: Str)
    requires ReaderNetwork(cfg) && Legal(cfg, es) && i < |Reached(cfg, es).shards|
    requires Disconnect(c) in Reached(cfg, es).shards[i].done
    ensures var r := After(Reached(cfg, es).shards[i].done);
            c !in r.clients && c !in Subs(r, f)
  {
    var done := Reached(cfg, es).shards[i].done;
    ReachedBookkeeping(cfg, es);
    Linearizability.HandledRouted(cfg, Reached(cfg, es), i);
    var earlier := DisconnectHandledLast(cfg, es, i, c);
    StandingIsLocal(done, c, f, FromAt(cfg, c, i));
    AfterSnoc(earlier, Disconnect(c));
    NextMember(After(earlier), Disconnect(c), c, f);
  }

  ghost predicate NothingPendingFor(s: State, i: nat, c: ConnId)
    requires i < |s.shards|
  {
    forall p :: p in s.shards[i].pending ==> p.to != c
  }

  /** What a shard takes up once `c` is gone, or at that moment, holds nothing for `c`. */
  lemma TakeIsSilent(cfg: Config, es: seq<Event>, i: nat, out: seq<Push>, c: ConnId)
    requires ReaderNetwork(cfg) && Legal(cfg, es) && Enabled(cfg, Reached(cfg, es), Take(i, out))
    requires Disconnect(c) in Reached(cfg, es).shards[i].done || Reached(cfg, es).shards[i].channel[0] == Disconnect(c)
    ensures forall p :: p in out ==> p.to != c
  {
    var b := Reached(cfg, es).shards[i];
    if Disconnect(c) in b.done {
      GoneAfterDisconnect(cfg, es, i, c, []);
    }
    forall p | p in out
      ensures p.to != c
    {
      PushesToClients(After(b.done), b.channel[0], p);
    }
  }

  lemma {:induction false} NothingPendingAfterDisconnect(cfg: Config, es: seq<Event>, i: nat, c: ConnId)
    requires ReaderNetwork(cfg) && Legal(cfg, es) && i < |Reached(cfg, es).shards|
    requires Disconnect(c) in Reached(cfg, es).shards[i].done
    ensures NothingPendingFor(Reached(cfg, es), i, c)
  {
    hide Pushes, After, Actions, Router.GoesTo;
    var front, e := es[..|es| - 1], es[|es| - 1];
    var s := Reached(cfg, front);
    ReachedBookkeeping(cfg, front);
    if e.Take? && e.i == i {
      TakeIsSilent(cfg, front, i, e.out, c);
    } else {
      assert Disconnect(c) in s.shards[i].done;
      NothingPendingAfterDisconnect(cfg, front, i, c);
    }
  }

  /** Once a shard has handled Disconnect(c), and for ever after: `c` is no client of it, is on none of its lists,
      and it has nothing left to push to `c`. */
  lemma SilenceAfterDisconnect(cfg: Config, es: seq<Event>, i: nat, c: ConnId)
    requires ReaderNetwork(cfg) && Legal(cfg, es) && i < |Reached(cfg, es).shards|
    requires Disconnect(c) in Reached(cfg, es).shards[i].done
    ensures var b := Reached(cfg, es).shards[i];
            && c !in After(b.done).clients
            && (forall f :: c !in Subs(After(b.done), f))
            && NothingPendingFor(Reached(cfg, es), i, c)
  {
    hide After, Subs;
    forall f
      ensures c !in Subs(After(Reached(cfg, es).shards[i].done), f)
    {
      GoneAfterDisconnect(cfg, es, i, c, f);
    }
    GoneAfterDisconnect(cfg, es, i, c, []);
    NothingPendingAfterDisconnect(cfg, es, i, c);
  }

  /** Everything the broker has put on `c`'s queue. */
  ghost function FromBrokerTo(s: State, c: ConnId): seq<Push> {
    FilterMap(AnyPush(), QueueOf(s, c).pushed)
  }

  /** Every shard has handled `c`'s Disconnect. */
  ghost predicate GoneEverywhere(cfg: Config, s: State, c: ConnId) {
    |s.shards| == cfg.n && forall i :: 0 <= i < |s.shards| ==> Disconnect(c) in s.shards[i].done
  }

  lemma DeliverForgets(cfg: Config, s: State, i: nat, c: ConnId)
    requires Enabled(cfg, s, Deliver(i)) && NothingPendingFor(s, i, c)
    ensures FromBrokerTo(Do(cfg, s, Deliver(i)), c) == FromBrokerTo(s, c)
  {
  }

  lemma ActForgets(cfg: Config, s: State, d: ConnId, c: ConnId)
    requires Enabled(cfg, s, Act(d))
    ensures FromBrokerTo(Do(cfg, s, Act(d)), c) == FromBrokerTo(s, c)
  {
    if s.conns[d].todo[0].Reply? {
      FilterMapSnoc(AnyPush(), QueueOf(s, d).pushed, Own(s.conns[d].todo[0].packet));
    }
  }

  lemma DoneGrows(cfg: Config, s: State, e: Event, i: nat)
    requires Enabled(cfg, s, e) && i < |s.shards|
    ensures |Do(cfg, s, e).shards| == |s.shards|
    ensures s.shards[i].done <= Do(cfg, s, e).shards[i].done
  {
  }

  lemma StepForgets(cfg: Config, es: seq<Event>, e: Event, c: ConnId)
    requires ReaderNetwork(cfg) && Legal(cfg, es) && Enabled(cfg, Reached(cfg, es), e)
    requires GoneEverywhere(cfg, Reached(cfg, es), c)
    ensures FromBrokerTo(Do(cfg, Reached(cfg, es), e), c) == FromBrokerTo(Reached(cfg, es), c)
    ensures GoneEverywhere(cfg, Do(cfg, Reached(cfg, es), e), c)
  {
    var s := Reached(cfg, es);
    hide Pushes, After, Reached;
    forall i | 0 <= i < cfg.n
      ensures |Do(cfg, s, e).shards| == cfg.n && Disconnect(c) in Do(cfg, s, e).shards[i].done
    {
      DoneGrows(cfg, s, e, i);
    }
    DoneGrows(cfg, s, e, 0);
    match e
    case Act(d) => ActForgets(cfg, s, d, c);
    case Take(_, _) =>
    case Deliver(i) =>
      NothingPendingAfterDisconnect(cfg, es, i, c);
      DeliverForgets(cfg, s, i, c);
    case Write(_) =>
  }

  /** Once every shard has handled Disconnect(c), the broker never pushes to `c` again, whatever happens next. */
  lemma {:induction false} BrokerForgets(cfg: Config, es: seq<Event>, more: seq<Event>, c: ConnId)
    requires ReaderNetwork(cfg) && Legal(cfg, es) && Legal(cfg, es + more)
    requires GoneEverywhere(cfg, Reached(cfg, es), c)
    ensures FromBrokerTo(Reached(cfg, es + more), c) == FromBrokerTo(Reached(cfg, es), c)
    ensures GoneEverywhere(cfg, Reached(cfg, es + more), c)
    decreases |more|
  {
    if more == [] {
      assert es + more == es;
    } else {
      hide Do, Enabled;
      var front, e := more[..|more| - 1], more[|more| - 1];
      assert (es + more)[..|es + more| - 1] == es + front;
      BrokerForgets(cfg, es, front, c);
      StepForgets(cfg, es + front, e, c);
    }
  }

  // ---- CONNACK first ----

  const CONNACK: Out := Own(Packets.ConnAck(false, Packets.Accepted))

  /** No Subscribe of `c` handled yet: `c` is on no list. */
  lemma {:induction false} NoSubscribeNoMember(h: seq<Msg>, c: ConnId, f: Str)
    requires forall m :: m in h && m.id == c ==> !m.Subscribe?
    ensures c !in Subs(After(h), f)
  {
    if h != [] {
      var front, m := h[..|h| - 1], h[|h| - 1];
      assert m in h && forall x :: x in front ==> x in h;
      NoSubscribeNoMember(front, c, f);
      NextMember(After(front), m, c, f);
    }
  }

  /** Registering and answering, as actions. */
  lemma ConnectAlone(cfg: Config, c: ConnId, connect: Packets.Packet)
    requires connect.Connect?
    ensures Actions(cfg, Handled(c, connect)) == Copies(Register(c, connect.clientId), cfg.n) + [Reply(CONNACK.packet)]
  {
    hide Actions, Copies;
    var send, answer := Send(Register(c, connect.clientId)), Answer(CONNACK.packet);
    assert Handled(c, connect) == [send] + [answer] && [] + [send] == [send];
    ActionsSnoc(cfg, [send], answer);
    ActionsSnoc(cfg, [], send);
    NoActions(cfg);
  }

  /** The actions of a session that begins with CONNECT: Register at every shard, then CONNACK, then the rest. */
  lemma ConnectActions(cfg: Config, c: ConnId, connect: Packets.Packet, rest: seq<Packets.Packet>)
    returns (tail: seq<Action>)
    requires connect.Connect?
    ensures Actions(cfg, Whole(c, [connect] + rest)) ==
            Copies(Register(c, connect.clientId), cfg.n) + [Reply(CONNACK.packet)] + tail
  {
    hide Handled, Actions, Copies;
    var first := Handled(c, connect);
    var later := Transcript(c, rest) + Farewell(c);
    TranscriptAppend(c, [connect], rest);
    TranscriptSnoc(c, [], connect);
    assert [] + [connect] == [connect] && [] + first == first;
    assert Whole(c, [connect] + rest) == first + later;
    ActionsAppend(cfg, first, later);
    ConnectAlone(cfg, c, connect);
    tail := Actions(cfg, later);
  }

  lemma {:induction false} CopiesAre(m: Msg, k: nat)
    ensures |Copies(m, k)| == k && forall a :: a in Copies(m, k) ==> a.Enqueue? && a.msg == m
  {
    if k > 0 {
      CopiesAre(m, k - 1);
    }
  }

  /** A split of n copies, an answer and a tail. */
  lemma SplitOfScript(copies: seq<Action>, answer: Action, tail: seq<Action>, did: seq<Action>, todo: seq<Action>)
    requires did + todo == copies + [answer] + tail
    ensures |did| <= |copies| ==> forall a :: a in did ==> a in copies
    ensures |did| < |copies| ==> todo != [] && todo[0] in copies
    ensures |did| == |copies| ==> todo != [] && todo[0] == answer
  {
    var all := did + todo;
    assert forall j :: 0 <= j < |copies| ==> all[j] == copies[j];
    assert all[|copies|] == answer;
    assert forall j :: 0 <= j < |did| ==> all[j] == did[j];
    if |did| <= |copies| {
      assert todo[0] == all[|did|];
    }
  }

  /** Up to its first answer, a connection that begins with CONNECT sends nothing but Register; that answer is
      CONNACK. */
  lemma OnlyRegisteredSoFar(cfg: Config, es: seq<Event>, c: ConnId, connect: Packets.Packet, rest: seq<Packets.Packet>)
    requires ReaderNetwork(cfg) && Legal(cfg, es) && c in cfg.scripts
    requires connect.Connect? && cfg.scripts[c] == Whole(c, [connect] + rest)
    ensures c in Reached(cfg, es).conns
    ensures var did, todo := Reached(cfg, es).conns[c].did, Reached(cfg, es).conns[c].todo;
            && (|did| <= cfg.n ==> forall a :: a in did ==> a.Enqueue? && a.msg == Register(c, connect.clientId))
            && (|did| < cfg.n && todo != [] ==> todo[0].Enqueue?)
            && (|did| == cfg.n && todo != [] ==> todo[0] == Reply(CONNACK.packet))
  {
    hide Whole, Filter, FilterMap;
    ReachedBookkeeping(cfg, es);
    var tail := ConnectActions(cfg, c, connect, rest);
    var m := Register(c, connect.clientId);
    CopiesAre(m, cfg.n);
    SplitOfScript(Copies(m, cfg.n), Reply(CONNACK.packet), tail,
                  Reached(cfg, es).conns[c].did, Reached(cfg, es).conns[c].todo);
  }

  /** Nothing in sight for `c` before its first answer, and CONNACK in front after it. */
  ghost predicate ConnAckLeads(cfg: Config, s: State, c: ConnId)
    requires c in s.conns
  {
    if |s.conns[c].did| <= cfg.n
    then && QueueOf(s, c).pushed == []
         && forall i, p :: 0 <= i < |s.shards| && p in s.shards[i].pending ==> p.to != c
    else QueueOf(s, c).pushed != [] && QueueOf(s, c).pushed[0] == CONNACK
  }

  lemma TakeKeepsConnAck(cfg: Config, es: seq<Event>, i: nat, out: seq<Push>, c: ConnId, connect: Packets.Packet,
                         rest: seq<Packets.Packet>)
    requires ReaderNetwork(cfg) && Legal(cfg, es) && c in cfg.scripts
    requires connect.Connect? && cfg.scripts[c] == Whole(c, [connect] + rest)
    requires Enabled(cfg, Reached(cfg, es), Take(i, out)) && c in Reached(cfg, es).conns
    requires |Reached(cfg, es).conns[c].did| <= cfg.n
    ensures forall p :: p in out ==> p.to != c
  {
    var s := Reached(cfg, es);
    var b := s.shards[i];
    OnlyRegisteredSoFar(cfg, es, c, connect, rest);
    ReadersUseOwnNames(cfg);
    forall m | (m in b.done || m in b.channel) && m.id == c
      ensures m.Register?
    {
      ReceivedFromSender(cfg, es, i, m);
    }
    forall p | p in out
      ensures p.to != c
    {
      PushesToClients(After(b.done), b.channel[0], p);
      if p.to == c && b.channel[0].Publish? {
        var f :| f in After(b.done).topics && Matches(b.channel[0].packet.topic, f) && c in After(b.done).topics[f];
        NoSubscribeNoMember(b.done, c, f);
      }
    }
  }

  lemma ActKeepsConnAck(cfg: Config, s: State, d: ConnId, c: ConnId)
    requires Enabled(cfg, s, Act(d)) && c in s.conns && ConnAckLeads(cfg, s, c)
    requires var did, todo := s.conns[c].did, s.conns[c].todo;
             && (|did| < cfg.n && todo != [] ==> todo[0].Enqueue?)
             && (|did| == cfg.n && todo != [] ==> todo[0] == Reply(CONNACK.packet))
    ensures c in Do(cfg, s, Act(d)).conns && ConnAckLeads(cfg, Do(cfg, s, Act(d)), c)
  {
  }

  lemma DeliverKeepsConnAck(cfg: Config, s: State, i: nat, c: ConnId)
    requires Enabled(cfg, s, Deliver(i)) && c in s.conns && ConnAckLeads(cfg, s, c)
    ensures c in Do(cfg, s, Deliver(i)).conns && ConnAckLeads(cfg, Do(cfg, s, Deliver(i)), c)
  {
    assert s.shards[i].pending[0] in s.shards[i].pending;
  }

  lemma TakenKeepsConnAck(cfg: Config, s: State, i: nat, out: seq<Push>, c: ConnId)
    requires Enabled(cfg, s, Take(i, out)) && c in s.conns && ConnAckLeads(cfg, s, c)
    requires |s.conns[c].did| <= cfg.n ==> forall p :: p in out ==> p.to != c
    ensures c in Do(cfg, s, Take(i, out)).conns && ConnAckLeads(cfg, Do(cfg, s, Take(i, out)), c)
  {
    hide Pushes, After;
  }

  lemma WriteKeepsConnAck(cfg: Config, s: State, d: ConnId, c: ConnId)
    requires c in s.conns && ConnAckLeads(cfg, s, c)
    ensures c in Do(cfg, s, Write(d)).conns && ConnAckLeads(cfg, Do(cfg, s, Write(d)), c)
  {
  }

  lemma {:induction false} ReachedConnAck(cfg: Config, es: seq<Event>, c: ConnId, connect: Packets.Packet,
                                          rest: seq<Packets.Packet>)
    requires ReaderNetwork(cfg) && Legal(cfg, es) && c in cfg.scripts
    requires connect.Connect? && cfg.scripts[c] == Whole(c, [connect] + rest)
    ensures c in Reached(cfg, es).conns && ConnAckLeads(cfg, Reached(cfg, es), c)
  {
    if es != [] {
      hide Do, Whole, Filter, ConnAckLeads, Pushes, After;
      var front, e := es[..|es| - 1], es[|es| - 1];
      var s := Reached(cfg, front);
      ReachedConnAck(cfg, front, c, connect, rest);
      OnlyRegisteredSoFar(cfg, front, c, connect, rest);
      match e
      case Act(d) => ActKeepsConnAck(cfg, s, d, c);
      case Take(i, out) =>
        if |s.conns[c].did| <= cfg.n {
          TakeKeepsConnAck(cfg, front, i, out, c, connect, rest);
        }
        TakenKeepsConnAck(cfg, s, i, out, c);
      case Deliver(i) => DeliverKeepsConnAck(cfg, s, i, c);
      case Write(d) => WriteKeepsConnAck(cfg, s, d, c);
    }
  }

  /** A client that begins with CONNECT gets CONNACK before anything from the broker, however shards interleave. */
  lemma ConnAckFirst(cfg: Config, es: seq<Event>, c: ConnId, connect: Packets.Packet, rest: seq<Packets.Packet>)
    requires ReaderNetwork(cfg) && Legal(cfg, es) && c in cfg.scripts
    requires connect.Connect? && cfg.scripts[c] == Whole(c, [connect] + rest)
    requires QueueOf(Reached(cfg, es), c).pushed != []
    ensures QueueOf(Reached(cfg, es), c).pushed[0] == CONNACK
  {
    ReachedConnAck(cfg, es, c, connect, rest);
  }
}
