/** Replication: when nothing is on its way, every shard knows what one broker would know, clients connected or not. */
module Convergence {
  import opened Common
  import opened Sequences
  import opened Topics
  import opened Broker
  import opened Network
  import opened Readers
  import Session
  import Linearizability
  import Packets
  import Progress
  import Router

  ghost function Sender(c: ConnId): Msg -> bool {
    (m: Msg) => m.id == c
  }

  /** `order` interleaves what the connections have sent so far, each connection's sends in its own program order. */
  ghost predicate Interleaves(cfg: Config, k: ConnId -> nat, order: seq<Msg>) {
    && (forall m :: m in order ==> m.id in cfg.scripts)
    && (forall c :: c in cfg.scripts ==>
          k(c) <= |cfg.scripts[c]| && Filter(Sender(c), order) == Session.Sends(cfg.scripts[c][..k(c)]))
  }

  /** A network at rest: channels drained, and every connection, connected or gone, at the end of a send. */
  ghost predicate AtRest(cfg: Config, s: State, k: ConnId -> nat) {
    OwnNames(cfg) && Drained(s) && Stands(cfg, s, k)
  }

  /** The messages that decide a client's standing with a filter. */
  ghost function Relevant(c: ConnId, f: Str): Msg -> bool {
    (m: Msg) => Concerns(m, c, f)
  }

  lemma {:induction false} FilterTwice(a: Msg -> bool, b: Msg -> bool, s: seq<Msg>)
    requires forall m :: b(m) ==> a(m)
    ensures Filter(b, Filter(a, s)) == Filter(b, s)
  {
    if s != [] {
      var front, last := s[..|s| - 1], s[|s| - 1];
      FilterTwice(a, b, front);
      if a(last) {
        FilterSnoc(b, Filter(a, front), last);
      }
    }
  }

  /** A filter is kept at shard `i`: a wildcard one everywhere, an exact one at the shard of its hash. */
  predicate KeptAt(cfg: Config, f: Str, i: nat) {
    IsWildcard(f) || cfg.Shard(f) == i
  }

  lemma RelevantGoes(cfg: Config, i: nat, c: ConnId, f: Str, m: Msg)
    requires i < cfg.n && KeptAt(cfg, f, i) && Relevant(c, f)(m)
    ensures cfg.GoesTo(m, i)
  {
  }

  /** At rest, a shard has handled all that a connection has sent so far of what concerns `f`. */
  lemma SenderConcerns(cfg: Config, es: seq<Event>, k: ConnId -> nat, i: nat, c: ConnId, f: Str)
    requires Legal(cfg, es) && AtRest(cfg, Reached(cfg, es), k)
    requires i < cfg.n && KeptAt(cfg, f, i) && c in cfg.scripts
    ensures |Reached(cfg, es).shards| == cfg.n && k(c) <= |cfg.scripts[c]|
    ensures Filter(Relevant(c, f), Reached(cfg, es).shards[i].done) ==
            Filter(Relevant(c, f), Session.Sends(cfg.scripts[c][..k(c)]))
  {
    hide Filter, Reached, Legal, Session.Sends, KeptAt, Router.GoesTo;
    var s := Reached(cfg, es);
    ReachedBookkeeping(cfg, es);
    assert Completed(cfg, s, c, k(c)) && NotBeyond(cfg, s, c, k(c));
    var b := s.shards[i];
    assert b.channel == [] && b.done + b.channel == b.done;
    forall m | Relevant(c, f)(m)
      ensures cfg.GoesTo(m, i)
    {
      RelevantGoes(cfg, i, c, f, m);
    }
    hide Bookkeeping, Completed, NotBeyond;
    ReceivedTracksProgress(cfg, es, i, c, Relevant(c, f), k(c));
  }

  /** And nothing that concerns anyone else. */
  lemma StrangerConcerns(cfg: Config, es: seq<Event>, i: nat, c: ConnId, f: Str)
    requires OwnNames(cfg) && Legal(cfg, es) && i < |Reached(cfg, es).shards| && c !in cfg.scripts
    ensures Filter(Relevant(c, f), Reached(cfg, es).shards[i].done) == []
  {
    hide Filter, Reached, Legal;
    ReachedBookkeeping(cfg, es);
    var done := Reached(cfg, es).shards[i].done;
    forall m | m in done
      ensures !Relevant(c, f)(m)
    {
      ReceivedFromSender(cfg, es, i, m);
    }
    FilterNone(Relevant(c, f), done);
  }

  lemma OrderConcerns(cfg: Config, k: ConnId -> nat, order: seq<Msg>, c: ConnId, f: Str)
    requires Interleaves(cfg, k, order)
    ensures c in cfg.scripts ==> k(c) <= |cfg.scripts[c]|
    ensures Filter(Relevant(c, f), order) ==
            if c in cfg.scripts then Filter(Relevant(c, f), Session.Sends(cfg.scripts[c][..k(c)])) else []
  {
    hide Filter, Session.Sends;
    if c in cfg.scripts {
      FilterTwice(Sender(c), Relevant(c, f), order);
    } else {
      FilterNone(Relevant(c, f), order);
    }
  }

  /** So it has handled what any order of the sends holds of what concerns `f`. */
  lemma ConcernsConverge(cfg: Config, es: seq<Event>, k: ConnId -> nat, order: seq<Msg>, i: nat, c: ConnId, f: Str)
    requires Legal(cfg, es) && AtRest(cfg, Reached(cfg, es), k) && Interleaves(cfg, k, order)
    requires i < cfg.n && KeptAt(cfg, f, i)
    ensures |Reached(cfg, es).shards| == cfg.n
    ensures Filter(Relevant(c, f), Reached(cfg, es).shards[i].done) == Filter(Relevant(c, f), order)
  {
    hide Filter, Reached, Legal, Interleaves, Concerns, KeptAt, Drained, Stands, Bookkeeping, Session.Sends;
    SizeOfNetwork(cfg, es);
    OrderConcerns(cfg, k, order, c, f);
    if c in cfg.scripts {
      SenderConcerns(cfg, es, k, i, c, f);
    } else {
      StrangerConcerns(cfg, es, i, c, f);
    }
  }

  lemma SizeOfNetwork(cfg: Config, es: seq<Event>)
    requires cfg.n >= 1 && Legal(cfg, es)
    ensures |Reached(cfg, es).shards| == cfg.n
  {
    ReachedBookkeeping(cfg, es);
  }

  /** At rest, a client's standing at a shard is its standing at one broker that has handled the sends so far, in any
      order that respects the programs. Broadcasts need no common order for this. */
  lemma StandingConverges(cfg: Config, es: seq<Event>, k: ConnId -> nat, order: seq<Msg>, i: nat, c: ConnId, f: Str)
    requires Legal(cfg, es) && AtRest(cfg, Reached(cfg, es), k) && Interleaves(cfg, k, order)
    requires i < cfg.n && KeptAt(cfg, f, i)
    ensures |Reached(cfg, es).shards| == cfg.n
    ensures SameStanding(After(Reached(cfg, es).shards[i].done), After(order), c, f)
  {
    hide After, SameStanding, Filter, Reached, Legal, Interleaves, AtRest, KeptAt;
    ConcernsConverge(cfg, es, k, order, i, c, f);
    var done, keep := Reached(cfg, es).shards[i].done, Relevant(c, f);
    StandingIsLocal(done, c, f, keep);
    StandingIsLocal(order, c, f, keep);
    SameStandingTrans(After(done), After(Filter(keep, done)), After(order), c, f);
  }

  lemma SameStandingTrans(a: Registry, b: Registry, d: Registry, c: ConnId, f: Str)
    requires SameStanding(a, b, c, f) && SameStanding(d, b, c, f)
    ensures SameStanding(a, d, c, f)
  {
  }

  lemma {:induction false} ListedFilterSubscribed(h: seq<Msg>, f: Str)
    requires f in After(h).topics
    ensures exists m :: m in h && m.Subscribe? && m.filter == f
  {
    var front, last := h[..|h| - 1], h[|h| - 1];
    if f in After(front).topics {
      ListedFilterSubscribed(front, f);
      var m :| m in front && m.Subscribe? && m.filter == f;
      assert m in h;
    } else {
      assert last in h && last.Subscribe? && last.filter == f;
    }
  }

  lemma SomeFilterKept(cfg: Config, i: nat)
    ensures KeptAt(cfg, [PLUS], i)
  {
  }

  lemma ClientsConverge(cfg: Config, es: seq<Event>, k: ConnId -> nat, order: seq<Msg>, i: nat)
    requires Legal(cfg, es) && AtRest(cfg, Reached(cfg, es), k) && Interleaves(cfg, k, order)
    requires i < cfg.n && i < |Reached(cfg, es).shards|
    ensures After(Reached(cfg, es).shards[i].done).clients == After(order).clients
  {
    hide Reached, Legal, After, Interleaves, AtRest, Subs, KeptAt;
    var r, one := After(Reached(cfg, es).shards[i].done), After(order);
    SomeFilterKept(cfg, i);
    forall c
      ensures c in r.clients <==> c in one.clients
      ensures c in r.clients ==> r.clients[c] == one.clients[c]
    {
      StandingConverges(cfg, es, k, order, i, c, [PLUS]);
    }
  }

  /** The registries of the shards against that of one broker that has handled the sends so far, in any order that
      respects the programs: the same clients, the same subscribers of every filter kept at the shard, and exact
      filters and retained messages at one shard only. */
  lemma ShardsConverge(cfg: Config, es: seq<Event>, k: ConnId -> nat, order: seq<Msg>, i: nat)
    requires Legal(cfg, es) && AtRest(cfg, Reached(cfg, es), k) && Interleaves(cfg, k, order)
    requires i < cfg.n
    ensures |Reached(cfg, es).shards| == cfg.n
    ensures var r := After(Reached(cfg, es).shards[i].done);
            var one := After(order);
            && r.clients == one.clients
            && (forall f :: KeptAt(cfg, f, i) ==> forall c :: c in Subs(r, f) <==> c in Subs(one, f))
            && (forall f :: f in r.topics ==> KeptAt(cfg, f, i))
            && (forall t :: t in r.retained ==> cfg.Shard(t) == i)
  {
    hide Reached, Legal, After, Interleaves, Subs;
    var s := Reached(cfg, es);
    ReachedBookkeeping(cfg, es);
    var done := s.shards[i].done;
    Linearizability.HandledRouted(cfg, s, i);
    ClientsConverge(cfg, es, k, order, i);
    forall f, c | KeptAt(cfg, f, i)
      ensures c in Subs(After(done), f) <==> c in Subs(After(order), f)
    {
      StandingConverges(cfg, es, k, order, i, c, f);
    }
    forall f | f in After(done).topics
      ensures KeptAt(cfg, f, i)
    {
      ListedFilterSubscribed(done, f);
    }
    forall t | t in After(done).retained
      ensures cfg.Shard(t) == i
    {
      Linearizability.RetainedRouted(cfg, i, done, t);
    }
  }

  // ---- Such states are reached, with clients connected ----

  /** A client that registers and then subscribes to `f`. */
  function Subscriber(c: ConnId, clientId: Str, f: Str): seq<Packets.Packet> {
    [Packets.Connect(Packets.MQTT, 4, true, 0, clientId), Packets.Subscribe(1, [(f, 0)])]
  }

  /** Its reader's first three effects, up to the subscription. */
  lemma SubscriberScript(c: ConnId, clientId: Str, f: Str)
    ensures var script := Session.Whole(c, Subscriber(c, clientId, f));
            && 3 <= |script|
            && Session.Sends(script[..3]) == [Msg.Register(c, clientId), Msg.Subscribe(c, f)]
  {
    var connect, subscribe := Subscriber(c, clientId, f)[0], Subscriber(c, clientId, f)[1];
    assert Subscriber(c, clientId, f) == ([] + [connect]) + [subscribe];
    Session.TranscriptSnoc(c, [connect], subscribe);
    Session.TranscriptSnoc(c, [], connect);
    assert [] + [connect] == [connect];
    var register := Session.Send(Msg.Register(c, clientId));
    var answer := Session.Answer(Packets.ConnAck(false, Packets.Accepted));
    var listen := Session.Send(Msg.Subscribe(c, f));
    var three := ([register] + [answer]) + [listen];
    assert Session.Handled(c, connect) == [register, answer];
    assert Session.SubscribeAll(c, [(f, 0)]) == [listen];
    assert Session.Whole(c, Subscriber(c, clientId, f))[..3] == three;
    FilterMapSnoc(Session.AsSend(), [register] + [answer], listen);
    FilterMapSnoc(Session.AsSend(), [register], answer);
    FilterMapSnoc(Session.AsSend(), [], register);
    assert [] + [register] == [register];
  }

  /** A single subscriber, after its first three effects, against the one broker that has handled its two sends. */
  lemma SubscriberInterleaves(cfg: Config, k: ConnId -> nat, c: ConnId, clientId: Str, f: Str, order: seq<Msg>)
    requires cfg.scripts == map[c := Session.Whole(c, Subscriber(c, clientId, f))]
    requires k(c) == 3 && order == [Msg.Register(c, clientId), Msg.Subscribe(c, f)]
    requires Filter(Sender(c), order) == order
    ensures Interleaves(cfg, k, order)
  {
    hide Session.Whole, Filter, Session.Sends;
    SubscriberScript(c, clientId, f);
  }

  /** For any number of shards, any hash and any filter there is a run of readers to a state at rest in which a client
      is registered at every shard, and on the list of its filter at every shard where the filter is kept. */
  lemma ConnectedAtRest(cfg: Config, c: ConnId, clientId: Str, f: Str)
    returns (es: seq<Event>, k: ConnId -> nat, order: seq<Msg>)
    requires cfg.n >= 1 && cfg.scripts == map[c := Session.Whole(c, Subscriber(c, clientId, f))]
    ensures ReaderNetwork(cfg)
    ensures Legal(cfg, es) && AtRest(cfg, Reached(cfg, es), k) && Interleaves(cfg, k, order)
    ensures |Reached(cfg, es).shards| == cfg.n
    ensures forall i :: 0 <= i < cfg.n ==>
              var r := After(Reached(cfg, es).shards[i].done);
              c in r.clients && (KeptAt(cfg, f, i) ==> c in Subs(r, f))
  {
    hide Reached, Legal, Session.Whole, KeptAt, Drained, OwnNames, After, Subs, Filter;
    assert IsWhole(c, cfg.scripts[c]);
    ReadersUseOwnNames(cfg);
    order := SubscriberOrder(c, clientId, f);
    k := _ => 3;
    SubscriberInterleaves(cfg, k, c, clientId, f, order);
    assert forall d :: d in cfg.scripts ==> d == c && k(d) <= |cfg.scripts[d]|;
    es := Progress.StandsReached(cfg, k);
    SizeOfNetwork(cfg, es);
    hide Stands, Interleaves;
    forall i | 0 <= i < cfg.n
      ensures |Reached(cfg, es).shards| == cfg.n
      ensures c in After(Reached(cfg, es).shards[i].done).clients
      ensures KeptAt(cfg, f, i) ==> c in Subs(After(Reached(cfg, es).shards[i].done), f)
    {
      ShardsConverge(cfg, es, k, order, i);
    }
  }

  lemma SubscriberOrder(c: ConnId, clientId: Str, f: Str) returns (order: seq<Msg>)
    ensures order == [Msg.Register(c, clientId), Msg.Subscribe(c, f)]
    ensures Filter(Sender(c), order) == order
    ensures c in After(order).clients && c in Subs(After(order), f)
  {
    var register, subscribe := Msg.Register(c, clientId), Msg.Subscribe(c, f);
    order := [register] + [subscribe];
    AfterSnoc([register], subscribe);
    AfterSnoc([], register);
    FilterSnoc(Sender(c), [register], subscribe);
    FilterSnoc(Sender(c), [], register);
    assert [] + [register] == [register];
  }

  /** Retained messages of a drained shard are those of one broker that handled the sends in the topic's order. */
  lemma RetainedConverges(cfg: Config, es: seq<Event>, t: Str)
    requires cfg.n >= 1 && Legal(cfg, es) && Drained(Reached(cfg, es))
    ensures var s := Reached(cfg, es);
            && |s.shards| == cfg.n
            && var r := After(s.shards[cfg.Shard(t)].done).retained;
               var one := After(Linearizability.Messages(Linearizability.Order(cfg, t, s.log))).retained;
               (t in r <==> t in one) && (t in r ==> r[t] == one[t])
  {
    var s := Reached(cfg, es);
    ReachedBookkeeping(cfg, es);
    Linearizability.Simulates(cfg, t, s.log, 0);
    var b := s.shards[cfg.Shard(t)];
    assert b.done + b.channel == b.done;
  }

  // ---- Sends made one at a time ----

  /** The log when every send, broadcast or not, is made in one go. */
  ghost function Blocks(cfg: Config, sends: seq<(Session.ConnId, Msg)>): seq<Entry> {
    if sends == [] then []
    else
      var (c, m) := sends[|sends| - 1];
      Blocks(cfg, sends[..|sends| - 1]) + Entries(c, ActionsOf(cfg, Session.Send(m)))
  }

  ghost function Contents(sends: seq<(Session.ConnId, Msg)>): seq<Msg> {
    if sends == [] then [] else Contents(sends[..|sends| - 1]) + [sends[|sends| - 1].1]
  }

  lemma {:induction false} OrderMessages(cfg: Config, t: Str, log: seq<Entry>)
    ensures Linearizability.Messages(Linearizability.Order(cfg, t, log)) ==
            FilterMap(Linearizability.Select(Linearizability.Point(cfg, t), Linearizability.All()), log)
  {
    if log != [] {
      var front, e := log[..|log| - 1], log[|log| - 1];
      assert log == front + [e];
      OrderMessages(cfg, t, front);
      Linearizability.OrderSnoc(cfg, t, front, e);
    }
  }

  /** Seen through any view of one copy per message, such a log holds the sends in their order. */
  lemma {:induction false} BlocksSelect(cfg: Config, sends: seq<(Session.ConnId, Msg)>, at: Msg -> nat,
                                        keep: Msg -> bool)
    requires forall m :: keep(m) ==> cfg.GoesTo(m, at(m))
    ensures FilterMap(Linearizability.Select(at, keep), Blocks(cfg, sends)) == Filter(keep, Contents(sends))
  {
    if sends != [] {
      hide Router.GoesTo, ActionsOf;
      var front := sends[..|sends| - 1];
      var (c, m) := sends[|sends| - 1];
      BlocksSelect(cfg, front, at, keep);
      Linearizability.EffectSelect(cfg, c, Session.Send(m), at, keep);
      FilterMapAppend(Linearizability.Select(at, keep), Blocks(cfg, front),
                      Entries(c, ActionsOf(cfg, Session.Send(m))));
      FilterSnoc(keep, Contents(front), m);
    }
  }

  /** Then the sends take effect in the same order for every topic. */
  lemma BlocksOrder(cfg: Config, t: Str, sends: seq<(Session.ConnId, Msg)>)
    requires cfg.n >= 1
    ensures Linearizability.Messages(Linearizability.Order(cfg, t, Blocks(cfg, sends))) == Contents(sends)
  {
    OrderMessages(cfg, t, Blocks(cfg, sends));
    BlocksSelect(cfg, sends, Linearizability.Point(cfg, t), Linearizability.All());
    Linearizability.FilterAll(Contents(sends));
  }

  ghost function To(c: Session.ConnId): Push -> bool {
    (p: Push) => p.to == c
  }

  lemma {:induction false} FilterCounts(keep: Push -> bool, s: seq<Push>, x: Push)
    ensures multiset(Filter(keep, s))[x] == if keep(x) then multiset(s)[x] else 0
  {
    if s != [] {
      var front, last := s[..|s| - 1], s[|s| - 1];
      assert s == front + [last];
      FilterCounts(keep, front, x);
    }
  }

  /** Sequences of pushes that agree topic by topic hold the same pushes to a client, equally often. */
  lemma SamePushesOverall(a: seq<Push>, b: seq<Push>, c: Session.ConnId)
    requires forall t :: Filter(About(c, t), a) == Filter(About(c, t), b)
    ensures multiset(Filter(To(c), a)) == multiset(Filter(To(c), b))
  {
    forall x
      ensures multiset(Filter(To(c), a))[x] == multiset(Filter(To(c), b))[x]
    {
      FilterCounts(To(c), a, x);
      FilterCounts(To(c), b, x);
      FilterCounts(About(c, x.packet.topic), a, x);
      FilterCounts(About(c, x.packet.topic), b, x);
    }
  }

  /** With sends made one at a time, a drained network has told every client what one broker tells it, about all
      topics taken together: the same pushes, each equally often, for any number of shards and any hash. */
  lemma AtomicSendsRefineOneBroker(cfg: Config, es: seq<Event>, sends: seq<(Session.ConnId, Msg)>,
                                   out: seq<Push>, c: Session.ConnId)
    requires cfg.n >= 1 && Legal(cfg, es) && Drained(Reached(cfg, es))
    requires Reached(cfg, es).log == Blocks(cfg, sends) && Emitted(Contents(sends), out)
    ensures multiset(Filter(To(c), FilterMap(AnyPush(), QueueOf(Reached(cfg, es), c).pushed))) ==
            multiset(Filter(To(c), out))
  {
    hide Emitted, Blocks, Contents;
    var s := Reached(cfg, es);
    var pushed := QueueOf(s, c).pushed;
    ReachedBookkeeping(cfg, es);
    forall t
      ensures Filter(About(c, t), FilterMap(AnyPush(), pushed)) == Filter(About(c, t), out)
    {
      var k := Linearizability.PerTopicLinearizable(cfg, es, t);
      assert s.log[..k] == s.log;
      BlocksOrder(cfg, t, sends);
      assert Filter(About(c, t), s.shards[cfg.Shard(t)].pending) == [];
      assert Linearizability.Delivered(s, c, t) + [] == Filter(About(c, t), out);
      FilterAfterMap(AnyPush(), About(c, t), Linearizability.BrokerAbout(c, t), pushed);
    }
    SamePushesOverall(FilterMap(AnyPush(), pushed), out, c);
  }
}
