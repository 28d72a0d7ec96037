/** When every send is made in one go, the shards' registries are the parts of one broker's registry. */
module Partition {
  import opened Common
  import opened Sequences
  import opened Topics
  import opened Broker
  import opened Network
  import opened Convergence
  import Packets
  import Session
  import Linearizability
  import Router

  /** The retained messages of a shard's topics. */
  function PartRetained(cfg: Config, retained: map<Str, Packets.PublishPacket>, i: nat)
    : map<Str, Packets.PublishPacket>
  {
    map t | t in retained && cfg.Shard(t) == i :: retained[t]
  }

  /** What shard `i` holds of a registry: all clients, the filters kept there, the retained messages of its topics. */
  function Part(cfg: Config, r: Registry, i: nat): Registry {
    Registry(r.clients,
             map f | f in r.topics && KeptAt(cfg, f, i) :: r.topics[f],
             PartRetained(cfg, r.retained, i))
  }

  ghost function AtShard(cfg: Config, i: nat): Msg -> bool {
    (m: Msg) => cfg.GoesTo(m, i)
  }

  lemma PartDisconnect(cfg: Config, r: Registry, i: nat, id: ConnId)
    ensures Part(cfg, Next(r, Msg.Disconnect(id)), i) == Next(Part(cfg, r, i), Msg.Disconnect(id))
  {
    hide KeptAt, Without;
    assert Part(cfg, Next(r, Msg.Disconnect(id)), i).topics == Next(Part(cfg, r, i), Msg.Disconnect(id)).topics;
  }

  lemma PartSubscriptions(cfg: Config, r: Registry, i: nat, m: Msg)
    requires (m.Subscribe? || m.Unsubscribe?) && KeptAt(cfg, m.filter, i)
    ensures Part(cfg, Next(r, m), i) == Next(Part(cfg, r, i), m)
  {
    hide KeptAt, With, Without;
    assert Subs(Part(cfg, r, i), m.filter) == Subs(r, m.filter);
    assert Part(cfg, Next(r, m), i).topics == Next(Part(cfg, r, i), m).topics;
  }

  lemma RetainedChanges(cfg: Config, retained: map<Str, Packets.PublishPacket>, i: nat, p: Packets.PublishPacket)
    requires cfg.Shard(p.topic) == i
    ensures PartRetained(cfg, retained - {p.topic}, i) == PartRetained(cfg, retained, i) - {p.topic}
    ensures PartRetained(cfg, retained[p.topic := p], i) == PartRetained(cfg, retained, i)[p.topic := p]
  {
    hide Router.ShardForTopic;
  }

  lemma PartPublish(cfg: Config, r: Registry, i: nat, m: Msg)
    requires m.Publish? && cfg.Shard(m.packet.topic) == i
    ensures Part(cfg, Next(r, m), i) == Next(Part(cfg, r, i), m)
  {
    hide KeptAt, Router.ShardForTopic, PartRetained;
    RetainedChanges(cfg, r.retained, i, m.packet);
  }

  /** A message that goes to the shard does to its part what it does to the whole. */
  lemma PartNext(cfg: Config, r: Registry, i: nat, m: Msg)
    requires cfg.GoesTo(m, i)
    ensures Part(cfg, Next(r, m), i) == Next(Part(cfg, r, i), m)
  {
    match m
    case Register(_, _) =>
    case Subscribe(_, _) => PartSubscriptions(cfg, r, i, m);
    case Unsubscribe(_, _) => PartSubscriptions(cfg, r, i, m);
    case Publish(_, _) => PartPublish(cfg, r, i, m);
    case Disconnect(id) => PartDisconnect(cfg, r, i, id);
  }

  /** A message for another shard leaves the part alone. */
  lemma PartElsewhere(cfg: Config, r: Registry, i: nat, m: Msg)
    requires i < cfg.n && !cfg.GoesTo(m, i)
    ensures Part(cfg, Next(r, m), i) == Part(cfg, r, i)
  {
    var after, before := Part(cfg, Next(r, m), i), Part(cfg, r, i);
    assert after.topics == before.topics;
    assert after.retained == before.retained;
  }

  /** A shard that has handled its messages of a history holds its part of what the history leads to. */
  lemma {:induction false} PartAfter(cfg: Config, i: nat, h: seq<Msg>)
    requires i < cfg.n
    ensures After(Filter(AtShard(cfg, i), h)) == Part(cfg, After(h), i)
  {
    if h != [] {
      hide Part, Next, Router.GoesTo;
      var front, m := h[..|h| - 1], h[|h| - 1];
      PartAfter(cfg, i, front);
      assert h == front + [m];
      FilterSnoc(AtShard(cfg, i), front, m);
      if cfg.GoesTo(m, i) {
        AfterSnoc(Filter(AtShard(cfg, i), front), m);
        PartNext(cfg, After(front), i, m);
      } else {
        assert Filter(AtShard(cfg, i), front) + [] == Filter(AtShard(cfg, i), front);
        PartElsewhere(cfg, After(front), i, m);
      }
    }
  }

  /** In a log of rightly routed entries, those at a shard are those of the messages that go there. */
  lemma {:induction false} RoutedSelect(cfg: Config, i: nat, log: seq<Entry>)
    requires Linearizability.Routed(cfg, log)
    ensures FilterMap(ToShard(i), log) ==
            FilterMap(Linearizability.Select(Linearizability.Always(i), AtShard(cfg, i)), log)
  {
    if log != [] {
      hide Linearizability.Routed, Router.GoesTo;
      Linearizability.RoutedFront(cfg, log);
      RoutedSelect(cfg, i, log[..|log| - 1]);
    }
  }

  /** The registries of all shards. */
  ghost function Registries(s: State): seq<Registry> {
    seq(|s.shards|, i requires 0 <= i < |s.shards| => After(s.shards[i].done))
  }

  /** `parts` make up `one`: clients and wildcard filters are everywhere, each exact filter and each retained message is
      in exactly one part, nothing is missing and nothing differs. */
  ghost predicate MakesUp(one: Registry, parts: seq<Registry>) {
    && (forall i :: 0 <= i < |parts| ==> parts[i].clients == one.clients)
    && (forall i, f :: 0 <= i < |parts| && f in parts[i].topics ==>
          f in one.topics && parts[i].topics[f] == one.topics[f])
    && (forall i, f :: 0 <= i < |parts| && f in one.topics && IsWildcard(f) ==> f in parts[i].topics)
    && (forall f :: f in one.topics ==> exists i :: 0 <= i < |parts| && f in parts[i].topics)
    && (forall i, j, f :: 0 <= i < |parts| && 0 <= j < |parts| && f in parts[i].topics && f in parts[j].topics ==>
          i == j || IsWildcard(f))
    && (forall i, t :: 0 <= i < |parts| && t in parts[i].retained ==>
          t in one.retained && parts[i].retained[t] == one.retained[t])
    && (forall t :: t in one.retained ==> exists i :: 0 <= i < |parts| && t in parts[i].retained)
    && (forall i, j, t :: 0 <= i < |parts| && 0 <= j < |parts| && t in parts[i].retained && t in parts[j].retained ==>
          i == j)
  }

  lemma PartsMakeUp(cfg: Config, one: Registry, parts: seq<Registry>)
    requires cfg.n >= 1 && |parts| == cfg.n && forall i :: 0 <= i < |parts| ==> parts[i] == Part(cfg, one, i)
    ensures MakesUp(one, parts)
  {
    forall f | f in one.topics
      ensures exists i :: 0 <= i < |parts| && f in parts[i].topics
    {
      assert f in parts[cfg.Shard(f)].topics;
    }
    forall t | t in one.retained
      ensures exists i :: 0 <= i < |parts| && t in parts[i].retained
    {
      assert t in parts[cfg.Shard(t)].retained;
    }
  }

  /** Whenever the channels are drained, each shard's registry is exactly its part of the registry of one broker that
      has handled the sends, and the parts make up that registry. For any number of shards and any hash. */
  lemma ShardsAreParts(cfg: Config, es: seq<Event>, sends: seq<(Session.ConnId, Msg)>)
    requires cfg.n >= 1 && Legal(cfg, es) && Drained(Reached(cfg, es)) && Reached(cfg, es).log == Blocks(cfg, sends)
    ensures var one, parts := After(Contents(sends)), Registries(Reached(cfg, es));
            && |parts| == cfg.n
            && (forall i :: 0 <= i < |parts| ==> parts[i] == Part(cfg, one, i))
            && MakesUp(one, parts)
  {
    hide Part, After, Blocks, Contents, Reached, Legal, MakesUp;
    ReachedBookkeeping(cfg, es);
    var parts := Registries(Reached(cfg, es));
    forall i | 0 <= i < |parts|
      ensures parts[i] == Part(cfg, After(Contents(sends)), i)
    {
      ShardIsPart(cfg, es, sends, i);
    }
    PartsMakeUp(cfg, After(Contents(sends)), parts);
  }

  lemma ShardIsPart(cfg: Config, es: seq<Event>, sends: seq<(Session.ConnId, Msg)>, i: nat)
    requires Legal(cfg, es) && Drained(Reached(cfg, es)) && Reached(cfg, es).log == Blocks(cfg, sends)
    requires i < cfg.n && i < |Reached(cfg, es).shards|
    ensures After(Reached(cfg, es).shards[i].done) == Part(cfg, After(Contents(sends)), i)
  {
    hide Part, Filter, FilterMap, After, Blocks, Contents, Router.GoesTo;
    var s := Reached(cfg, es);
    ReachedBookkeeping(cfg, es);
    assert s.shards[i].done + s.shards[i].channel == s.shards[i].done;
    RoutedSelect(cfg, i, s.log);
    BlocksSelect(cfg, sends, Linearizability.Always(i), AtShard(cfg, i));
    PartAfter(cfg, i, Contents(sends));
  }
}
