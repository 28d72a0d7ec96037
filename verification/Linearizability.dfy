/** Sharding is invisible: per topic, the shards together behave like one broker. */
module Linearizability {
  import opened Common
  import opened Sequences
  import opened Topics
  import opened Broker
  import opened Session
  import opened Network
  import Router

  // ---- Views of the enqueue log ----

  /** The copies at the shard that `at` names, of the messages that `keep` keeps. */
  ghost function Select(at: Msg -> nat, keep: Msg -> bool): Entry -> Option<Msg> {
    (e: Entry) => if e.shard == at(e.msg) && keep(e.msg) then Some(e.msg) else None
  }

  ghost function Always(i: nat): Msg -> nat {
    (m: Msg) => i
  }

  lemma {:induction false} CopiesSelect(c: ConnId, m: Msg, k: nat, at: Msg -> nat, keep: Msg -> bool)
    ensures FilterMap(Select(at, keep), Entries(c, Copies(m, k))) == if keep(m) && at(m) < k then [m] else []
  {
    if k > 0 {
      hide FilterMap;
      var front := Copies(m, k - 1);
      CopiesSelect(c, m, k - 1, at, keep);
      FilterMapSnoc(AsEntry(c), front, Enqueue(k - 1, m));
      assert Entries(c, Copies(m, k)) == Entries(c, front) + [Entry(c, k - 1, m)];
      FilterMapSnoc(Select(at, keep), Entries(c, front), Entry(c, k - 1, m));
    }
  }

  /** One copy of each kept message is made at the named shard. */
  lemma EffectSelect(cfg: Config, c: ConnId, e: Effect, at: Msg -> nat, keep: Msg -> bool)
    requires e.Send? && keep(e.msg) ==> cfg.GoesTo(e.msg, at(e.msg))
    ensures FilterMap(Select(at, keep), Entries(c, ActionsOf(cfg, e))) ==
            if e.Send? && keep(e.msg) then [e.msg] else []
  {
    match e
    case Send(m) =>
      var routing := Router.Route(cfg.hash, cfg.n, m);
      if routing.Broadcast? {
        CopiesSelect(c, m, cfg.n, at, keep);
      } else {
        var s := routing.shard;
        FilterMapSnoc(AsEntry(c), [], Enqueue(s, m));
        assert [] + [Enqueue(s, m)] == [Enqueue(s, m)];
        FilterMapSnoc(Select(at, keep), [], Entry(c, s, m));
        assert [] + [Entry(c, s, m)] == [Entry(c, s, m)];
      }
    case Answer(p) =>
      FilterMapSnoc(AsEntry(c), [], Reply(p));
      assert [] + [Reply(p)] == [Reply(p)];
    case CloseQueue =>
  }

  /** A connection's enqueues, seen through such a view, are its sends in program order. */
  lemma {:induction false} ScriptSelect(cfg: Config, c: ConnId, effects: seq<Effect>, at: Msg -> nat, keep: Msg -> bool)
    requires forall m :: Send(m) in effects && keep(m) ==> cfg.GoesTo(m, at(m))
    ensures FilterMap(Select(at, keep), Entries(c, Actions(cfg, effects))) == Filter(keep, Sends(effects))
  {
    if effects != [] {
      var front, last := effects[..|effects| - 1], effects[|effects| - 1];
      assert effects == front + [last];
      ScriptSelect(cfg, c, front, at, keep);
      EffectSelect(cfg, c, last, at, keep);
      FilterMapAppend(AsEntry(c), Actions(cfg, front), ActionsOf(cfg, last));
      FilterMapAppend(Select(at, keep), Entries(c, Actions(cfg, front)), Entries(c, ActionsOf(cfg, last)));
      FilterMapSnoc(AsSend(), front, last);
      if last.Send? {
        FilterSnoc(keep, Sends(front), last.msg);
      }
    }
  }

  /** In every reachable state: all of the sends that are completed, and none that has not begun. */
  lemma ReachedSelect(cfg: Config, es: seq<Event>, c: ConnId, at: Msg -> nat, keep: Msg -> bool, k: nat)
    requires cfg.n >= 1 && Legal(cfg, es) && c in cfg.scripts && k <= |cfg.scripts[c]|
    requires forall m :: Send(m) in cfg.scripts[c] && keep(m) ==> cfg.GoesTo(m, at(m))
    ensures var s := Reached(cfg, es);
            var seen := FilterMap(Select(at, keep), Filter(ByConn(c), s.log));
            var program := Filter(keep, Sends(cfg.scripts[c][..k]));
            && (NotBeyond(cfg, s, c, k) ==> seen <= program)
            && (Completed(cfg, s, c, k) ==> program <= seen)
  {
    hide Actions, Router.GoesTo, Filter, FilterMap, Reached, Legal;
    var s := Reached(cfg, es);
    var script := cfg.scripts[c][..k];
    ReachedBookkeeping(cfg, es);
    assert forall e :: e in script ==> e in cfg.scripts[c];
    ScriptSelect(cfg, c, script, at, keep);
    var did, actions := s.conns[c].did, Actions(cfg, script);
    if did <= actions {
      FilterMapPrefix(AsEntry(c), did, actions);
      FilterMapPrefix(Select(at, keep), Entries(c, did), Entries(c, actions));
    }
    if actions <= did {
      FilterMapPrefix(AsEntry(c), actions, did);
      FilterMapPrefix(Select(at, keep), Entries(c, actions), Entries(c, did));
    }
  }

  /** What has been done is part of the whole program, and all of it once nothing is left to do. */
  lemma WholeProgram(cfg: Config, es: seq<Event>, c: ConnId)
    requires cfg.n >= 1 && Legal(cfg, es) && c in cfg.scripts
    ensures var s, k := Reached(cfg, es), |cfg.scripts[c]|;
            && cfg.scripts[c][..k] == cfg.scripts[c]
            && NotBeyond(cfg, s, c, k)
            && (s.conns[c].todo == [] ==> Completed(cfg, s, c, k))
  {
    hide Reached, Legal;
    ReachedBookkeeping(cfg, es);
    var conn := Reached(cfg, es).conns[c];
    assert cfg.scripts[c][..|cfg.scripts[c]|] == cfg.scripts[c];
    assert conn.did + conn.todo == Actions(cfg, cfg.scripts[c]);
    assert conn.todo == [] ==> conn.did + conn.todo == conn.did;
  }

  // ---- The total order for one topic ----

  /** Where a message takes effect as far as topic `t` is concerned: at its only shard, or at the topic's own. */
  ghost function Point(cfg: Config, t: Str): Msg -> nat {
    (m: Msg) => match Router.Route(cfg.hash, cfg.n, m)
                case SingleShard(s) => s
                case Broadcast => cfg.Shard(t)
  }

  ghost function AtPoint(cfg: Config, t: Str): Entry -> bool {
    (e: Entry) => e.shard == Point(cfg, t)(e.msg)
  }

  /** All sends so far in the order in which they took effect for topic `t`. */
  ghost function Order(cfg: Config, t: Str, log: seq<Entry>): seq<Entry> {
    Filter(AtPoint(cfg, t), log)
  }

  ghost function AnyMsg(): Entry -> Option<Msg> {
    (e: Entry) => Some(e.msg)
  }

  ghost function Messages(es: seq<Entry>): seq<Msg> {
    FilterMap(AnyMsg(), es)
  }

  ghost function MsgBy(c: ConnId): Entry -> Option<Msg> {
    (e: Entry) => if e.conn == c then Some(e.msg) else None
  }

  /** What one connection contributes to an order. */
  ghost function SentBy(c: ConnId, es: seq<Entry>): seq<Msg> {
    FilterMap(MsgBy(c), es)
  }

  ghost function All(): Msg -> bool {
    (m: Msg) => true
  }

  lemma {:induction false} FilterAll(ms: seq<Msg>)
    ensures Filter(All(), ms) == ms
  {
    if ms != [] {
      FilterAll(ms[..|ms| - 1]);
    }
  }

  lemma {:induction false} SentByOrder(cfg: Config, t: Str, log: seq<Entry>, c: ConnId)
    ensures SentBy(c, Order(cfg, t, log)) ==
            FilterMap(Select(Point(cfg, t), All()), Filter(ByConn(c), log))
  {
    if log != [] {
      var front, e := log[..|log| - 1], log[|log| - 1];
      SentByOrder(cfg, t, front, c);
      assert log == front + [e];
      FilterMapSnoc(MsgBy(c), Order(cfg, t, front), e);
      FilterMapSnoc(Select(Point(cfg, t), All()), Filter(ByConn(c), front), e);
    }
  }

  /** The order holds every send that is completed, and none that has not begun. */
  lemma OrderTracksProgress(cfg: Config, es: seq<Event>, t: Str, c: ConnId, k: nat)
    requires cfg.n >= 1 && Legal(cfg, es) && c in cfg.scripts && k <= |cfg.scripts[c]|
    ensures var s := Reached(cfg, es);
            var sent := SentBy(c, Order(cfg, t, s.log));
            && (NotBeyond(cfg, s, c, k) ==> sent <= Sends(cfg.scripts[c][..k]))
            && (Completed(cfg, s, c, k) ==> Sends(cfg.scripts[c][..k]) <= sent)
  {
    hide Completed, NotBeyond, Reached, Legal, Filter, Sends;
    ReachedSelect(cfg, es, c, Point(cfg, t), All(), k);
    SentByOrder(cfg, t, Reached(cfg, es).log, c);
    FilterAll(Sends(cfg.scripts[c][..k]));
  }

  /** The order respects every connection's program, and ends up holding every send exactly once. */
  lemma OrderKeepsPrograms(cfg: Config, es: seq<Event>, t: Str, c: ConnId)
    requires cfg.n >= 1 && Legal(cfg, es) && c in cfg.scripts
    ensures var s := Reached(cfg, es);
            var sent := SentBy(c, Order(cfg, t, s.log));
            && c in s.conns
            && sent <= Sends(cfg.scripts[c])
            && (s.conns[c].todo == [] ==> sent == Sends(cfg.scripts[c]))
  {
    hide Reached, Legal, Order, SentBy, Sends;
    WholeProgram(cfg, es, c);
    OrderTracksProgress(cfg, es, t, c, |cfg.scripts[c]|);
  }

  /** The order respects real time. Cut any run at any moment: some position of the final order has every send that
      had ended by then in front of it, and every send that had not begun by then behind it. */
  lemma RealTimeOrder(cfg: Config, es: seq<Event>, j: nat, t: Str) returns (p: nat)
    requires cfg.n >= 1 && Legal(cfg, es) && j <= |es|
    ensures Legal(cfg, es[..j])
    ensures p <= |Order(cfg, t, Reached(cfg, es).log)|
    ensures var now, before := Reached(cfg, es[..j]), Order(cfg, t, Reached(cfg, es).log)[..p];
            && (forall c, k: nat :: Completed(cfg, now, c, k) ==> Sends(cfg.scripts[c][..k]) <= SentBy(c, before))
            && (forall c, k: nat :: NotBeyond(cfg, now, c, k) ==> SentBy(c, before) <= Sends(cfg.scripts[c][..k]))
  {
    hide Reached, Legal, Order, SentBy, Sends, Actions;
    LegalPrefix(cfg, es, j);
    var now := Reached(cfg, es[..j]);
    OrderGrows(cfg, t, now.log, Reached(cfg, es).log);
    p := |Order(cfg, t, now.log)|;
    var before := Order(cfg, t, Reached(cfg, es).log)[..p];
    assert before == Order(cfg, t, now.log);
    forall c, k: nat | Completed(cfg, now, c, k)
      ensures Sends(cfg.scripts[c][..k]) <= SentBy(c, before)
    {
      OrderTracksProgress(cfg, es[..j], t, c, k);
    }
    forall c, k: nat | NotBeyond(cfg, now, c, k)
      ensures SentBy(c, before) <= Sends(cfg.scripts[c][..k])
    {
      OrderTracksProgress(cfg, es[..j], t, c, k);
    }
  }

  lemma OrderGrows(cfg: Config, t: Str, before: seq<Entry>, after: seq<Entry>)
    requires before <= after
    ensures Order(cfg, t, before) <= Order(cfg, t, after)
  {
    FilterPrefix(AtPoint(cfg, t), before, after);
  }

  // ---- One shard simulates the single broker, as far as topic `t` goes ----

  /** Two registries that nobody can tell apart by events about `t`. */
  ghost predicate Agree(t: Str, a: Registry, b: Registry) {
    && a.clients == b.clients
    && (forall f :: Matches(t, f) ==> Subs(a, f) == Subs(b, f))
    && (t in a.retained <==> t in b.retained)
    && (t in a.retained ==> a.retained[t] == b.retained[t])
  }

  lemma SubscribedFromSubs(t: Str, r: Registry, c: ConnId)
    ensures Subscribed(r, c, t) <==> exists f :: Matches(t, f) && c in Subs(r, f)
  {
    if Subscribed(r, c, t) {
      var f :| f in r.topics && Matches(t, f) && c in r.topics[f];
      assert c in Subs(r, f);
    }
  }

  lemma AgreeExpect(t: Str, a: Registry, b: Registry, m: Msg, c: ConnId)
    requires Agree(t, a, b)
    ensures Expect(a, m, c, t) == Expect(b, m, c, t)
  {
    SubscribedFromSubs(t, a, c);
    SubscribedFromSubs(t, b, c);
  }

  lemma AgreeNext(t: Str, a: Registry, b: Registry, m: Msg)
    requires Agree(t, a, b)
    ensures Agree(t, Next(a, m), Next(b, m))
  {
    forall f | Matches(t, f)
      ensures Subs(Next(a, m), f) == Subs(Next(b, m), f)
    {
      hide Next, Matches;
      NextSubsStep(a, m, f);
      NextSubsStep(b, m, f);
    }
  }

  /** A message for one other shard is neither noticed nor answered as far as `t` goes. */
  lemma OtherShardIrrelevant(cfg: Config, t: Str, a: Registry, b: Registry, m: Msg, c: ConnId)
    requires Agree(t, a, b)
    requires Router.Route(cfg.hash, cfg.n, m).SingleShard? && !cfg.GoesTo(m, cfg.Shard(t)) && cfg.n >= 1
    ensures Agree(t, a, Next(b, m))
    ensures Expect(b, m, c, t) == []
  {
    if m.Subscribe? || m.Unsubscribe? {
      PlainFilterMatches(t, m.filter);
    }
  }

  ghost predicate Alike(t: Str, c: ConnId, own: seq<Msg>, all: seq<Msg>) {
    Agree(t, After(own), After(all)) && Feed(own, c, t) == Feed(all, c, t)
  }

  lemma AlikeNothing(t: Str, c: ConnId)
    ensures Alike(t, c, [], [])
  {
  }

  lemma AlikeBoth(t: Str, c: ConnId, own: seq<Msg>, all: seq<Msg>, m: Msg)
    requires Alike(t, c, own, all)
    ensures Alike(t, c, own + [m], all + [m])
  {
    hide After, Next, Feed, Expect, Agree;
    AfterSnoc(own, m);
    AfterSnoc(all, m);
    FeedSnoc(own, m, c, t);
    FeedSnoc(all, m, c, t);
    AgreeNext(t, After(own), After(all), m);
    AgreeExpect(t, After(own), After(all), m, c);
  }

  lemma AlikeOther(cfg: Config, t: Str, c: ConnId, own: seq<Msg>, all: seq<Msg>, m: Msg)
    requires Alike(t, c, own, all)
    requires Router.Route(cfg.hash, cfg.n, m).SingleShard? && !cfg.GoesTo(m, cfg.Shard(t)) && cfg.n >= 1
    ensures Alike(t, c, own, all + [m])
  {
    hide After, Next, Feed, Expect, Agree;
    AfterSnoc(all, m);
    FeedSnoc(all, m, c, t);
    OtherShardIrrelevant(cfg, t, After(own), After(all), m, c);
    assert Feed(all, c, t) + [] == Feed(all, c, t);
  }

  lemma PointIs(cfg: Config, t: Str, m: Msg)
    requires cfg.n >= 1
    ensures cfg.GoesTo(m, cfg.Shard(t)) <==> Point(cfg, t)(m) == cfg.Shard(t)
    ensures Point(cfg, t)(m) != cfg.Shard(t) ==> Router.Route(cfg.hash, cfg.n, m).SingleShard?
  {
  }

  lemma OrderSnoc(cfg: Config, t: Str, log: seq<Entry>, e: Entry)
    ensures Messages(Order(cfg, t, log + [e])) ==
            Messages(Order(cfg, t, log)) + if AtPoint(cfg, t)(e) then [e.msg] else []
  {
    FilterSnoc(AtPoint(cfg, t), log, e);
    FilterMapSnoc(AnyMsg(), Order(cfg, t, log), e);
    assert Order(cfg, t, log) + [] == Order(cfg, t, log);
  }

  /** One more enqueue, as the topic's shard and as the single broker see it. */
  lemma SimulatesStep(cfg: Config, t: Str, own: seq<Msg>, all: seq<Msg>, e: Entry, c: ConnId)
    requires cfg.n >= 1 && cfg.GoesTo(e.msg, e.shard) && Alike(t, c, own, all)
    ensures Alike(t, c, own + (if e.shard == cfg.Shard(t) then [e.msg] else []),
                  all + (if AtPoint(cfg, t)(e) then [e.msg] else []))
  {
    hide Alike, Router.ShardForTopic;
    PointIs(cfg, t, e.msg);
    assert own + [] == own && all + [] == all;
    if e.shard == cfg.Shard(t) {
      AlikeBoth(t, c, own, all, e.msg);
    } else if AtPoint(cfg, t)(e) {
      AlikeOther(cfg, t, c, own, all, e.msg);
    }
  }

  /** Every entry is for a shard that its message goes to. */
  ghost predicate Routed(cfg: Config, log: seq<Entry>) {
    forall e :: e in log ==> cfg.GoesTo(e.msg, e.shard)
  }

  lemma RoutedFront(cfg: Config, log: seq<Entry>)
    requires Routed(cfg, log) && log != []
    ensures Routed(cfg, log[..|log| - 1]) && cfg.GoesTo(log[|log| - 1].msg, log[|log| - 1].shard)
  {
  }

  /** The topic's shard and the single broker are told apart by nobody, after the enqueues of a log. */
  ghost predicate AlikeAfter(cfg: Config, t: Str, log: seq<Entry>, c: ConnId)
    requires cfg.n >= 1
  {
    Alike(t, c, FilterMap(ToShard(cfg.Shard(t)), log), Messages(Order(cfg, t, log)))
  }

  lemma SimulatesSnoc(cfg: Config, t: Str, log: seq<Entry>, e: Entry, c: ConnId)
    requires cfg.n >= 1 && cfg.GoesTo(e.msg, e.shard) && AlikeAfter(cfg, t, log, c)
    ensures AlikeAfter(cfg, t, log + [e], c)
  {
    hide Alike, Order, FilterMap, Messages, Router.ShardForTopic, Router.GoesTo, AtPoint;
    FilterMapSnoc(ToShard(cfg.Shard(t)), log, e);
    OrderSnoc(cfg, t, log, e);
    SimulatesStep(cfg, t, FilterMap(ToShard(cfg.Shard(t)), log), Messages(Order(cfg, t, log)), e, c);
  }

  lemma SimulatesNothing(cfg: Config, t: Str, c: ConnId)
    requires cfg.n >= 1
    ensures AlikeAfter(cfg, t, [], c)
  {
    hide Alike;
    AlikeNothing(t, c);
    assert Order(cfg, t, []) == [];
  }

  /** The topic's shard, fed its own copies, tells every client about `t` what one broker fed all sends would. */
  lemma {:induction false} Simulates(cfg: Config, t: Str, log: seq<Entry>, c: ConnId)
    requires cfg.n >= 1 && Routed(cfg, log)
    ensures AlikeAfter(cfg, t, log, c)
  {
    hide AlikeAfter, Routed, Router.GoesTo;
    if log == [] {
      SimulatesNothing(cfg, t, c);
    } else {
      var front, e := log[..|log| - 1], log[|log| - 1];
      RoutedFront(cfg, log);
      Simulates(cfg, t, front, c);
      SimulatesSnoc(cfg, t, front, e, c);
      assert log == front + [e];
    }
  }

  // ---- From the shard to the client's queue ----

  ghost function BrokerAbout(c: ConnId, t: Str): Out -> Option<Push> {
    (o: Out) => if o.FromBroker? && About(c, t)(o.push) then Some(o.push) else None
  }

  /** The broker's pushes about `t` that have reached client `c`'s queue. */
  ghost function Delivered(s: State, c: ConnId, t: Str): seq<Push> {
    FilterMap(BrokerAbout(c, t), QueueOf(s, c).pushed)
  }

  lemma {:induction false} RetainedRouted(cfg: Config, i: nat, h: seq<Msg>, t: Str)
    requires forall m :: m in h ==> cfg.GoesTo(m, i)
    requires t in After(h).retained
    ensures cfg.Shard(t) == i
  {
    var front, m := h[..|h| - 1], h[|h| - 1];
    if t in After(front).retained {
      RetainedRouted(cfg, i, front, t);
    } else {
      assert m in h && cfg.GoesTo(m, i);
      assert m.Publish? && m.packet.topic == t;
    }
  }

  /** A shard only ever pushes about its own topics. */
  lemma PushesRouted(cfg: Config, i: nat, h: seq<Msg>, m: Msg, p: Push)
    requires (forall x :: x in h ==> cfg.GoesTo(x, i)) && cfg.GoesTo(m, i)
    requires p in Pushes(After(h), m)
    ensures cfg.Shard(p.packet.topic) == i
  {
    if m.Subscribe? {
      var f := m.filter;
      var r := After(h);
      var t :| t in r.retained && Matches(t, f) && p == Replay(m.id, r.retained[t].(retain := true));
      AfterValid(h);
      RetainedRouted(cfg, i, h, t);
    }
  }

  ghost predicate PendingRouted(cfg: Config, s: State) {
    forall i, p :: 0 <= i < |s.shards| && p in s.shards[i].pending ==> cfg.Shard(p.packet.topic) == i
  }

  /** Delivered and still pending pushes about `t` are what the topic's shard owes for what it has handled. */
  ghost predicate Relayed(cfg: Config, s: State, c: ConnId, t: Str)
    requires cfg.n >= 1 && |s.shards| == cfg.n
  {
    var b := s.shards[cfg.Shard(t)];
    Delivered(s, c, t) + Filter(About(c, t), b.pending) == Feed(b.done, c, t)
  }

  lemma HandledRouted(cfg: Config, s: State, i: nat)
    requires Bookkeeping(cfg, s) && i < cfg.n
    ensures forall m :: m in s.shards[i].done ==> cfg.GoesTo(m, i)
    ensures forall m :: m in s.shards[i].channel ==> cfg.GoesTo(m, i)
  {
    var b := s.shards[i];
    forall m | m in b.done + b.channel
      ensures cfg.GoesTo(m, i)
    {
      var e := FilterMapMember(ToShard(i), s.log, m);
    }
    assert forall m :: m in b.done || m in b.channel ==> m in b.done + b.channel;
  }

  lemma TakeRelays(cfg: Config, s: State, i: nat, out: seq<Push>, c: ConnId, t: Str)
    requires cfg.n >= 1 && Bookkeeping(cfg, s) && PendingRouted(cfg, s) && Relayed(cfg, s, c, t)
    requires Enabled(cfg, s, Take(i, out))
    ensures var s' := Do(cfg, s, Take(i, out)); PendingRouted(cfg, s') && Relayed(cfg, s', c, t)
  {
    hide Pushes, Router.GoesTo, Expect, Actions;
    var b := s.shards[i];
    HandledRouted(cfg, s, i);
    forall p | p in out
      ensures cfg.Shard(p.packet.topic) == i
    {
      PushesRouted(cfg, i, b.done, b.channel[0], p);
    }
    if cfg.Shard(t) == i {
      AfterValid(b.done);
      ListedFilters(After(b.done), b.channel[0], out, c, t);
      FeedSnoc(b.done, b.channel[0], c, t);
      assert Delivered(s, c, t) + [] == Delivered(s, c, t);
    }
  }

  lemma PushedDelivers(cfg: Config, s: State, to: ConnId, o: Out, c: ConnId, t: Str)
    ensures Delivered(PushTo(cfg, s, to, o), c, t) ==
            Delivered(s, c, t) + if to == c then Optional(BrokerAbout(c, t)(o)) else []
  {
    FilterMapSnoc(BrokerAbout(c, t), QueueOf(s, c).pushed, o);
  }

  lemma FilterFront(c: ConnId, t: Str, s: seq<Push>)
    requires s != []
    ensures Filter(About(c, t), s) == (if About(c, t)(s[0]) then [s[0]] else []) + Filter(About(c, t), s[1..])
  {
    FilterAppend(About(c, t), [s[0]], s[1..]);
    FilterSnoc(About(c, t), [], s[0]);
    assert [] + [s[0]] == [s[0]] && s == [s[0]] + s[1..];
  }

  lemma DeliverRelays(cfg: Config, s: State, i: nat, c: ConnId, t: Str)
    requires cfg.n >= 1 && |s.shards| == cfg.n && PendingRouted(cfg, s) && Relayed(cfg, s, c, t)
    requires Enabled(cfg, s, Deliver(i))
    ensures var s' := Do(cfg, s, Deliver(i)); PendingRouted(cfg, s') && Relayed(cfg, s', c, t)
  {
    hide Router.ShardForTopic, Feed, Filter, FilterMap;
    var b := s.shards[i];
    var p := b.pending[0];
    var s1 := s.(shards := s.shards[i := b.(pending := b.pending[1..])]);
    assert cfg.Shard(p.packet.topic) == i;
    PushedDelivers(cfg, s1, p.to, FromBroker(p), c, t);
    FilterFront(c, t, b.pending);
    assert Delivered(s1, c, t) == Delivered(s, c, t);
    var here := if About(c, t)(p) then [p] else [];
    assert Delivered(Do(cfg, s, Deliver(i)), c, t) == Delivered(s, c, t) + here;
    assert Delivered(s, c, t) + (here + Filter(About(c, t), b.pending[1..])) ==
           (Delivered(s, c, t) + here) + Filter(About(c, t), b.pending[1..]);
    assert cfg.Shard(t) != i ==> Delivered(s, c, t) + [] == Delivered(s, c, t);
  }

  lemma ActRelays(cfg: Config, s: State, d: ConnId, c: ConnId, t: Str)
    requires cfg.n >= 1 && |s.shards| == cfg.n && PendingRouted(cfg, s) && Relayed(cfg, s, c, t)
    requires Enabled(cfg, s, Act(d))
    ensures var s' := Do(cfg, s, Act(d));
            && |s'.shards| == cfg.n
            && PendingRouted(cfg, s') && Relayed(cfg, s', c, t)
  {
    if s.conns[d].todo[0].Reply? {
      var s1 := s.(conns := s.conns[d := Conn(s.conns[d].did + [s.conns[d].todo[0]], s.conns[d].todo[1..])]);
      PushedDelivers(cfg, s1, d, Own(s.conns[d].todo[0].packet), c, t);
      assert Delivered(s1, c, t) == Delivered(s, c, t);
      assert Delivered(s, c, t) + [] == Delivered(s, c, t);
    }
  }

  lemma {:induction false} ReachedRelayed(cfg: Config, es: seq<Event>, c: ConnId, t: Str)
    requires cfg.n >= 1 && Legal(cfg, es)
    ensures var s := Reached(cfg, es);
            |s.shards| == cfg.n && PendingRouted(cfg, s) && Relayed(cfg, s, c, t)
  {
    if es != [] {
      hide Do, Pushes, Router.GoesTo, Relayed;
      var front, e := es[..|es| - 1], es[|es| - 1];
      var s := Reached(cfg, front);
      ReachedBookkeeping(cfg, front);
      ReachedBookkeeping(cfg, es);
      ReachedRelayed(cfg, front, c, t);
      match e
      case Act(d) => ActRelays(cfg, s, d, c, t);
      case Take(i, out) => TakeRelays(cfg, s, i, out, c, t);
      case Deliver(i) => DeliverRelays(cfg, s, i, c, t);
      case Write(d) => WriteRelays(cfg, s, d, c, t);
    }
  }

  lemma WriteRelays(cfg: Config, s: State, d: ConnId, c: ConnId, t: Str)
    requires cfg.n >= 1 && |s.shards| == cfg.n && PendingRouted(cfg, s) && Relayed(cfg, s, c, t)
    ensures var s' := Do(cfg, s, Write(d)); PendingRouted(cfg, s') && Relayed(cfg, s', c, t)
  {
  }

  // ---- The main results ----

  /** Handled by now: a prefix of the order, and all of it once the topic's shard has nothing waiting. */
  lemma HandledPrefix(cfg: Config, es: seq<Event>, t: Str) returns (k: nat)
    requires cfg.n >= 1 && Legal(cfg, es)
    ensures var s := Reached(cfg, es);
            && |s.shards| == cfg.n && k <= |s.log|
            && FilterMap(ToShard(cfg.Shard(t)), s.log[..k]) == s.shards[cfg.Shard(t)].done
            && (s.shards[cfg.Shard(t)].channel == [] ==> k == |s.log|)
  {
    var s := Reached(cfg, es);
    ReachedBookkeeping(cfg, es);
    var b := s.shards[cfg.Shard(t)];
    k := FilterMapCut(ToShard(cfg.Shard(t)), s.log, |b.done|);
    assert (b.done + b.channel)[..|b.done|] == b.done;
  }

  /** Per-topic linearizability. In every reachable state of any number of shards, readers and writers, for every
      topic `t`, what the broker has pushed or is about to push to any client about `t` is exactly what any single
      broker, handling the sends one at a time in one order, pushes for a prefix of that order (all of it once the
      topic's channel is drained). `OrderKeepsPrograms` says that the order respects every connection's program. */
  lemma PerTopicLinearizable(cfg: Config, es: seq<Event>, t: Str) returns (k: nat)
    requires cfg.n >= 1 && Legal(cfg, es)
    ensures var s := Reached(cfg, es);
            && |s.shards| == cfg.n && k <= |s.log|
            && (s.shards[cfg.Shard(t)].channel == [] ==> k == |s.log|)
            && forall c, out :: Emitted(Messages(Order(cfg, t, s.log[..k])), out) ==>
                 Delivered(s, c, t) + Filter(About(c, t), s.shards[cfg.Shard(t)].pending) == Filter(About(c, t), out)
  {
    hide Feed, Emitted, Messages, Order, Delivered, Filter;
    var s := Reached(cfg, es);
    k := HandledPrefix(cfg, es, t);
    ReachedBookkeeping(cfg, es);
    var handled := Messages(Order(cfg, t, s.log[..k]));
    forall c, out | Emitted(handled, out)
      ensures Delivered(s, c, t) + Filter(About(c, t), s.shards[cfg.Shard(t)].pending) == Filter(About(c, t), out)
    {
      ReachedRelayed(cfg, es, c, t);
      Simulates(cfg, t, s.log[..k], c);
      EmittedFilters(handled, out, c, t);
    }
  }
}
