/** Connections, shards and client queues as one system of interleaved steps. */
module Network {
  import opened Common
  import opened Sequences
  import opened Broker
  import opened Session
  import Router
  import Queue
  import Packets

  /** The parameters of a run: shards, hash, queue capacity, and what each connection's reader will do. */
  datatype Config = Config(n: nat, hash: Str -> nat, capacity: nat, scripts: map<ConnId, seq<Effect>>) {
    function Shard(topic: Str): nat {
      Router.ShardForTopic(hash, topic, n)
    }

    predicate GoesTo(m: Msg, i: nat) {
      Router.GoesTo(hash, n, m, i)
    }
  }

  /** One step of a reader: a single enqueue, or a push onto its own queue. A broadcast is many enqueues. */
  datatype Action = Enqueue(shard: nat, msg: Msg) | Reply(packet: Packets.Packet)

  function ActionsOf(cfg: Config, e: Effect): seq<Action> {
    match e
    case Send(m) =>
      (match Router.Route(cfg.hash, cfg.n, m)
       case SingleShard(s) => [Enqueue(s, m)]
       case Broadcast => Copies(m, cfg.n))
    case Answer(p) => [Reply(p)]
    case CloseQueue => []
  }

  function Copies(m: Msg, k: nat): seq<Action> {
    if k == 0 then [] else Copies(m, k - 1) + [Enqueue(k - 1, m)]
  }

  function Actions(cfg: Config, effects: seq<Effect>): seq<Action> {
    if effects == [] then []
    else Actions(cfg, effects[..|effects| - 1]) + ActionsOf(cfg, effects[|effects| - 1])
  }

  lemma NoActions(cfg: Config)
    ensures Actions(cfg, []) == []
  {
  }

  lemma ActionsSnoc(cfg: Config, a: seq<Effect>, e: Effect)
    ensures Actions(cfg, a + [e]) == Actions(cfg, a) + ActionsOf(cfg, e)
  {
    hide ActionsOf;
    assert (a + [e])[..|a|] == a;
  }

  lemma {:induction false} ActionsAppend(cfg: Config, a: seq<Effect>, b: seq<Effect>)
    ensures Actions(cfg, a + b) == Actions(cfg, a) + Actions(cfg, b)
    decreases |b|
  {
    hide ActionsOf;
    if b == [] {
      assert a + b == a;
    } else {
      var front, last := b[..|b| - 1], b[|b| - 1];
      assert a + b == (a + front) + [last];
      ActionsSnoc(cfg, a + front, last);
      ActionsAppend(cfg, a, front);
    }
  }

  lemma ActionsPrefix(cfg: Config, effects: seq<Effect>, k: nat)
    requires k <= |effects|
    ensures Actions(cfg, effects[..k]) <= Actions(cfg, effects)
  {
    hide Actions;
    assert effects == effects[..k] + effects[k..];
    ActionsAppend(cfg, effects[..k], effects[k..]);
  }

  datatype Conn = Conn(did: seq<Action>, todo: seq<Action>)

  /** A shard: what its actor has handled, what waits in its channel, what it still has to push. */
  datatype Shard = Shard(done: seq<Msg>, channel: seq<Msg>, pending: seq<Push>)

  /** What a client's queue carries: answers of its own reader, and pushes of the broker. */
  datatype Out = Own(packet: Packets.Packet) | FromBroker(push: Push)

  ghost function AnyPush(): Out -> Option<Push> {
    (o: Out) => if o.FromBroker? then Some(o.push) else None
  }

  /** One enqueue that happened. */
  datatype Entry = Entry(conn: ConnId, shard: nat, msg: Msg)

  datatype State = State(
    conns: map<ConnId, Conn>,
    shards: seq<Shard>,
    queues: map<ConnId, Queue.Trace<Out>>,
    log: seq<Entry>)                         // every enqueue so far, in the order they happened

  function QueueOf(s: State, c: ConnId): Queue.Trace<Out> {
    if c in s.queues then s.queues[c] else Queue.Empty()
  }

  datatype Event =
    | Act(c: ConnId)                    // a reader does its next action
    | Take(i: nat, out: seq<Push>)      // an actor receives a message and works out its pushes, in some order
    | Deliver(i: nat)                   // an actor makes its next push
    | Write(c: ConnId)                  // a writer takes the next event, if any

  function Start(cfg: Config): State {
    State(map c | c in cfg.scripts :: Conn([], Actions(cfg, cfg.scripts[c])),
          seq(cfg.n, _ => Shard([], [], [])), map[], [])
  }

  ghost predicate Enabled(cfg: Config, s: State, e: Event) {
    match e
    case Act(c) =>
      && c in s.conns && s.conns[c].todo != []
      && (s.conns[c].todo[0].Enqueue? ==> s.conns[c].todo[0].shard < |s.shards|)
    case Take(i, out) =>
      && i < |s.shards| && s.shards[i].pending == [] && s.shards[i].channel != []
      && Lists(out, Pushes(After(s.shards[i].done), s.shards[i].channel[0]))
    case Deliver(i) => i < |s.shards| && s.shards[i].pending != []
    case Write(c) => true
  }

  function PushTo(cfg: Config, s: State, c: ConnId, o: Out): State {
    s.(queues := s.queues[c := Queue.Pushed(QueueOf(s, c), cfg.capacity, o)])
  }

  ghost function Do(cfg: Config, s: State, e: Event): State
    requires Enabled(cfg, s, e)
  {
    match e
    case Act(c) =>
      var conn := s.conns[c];
      var s' := s.(conns := s.conns[c := Conn(conn.did + [conn.todo[0]], conn.todo[1..])]);
      (match conn.todo[0]
       case Enqueue(i, m) =>
         s'.(shards := s.shards[i := s.shards[i].(channel := s.shards[i].channel + [m])],
         log := s.log + [Entry(c, i, m)])
       case Reply(p) => PushTo(cfg, s', c, Own(p)))
    case Take(i, out) =>
      var b := s.shards[i];
      s.(shards := s.shards[i := Shard(b.done + [b.channel[0]], b.channel[1..], out)])
    case Deliver(i) =>
      var b := s.shards[i];
      PushTo(cfg, s.(shards := s.shards[i := b.(pending := b.pending[1..])]), b.pending[0].to,
             FromBroker(b.pending[0]))
    case Write(c) => s.(queues := s.queues[c := Queue.Taken(QueueOf(s, c))])
  }

  /** A schedule that can be followed, and the state it leads to. */
  ghost predicate Legal(cfg: Config, es: seq<Event>)
    decreases |es|, 0
  {
    es == [] || var front := es[..|es| - 1];
                Legal(cfg, front) && Enabled(cfg, Reached(cfg, front), es[|es| - 1])
  }

  ghost function Reached(cfg: Config, es: seq<Event>): State
    requires Legal(cfg, es)
    decreases |es|, 1
  {
    if es == [] then Start(cfg) else Do(cfg, Reached(cfg, es[..|es| - 1]), es[|es| - 1])
  }

  lemma ReachedSnoc(cfg: Config, es: seq<Event>, e: Event)
    requires Legal(cfg, es) && Enabled(cfg, Reached(cfg, es), e)
    ensures Legal(cfg, es + [e]) && Reached(cfg, es + [e]) == Do(cfg, Reached(cfg, es), e)
  {
    hide Do, Enabled;
    assert (es + [e])[..|es|] == es;
  }

  /** A schedule can be followed piece by piece, and the log of enqueues only grows. */
  lemma {:induction false} LegalPrefix(cfg: Config, es: seq<Event>, k: nat)
    requires Legal(cfg, es) && k <= |es|
    ensures Legal(cfg, es[..k])
    ensures Reached(cfg, es[..k]).log <= Reached(cfg, es).log
    decreases |es|
  {
    if k == |es| {
      assert es[..k] == es;
    } else {
      hide Do, Enabled;
      var front := es[..|es| - 1];
      LegalPrefix(cfg, front, k);
      assert front[..k] == es[..k];
      LogGrows(cfg, Reached(cfg, front), es[|es| - 1]);
    }
  }

  lemma LogGrows(cfg: Config, s: State, e: Event)
    requires Enabled(cfg, s, e)
    ensures s.log <= Do(cfg, s, e).log
  {
  }

  // ---- How far a connection has come ----

  /** The first `k` effects of the connection's program are done. */
  ghost predicate Completed(cfg: Config, s: State, c: ConnId, k: nat) {
    c in s.conns && c in cfg.scripts && k <= |cfg.scripts[c]| && Actions(cfg, cfg.scripts[c][..k]) <= s.conns[c].did
  }

  /** Nothing beyond the first `k` effects has begun. */
  ghost predicate NotBeyond(cfg: Config, s: State, c: ConnId, k: nat) {
    c in s.conns && c in cfg.scripts && k <= |cfg.scripts[c]| && s.conns[c].did <= Actions(cfg, cfg.scripts[c][..k])
  }

  /** Every connection has done exactly the first so many effects of its program, and is in the middle of none. */
  ghost predicate Stands(cfg: Config, s: State, k: ConnId -> nat) {
    forall c :: c in cfg.scripts ==> Completed(cfg, s, c, k(c)) && NotBeyond(cfg, s, c, k(c))
  }

  /** All channels drained, all pushes made. */
  ghost predicate Drained(s: State) {
    forall i :: 0 <= i < |s.shards| ==> s.shards[i].channel == [] && s.shards[i].pending == []
  }

  /** And all readers done as well. */
  ghost predicate Quiet(s: State) {
    Drained(s) && forall c :: c in s.conns ==> s.conns[c].todo == []
  }

  // ---- Bookkeeping that every step keeps ----

  ghost function ToShard(i: nat): Entry -> Option<Msg> {
    (e: Entry) => if e.shard == i then Some(e.msg) else None
  }

  ghost function ByConn(c: ConnId): Entry -> bool {
    (e: Entry) => e.conn == c
  }

  ghost function AsEntry(c: ConnId): Action -> Option<Entry> {
    (a: Action) => if a.Enqueue? then Some(Entry(c, a.shard, a.msg)) else None
  }

  /** The enqueues among a connection's actions. */
  ghost function Entries(c: ConnId, actions: seq<Action>): seq<Entry> {
    FilterMap(AsEntry(c), actions)
  }

  ghost predicate Bookkeeping(cfg: Config, s: State) {
    && |s.shards| == cfg.n
    && s.conns.Keys == cfg.scripts.Keys
    && (forall c :: c in s.conns ==> s.conns[c].did + s.conns[c].todo == Actions(cfg, cfg.scripts[c]))
    && (forall c :: c in s.conns ==> Filter(ByConn(c), s.log) == Entries(c, s.conns[c].did))
    && (forall e :: e in s.log ==> e.conn in s.conns && cfg.GoesTo(e.msg, e.shard))
    && (forall i :: 0 <= i < cfg.n ==> FilterMap(ToShard(i), s.log) == s.shards[i].done + s.shards[i].channel)
  }

  lemma {:induction false} CopiesGo(cfg: Config, m: Msg, k: nat, a: Action)
    requires a in Copies(m, k) && k <= cfg.n && Router.Route(cfg.hash, cfg.n, m).Broadcast?
    ensures a.Enqueue? && a.msg == m && cfg.GoesTo(m, a.shard)
  {
    if a in Copies(m, k - 1) {
      CopiesGo(cfg, m, k - 1, a);
    }
  }

  /** Actions only ever enqueue a message where it goes. */
  lemma {:induction false} ActionsGo(cfg: Config, effects: seq<Effect>, a: Action)
    requires a in Actions(cfg, effects) && a.Enqueue? && cfg.n >= 1
    ensures cfg.GoesTo(a.msg, a.shard) && Send(a.msg) in effects
  {
    var front, last := effects[..|effects| - 1], effects[|effects| - 1];
    if a in Actions(cfg, front) {
      ActionsGo(cfg, front, a);
    } else {
      assert a in ActionsOf(cfg, last);
      if Router.Route(cfg.hash, cfg.n, last.msg).Broadcast? {
        CopiesGo(cfg, last.msg, cfg.n, a);
      }
    }
  }

  /** A connection's next action is part of its script. */
  lemma NextActionGoes(cfg: Config, s: State, c: ConnId)
    requires cfg.n >= 1 && Bookkeeping(cfg, s) && Enabled(cfg, s, Act(c)) && s.conns[c].todo[0].Enqueue?
    ensures cfg.GoesTo(s.conns[c].todo[0].msg, s.conns[c].todo[0].shard)
    ensures Send(s.conns[c].todo[0].msg) in cfg.scripts[c]
  {
    var a := s.conns[c].todo[0];
    assert a in s.conns[c].did + s.conns[c].todo;
    ActionsGo(cfg, cfg.scripts[c], a);
  }

  lemma EnqueueKeepsBookkeeping(cfg: Config, s: State, c: ConnId)
    requires cfg.n >= 1 && Bookkeeping(cfg, s) && Enabled(cfg, s, Act(c)) && s.conns[c].todo[0].Enqueue?
    ensures Bookkeeping(cfg, Do(cfg, s, Act(c)))
  {
    hide Actions, Router.GoesTo, Filter, FilterMap;
    NextActionGoes(cfg, s, c);
    var t := Do(cfg, s, Act(c));
    var a := s.conns[c].todo[0];
    var e := Entry(c, a.shard, a.msg);
    assert t.log == s.log + [e];
    assert t.conns[c].did + t.conns[c].todo == s.conns[c].did + s.conns[c].todo;
    FilterMapSnoc(AsEntry(c), s.conns[c].did, a);
    forall d | d in t.conns
      ensures Filter(ByConn(d), t.log) == Entries(d, t.conns[d].did)
    {
      FilterSnoc(ByConn(d), s.log, e);
      assert Filter(ByConn(d), s.log) + [] == Filter(ByConn(d), s.log);
    }
    forall i | 0 <= i < cfg.n
      ensures FilterMap(ToShard(i), t.log) == t.shards[i].done + t.shards[i].channel
    {
      FilterMapSnoc(ToShard(i), s.log, e);
      assert s.shards[i].done + s.shards[i].channel + [a.msg] == s.shards[i].done + (s.shards[i].channel + [a.msg]);
    }
  }

  lemma ReplyKeepsBookkeeping(cfg: Config, s: State, c: ConnId)
    requires Bookkeeping(cfg, s) && Enabled(cfg, s, Act(c)) && s.conns[c].todo[0].Reply?
    ensures Bookkeeping(cfg, Do(cfg, s, Act(c)))
  {
    hide Actions, Router.GoesTo, Filter, FilterMap;
    var t := Do(cfg, s, Act(c));
    assert t.conns[c].did + t.conns[c].todo == s.conns[c].did + s.conns[c].todo;
    FilterMapSnoc(AsEntry(c), s.conns[c].did, s.conns[c].todo[0]);
    assert Entries(c, s.conns[c].did) + [] == Entries(c, s.conns[c].did);
  }

  lemma TakeKeepsBookkeeping(cfg: Config, s: State, i: nat, out: seq<Push>)
    requires Bookkeeping(cfg, s) && Enabled(cfg, s, Take(i, out))
    ensures Bookkeeping(cfg, Do(cfg, s, Take(i, out)))
  {
    hide Actions, Router.GoesTo, Filter, FilterMap, Pushes, After;
    var t := Do(cfg, s, Take(i, out));
    var b := s.shards[i];
    assert b.done + b.channel == (b.done + [b.channel[0]]) + b.channel[1..];
  }

  lemma StepKeepsBookkeeping(cfg: Config, s: State, e: Event)
    requires cfg.n >= 1 && Bookkeeping(cfg, s) && Enabled(cfg, s, e)
    ensures Bookkeeping(cfg, Do(cfg, s, e))
  {
    hide Actions, Router.GoesTo, Filter, FilterMap, Pushes, After;
    match e
    case Act(c) =>
      if s.conns[c].todo[0].Enqueue? {
        EnqueueKeepsBookkeeping(cfg, s, c);
      } else {
        ReplyKeepsBookkeeping(cfg, s, c);
      }
    case Take(i, out) => TakeKeepsBookkeeping(cfg, s, i, out);
    case Deliver(_) =>
    case Write(_) =>
  }

  lemma {:induction false} ReachedBookkeeping(cfg: Config, es: seq<Event>)
    requires cfg.n >= 1 && Legal(cfg, es)
    ensures Bookkeeping(cfg, Reached(cfg, es))
  {
    if es == [] {
      forall c | c in cfg.scripts
        ensures [] + Actions(cfg, cfg.scripts[c]) == Actions(cfg, cfg.scripts[c])
      {
      }
    } else {
      ReachedBookkeeping(cfg, es[..|es| - 1]);
      StepKeepsBookkeeping(cfg, Reached(cfg, es[..|es| - 1]), es[|es| - 1]);
    }
  }
}
