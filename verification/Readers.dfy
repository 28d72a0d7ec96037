/** Networks in which every connection runs `reader_loop`: where messages come from. */
module Readers {
  import opened Common
  import opened Sequences
  import opened Broker
  import opened Session
  import opened Network
  import opened Linearizability
  import Packets
  import Router

  ghost predicate IsWhole(c: ConnId, effects: seq<Effect>) {
    exists packets :: effects == Whole(c, packets)
  }

  /** Every connection's script is what some packets make its reader do, down to the final Disconnect. */
  ghost predicate ReaderNetwork(cfg: Config) {
    cfg.n >= 1 && forall c :: c in cfg.scripts ==> IsWhole(c, cfg.scripts[c])
  }

  /** All that is needed to follow a message back to its sender: programs send in their connection's own name. They
      may stop anywhere, so that clients stay connected. */
  ghost predicate OwnNames(cfg: Config) {
    cfg.n >= 1 && forall c, m :: c in cfg.scripts && Send(m) in cfg.scripts[c] ==> m.id == c
  }

  lemma {:induction false} TranscriptIds(c: ConnId, packets: seq<Packets.Packet>, m: Msg)
    requires Send(m) in Transcript(c, packets)
    ensures m.id == c && !m.Disconnect?
  {
    if packets != [] {
      var front, last := packets[..|packets| - 1], packets[|packets| - 1];
      if Send(m) in Transcript(c, front) {
        TranscriptIds(c, front, m);
      } else {
        assert Send(m) in Handled(c, last);
      }
    }
  }

  /** A reader sends in its own name only, and deregisters exactly once, at the very end. */
  lemma WholeSends(c: ConnId, effects: seq<Effect>) returns (before: seq<Msg>)
    requires IsWhole(c, effects)
    ensures Sends(effects) == before + [Disconnect(c)]
    ensures forall m :: m in before ==> m.id == c && !m.Disconnect?
    ensures forall m :: Send(m) in effects ==> m.id == c
  {
    var packets :| effects == Whole(c, packets);
    var body := Transcript(c, packets);
    before := Sends(body);
    assert effects == (body + [Send(Disconnect(c))]) + [CloseQueue];
    FilterMapSnoc(AsSend(), body + [Send(Disconnect(c))], CloseQueue);
    FilterMapSnoc(AsSend(), body, Send(Disconnect(c)));
    assert Sends(effects) == before + [Disconnect(c)] + [];
    forall m | m in before
      ensures m.id == c && !m.Disconnect?
    {
      var e := FilterMapMember(AsSend(), body, m);
      TranscriptIds(c, packets, m);
    }
    forall m | Send(m) in effects
      ensures m.id == c
    {
      if Send(m) in body {
        TranscriptIds(c, packets, m);
      }
    }
  }

  lemma ReadersUseOwnNames(cfg: Config)
    requires ReaderNetwork(cfg)
    ensures OwnNames(cfg)
  {
    forall c, m | c in cfg.scripts && Send(m) in cfg.scripts[c]
      ensures m.id == c
    {
      var before := WholeSends(c, cfg.scripts[c]);
    }
  }

  /** A logged enqueue was done by the connection that the message names. */
  lemma LoggedByItsSender(cfg: Config, es: seq<Event>, e: Entry)
    requires OwnNames(cfg) && Legal(cfg, es) && e in Reached(cfg, es).log
    ensures var s := Reached(cfg, es);
            && e.conn == e.msg.id && e.conn in s.conns
            && Enqueue(e.shard, e.msg) in s.conns[e.conn].did
  {
    var s := Reached(cfg, es);
    var c := e.conn;
    ReachedBookkeeping(cfg, es);
    FilterMember(ByConn(c), s.log, e);
    var a := FilterMapMember(AsEntry(c), s.conns[c].did, e);
    assert a in s.conns[c].did + s.conns[c].todo;
    ActionsGo(cfg, cfg.scripts[c], a);
  }

  /** What a shard has received was enqueued there by the connection that the message names. */
  lemma ReceivedFromSender(cfg: Config, es: seq<Event>, i: nat, m: Msg)
    requires OwnNames(cfg) && Legal(cfg, es) && i < |Reached(cfg, es).shards|
    requires m in Reached(cfg, es).shards[i].done || m in Reached(cfg, es).shards[i].channel
    ensures m.id in Reached(cfg, es).conns && Enqueue(i, m) in Reached(cfg, es).conns[m.id].did
  {
    var s := Reached(cfg, es);
    ReachedBookkeeping(cfg, es);
    assert m in s.shards[i].done + s.shards[i].channel;
    var e := FilterMapMember(ToShard(i), s.log, m);
    LoggedByItsSender(cfg, es, e);
  }

  /** What a shard has received from one connection, in a class of messages that all go there: every completed send
      of that class, in program order, and none that has not begun. */
  lemma ReceivedTracksProgress(cfg: Config, es: seq<Event>, i: nat, c: ConnId, keep: Msg -> bool, k: nat)
    requires OwnNames(cfg) && Legal(cfg, es) && i < cfg.n && c in cfg.scripts && k <= |cfg.scripts[c]|
    requires forall m :: keep(m) ==> m.id == c
    requires forall m :: keep(m) && Send(m) in cfg.scripts[c] ==> cfg.GoesTo(m, i)
    ensures var s := Reached(cfg, es);
            && |s.shards| == cfg.n
            && var received := Filter(keep, s.shards[i].done + s.shards[i].channel);
               var program := Filter(keep, Sends(cfg.scripts[c][..k]));
               && (NotBeyond(cfg, s, c, k) ==> received <= program)
               && (Completed(cfg, s, c, k) ==> program <= received)
  {
    hide Completed, NotBeyond, Reached, Legal, Filter, FilterMap, Sends, Router.GoesTo, Actions;
    var s := Reached(cfg, es);
    var view := Select(Always(i), keep);
    ReachedBookkeeping(cfg, es);
    FilterAfterMap(ToShard(i), keep, view, s.log);
    forall e | e in s.log && view(e).Some?
      ensures ByConn(c)(e)
    {
      LoggedByItsSender(cfg, es, e);
    }
    FilterMapOfFilter(view, ByConn(c), s.log);
    ReachedSelect(cfg, es, c, Always(i), keep, k);
  }

  /** So it is a prefix of the program's messages of that class, and all of them once the connection is done. */
  lemma ReceivedInProgramOrder(cfg: Config, es: seq<Event>, i: nat, c: ConnId, keep: Msg -> bool)
    requires OwnNames(cfg) && Legal(cfg, es) && i < cfg.n && c in cfg.scripts
    requires forall m :: keep(m) ==> m.id == c
    requires forall m :: keep(m) && Send(m) in cfg.scripts[c] ==> cfg.GoesTo(m, i)
    ensures var s := Reached(cfg, es);
            && |s.shards| == cfg.n && c in s.conns
            && var received := Filter(keep, s.shards[i].done + s.shards[i].channel);
               var program := Filter(keep, Sends(cfg.scripts[c]));
               received <= program && (s.conns[c].todo == [] ==> received == program)
  {
    hide Reached, Legal, Filter, Sends, Router.GoesTo, Actions;
    WholeProgram(cfg, es, c);
    ReceivedTracksProgress(cfg, es, i, c, keep, |cfg.scripts[c]|);
  }

  // ---- What one connection's messages do ----

  /** The messages that decide whether `c` is a client, and on the list of `f`. */
  ghost predicate Concerns(m: Msg, c: ConnId, f: Str) {
    && m.id == c
    && (m.Register? || m.Disconnect? || (m.Subscribe? && m.filter == f) || (m.Unsubscribe? && m.filter == f))
  }

  ghost predicate SameStanding(a: Registry, b: Registry, c: ConnId, f: Str) {
    && (c in a.clients <==> c in b.clients)
    && (c in a.clients ==> a.clients[c] == b.clients[c])
    && (c in Subs(a, f) <==> c in Subs(b, f))
  }

  lemma SameStandingStep(a: Registry, b: Registry, m: Msg, c: ConnId, f: Str)
    requires SameStanding(a, b, c, f)
    ensures SameStanding(Next(a, m), Next(b, m), c, f)
    ensures !Concerns(m, c, f) ==> SameStanding(Next(a, m), b, c, f)
  {
    NextMember(a, m, c, f);
    NextMember(b, m, c, f);
  }

  /** A client's standing depends on its own messages only. */
  lemma {:induction false} StandingIsLocal(h: seq<Msg>, c: ConnId, f: Str, keep: Msg -> bool)
    requires forall m :: m in h && Concerns(m, c, f) ==> keep(m)
    ensures SameStanding(After(h), After(Filter(keep, h)), c, f)
  {
    if h != [] {
      hide Next, SameStanding, Concerns;
      var front, m := h[..|h| - 1], h[|h| - 1];
      assert m in h && forall x :: x in front ==> x in h;
      StandingIsLocal(front, c, f, keep);
      SameStandingStep(After(front), After(Filter(keep, front)), m, c, f);
      if keep(m) {
        AfterSnoc(Filter(keep, front), m);
      }
    } else {
      assert Filter(keep, h) == h;
    }
  }
}
