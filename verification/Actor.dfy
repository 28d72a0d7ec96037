/** One `run_broker` loop: three maps updated in place, and pushes made as it goes. */
module Actor {
  import opened Common
  import opened Sequences
  import opened Topics
  import opened Packets
  import opened Broker

  /** One live push per connection id, in that order. */
  ghost function LiveTo(ids: seq<ConnId>, p: PublishPacket, from: ConnId): (out: seq<Push>)
    ensures |out| == |ids| && forall i :: 0 <= i < |ids| ==> out[i] == Live(ids[i], p, from)
  {
    seq(|ids|, i requires 0 <= i < |ids| => Live(ids[i], p, from))
  }

  lemma LiveToLists(ids: seq<ConnId>, p: PublishPacket, from: ConnId, r: Registry)
    requires NoDuplicates(ids)
    requires forall x :: x in ids <==> x in r.clients && Subscribed(r, x, p.topic)
    ensures Lists(LiveTo(ids, p, from), Pushes(r, Msg.Publish(from, p)))
  {
    var out := LiveTo(ids, p, from);
    forall x | x in Pushes(r, Msg.Publish(from, p))
      ensures x in out
    {
      var i :| 0 <= i < |ids| && ids[i] == x.to;
      assert out[i] == x;
    }
  }

  /** One replay per matching retained message is all that a Subscribe asks for. */
  lemma ReplaysListed(r: Registry, id: ConnId, filter: Str, out: seq<Push>)
    requires id in r.clients && Valid(r) && NoDuplicates(out)
    requires forall x :: x in out ==>
        && x.Replay? && x.to == id && x.packet.topic in r.retained && Matches(x.packet.topic, filter)
        && x.packet == r.retained[x.packet.topic]
    requires forall t :: t in r.retained && Matches(t, filter) ==> Replay(id, r.retained[t]) in out
    ensures Lists(out, Pushes(r, Msg.Subscribe(id, filter)))
  {
    hide Matches;
    var due := Pushes(r, Msg.Subscribe(id, filter));
    forall x | x in due
      ensures x in out
    {
      var t :| t in r.retained && Matches(t, filter) && x == Replay(id, r.retained[t].(retain := true));
      assert Replay(id, r.retained[t]) in out;
    }
    forall x | x in out
      ensures x in due
    {
      assert x.packet.topic in r.retained && Matches(x.packet.topic, filter);
    }
  }

  class Shard {
    var clients: map<ConnId, Str>
    var topics: map<Str, seq<ConnId>>
    var retained: map<Str, PublishPacket>
    var outbox: seq<Push>    // every push onto a client's queue, in order

    ghost function State(): Registry
      reads this
    {
      Registry(clients, topics, retained)
    }

    constructor ()
      ensures State() == EMPTY && outbox == []
    {
      clients, topics, retained, outbox := map[], map[], map[], [];
    }

    /** Replay of retained messages to a new subscriber; `retained` is scanned in arbitrary order. */
    method ReplayRetained(id: ConnId, filter: Str)
      requires id in clients && Valid(State())
      modifies this`outbox
      ensures exists out :: outbox == old(outbox) + out && Lists(out, Pushes(State(), Msg.Subscribe(id, filter)))
    {
      ghost var out := [];
      if IsWildcard(filter) {
        var todo := retained.Keys;
        while todo != {}
          invariant todo <= retained.Keys
          invariant outbox == old(outbox) + out && NoDuplicates(out)
          invariant forall x :: x in out ==> x.Replay? && x.to == id && x.packet.topic !in todo
          invariant forall x :: x in out ==>
              && x.packet.topic in retained && Matches(x.packet.topic, filter)
              && x.packet == retained[x.packet.topic]
          invariant forall t :: t in retained.Keys - todo && Matches(t, filter) ==> Replay(id, retained[t]) in out
          decreases todo
        {
          var t :| t in todo;
          todo := todo - {t};
          var matching := TopicMatchesFilter(retained[t].topic, filter);
          if matching {
            var packet := retained[t].(retain := true);
            outbox := outbox + [Replay(id, packet)];
            out := out + [Replay(id, packet)];
          }
        }
      } else {
        PlainFilterMatchesAll(filter);
        if filter in retained {
          var packet := retained[filter].(retain := true);
          outbox := outbox + [Replay(id, packet)];
          out := [Replay(id, packet)];
        }
      }
      ReplaysListed(State(), id, filter, out);
    }

    lemma PlainFilterMatchesAll(filter: Str)
      requires !IsWildcard(filter)
      ensures forall t :: Matches(t, filter) <==> t == filter
    {
      forall t
        ensures Matches(t, filter) <==> t == filter
      {
        PlainFilterMatches(t, filter);
      }
    }

    /** Some filter of `done` that matches has this client on its list. */
    ghost predicate Heard(done: set<Str>, topic: Str, id: ConnId)
      reads this
    {
      exists f :: f in done && f in topics && Matches(topic, f) && id in topics[f]
    }

    /** First pass: the list filed under the topic's own name. */
    method ExactPass(from: ConnId, p: PublishPacket) returns (notified: seq<ConnId>)
      requires Valid(State())
      modifies this`outbox
      ensures outbox == old(outbox) + LiveTo(notified, p, from) && NoDuplicates(notified)
      ensures forall x :: x in notified <==> x in clients && Heard({p.topic}, p.topic, x)
    {
      notified := [];
      MatchesItself(p.topic);
      if p.topic in topics {
        var subs := topics[p.topic];
        for i := 0 to |subs|
          invariant outbox == old(outbox) + LiveTo(notified, p, from) && NoDuplicates(notified)
          invariant forall x :: x in notified <==> x in clients && x in subs[..i]
        {
          var sid := subs[i];
          assert subs[..i + 1] == subs[..i] + [sid];
          if sid in clients {
            outbox := outbox + [Live(sid, p, from)];
            assert LiveTo(notified + [sid], p, from) == LiveTo(notified, p, from) + [Live(sid, p, from)];
            notified := notified + [sid];
          }
        }
        assert subs[..|subs|] == subs;
      }
    }

    /** Both passes: the exact one, then every matching wildcard filter in arbitrary order. */
    method FanOut(from: ConnId, p: PublishPacket)
      requires Valid(State())
      modifies this`outbox
      ensures exists out :: outbox == old(outbox) + out && Lists(out, Pushes(State(), Msg.Publish(from, p)))
    {
      var notified := ExactPass(from, p);
      var todo := topics.Keys;
      ghost var done := {p.topic};
      while todo != {}
        invariant p.topic in done && todo <= topics.Keys <= done + todo
        invariant outbox == old(outbox) + LiveTo(notified, p, from) && NoDuplicates(notified)
        invariant forall x :: x in notified <==> x in clients && Heard(done, p.topic, x)
        decreases todo
      {
        var filter :| filter in todo;
        todo := todo - {filter};
        ghost var before := notified;
        notified := WildcardTurn(filter, notified, done, from, p);
        assert LiveTo(before, p, from) + LiveTo(notified[|before|..], p, from) == LiveTo(notified, p, from);
        done := done + {filter};
      }
      assert forall x :: Heard(done, p.topic, x) <==> Subscribed(State(), x, p.topic);
      LiveToLists(notified, p, from, State());
    }

    /** One turn of the wildcard pass. */
    method WildcardTurn(filter: Str, before: seq<ConnId>, ghost done: set<Str>, from: ConnId, p: PublishPacket)
      returns (notified: seq<ConnId>)
      requires filter in topics && NoDuplicates(before) && p.topic in done
      requires forall x :: x in before <==> x in clients && Heard(done, p.topic, x)
      modifies this`outbox
      ensures NoDuplicates(notified) && before <= notified
      ensures outbox == old(outbox) + LiveTo(notified[|before|..], p, from)
      ensures forall x :: x in notified <==> x in clients && Heard(done + {filter}, p.topic, x)
    {
      notified := before;
      if !IsWildcard(filter) {
        PlainFilterMatches(p.topic, filter);
        return;
      }
      var matching := TopicMatchesFilter(p.topic, filter);
      if !matching {
        return;
      }
      var subs := topics[filter];
      for j := 0 to |subs|
        invariant before <= notified && NoDuplicates(notified)
        invariant outbox == old(outbox) + LiveTo(notified[|before|..], p, from)
        invariant forall x :: x in notified <==> x in clients && (Heard(done, p.topic, x) || x in subs[..j])
      {
        var sid := subs[j];
        assert subs[..j + 1] == subs[..j] + [sid];
        if sid !in notified && sid in clients {
          outbox := outbox + [Live(sid, p, from)];
          assert (notified + [sid])[|before|..] == notified[|before|..] + [sid];
          notified := notified + [sid];
        }
      }
      assert subs[..|subs|] == subs;
      assert forall x :: Heard(done + {filter}, p.topic, x) <==> Heard(done, p.topic, x) || x in subs;
    }

    method OnSubscribe(id: ConnId, filter: Str)
      requires Valid(State())
      modifies this`topics, this`outbox
      ensures State() == Next(old(State()), Msg.Subscribe(id, filter))
      ensures exists out :: outbox == old(outbox) + out && Lists(out, Pushes(old(State()), Msg.Subscribe(id, filter)))
    {
      ghost var r := State();
      NextValid(r, Msg.Subscribe(id, filter));
      if filter !in topics {
        topics := topics[filter := []];
      }
      if id !in topics[filter] {
        topics := topics[filter := topics[filter] + [id]];
      }
      assert topics == Next(r, Msg.Subscribe(id, filter)).topics;
      if id in clients {
        ReplayRetained(id, filter);
      } else {
        assert outbox == old(outbox) + [];
      }
    }

    method OnPublish(from: ConnId, packet: PublishPacket)
      requires Valid(State())
      modifies this`retained, this`outbox
      ensures State() == Next(old(State()), Msg.Publish(from, packet))
      ensures exists out :: outbox == old(outbox) + out && Lists(out, Pushes(old(State()), Msg.Publish(from, packet)))
    {
      ghost var r := State();
      NextValid(r, Msg.Publish(from, packet));
      if packet.retain {
        if packet.payload == [] {
          retained := retained - {packet.topic};
        } else {
          retained := retained[packet.topic := packet];
        }
      }
      assert Pushes(State(), Msg.Publish(from, packet)) == Pushes(r, Msg.Publish(from, packet)) by {
        assert forall id :: Subscribed(State(), id, packet.topic) <==> Subscribed(r, id, packet.topic);
      }
      FanOut(from, packet);
    }

    method OnDisconnect(id: ConnId)
      modifies this`clients, this`topics
      ensures State() == Next(old(State()), Msg.Disconnect(id))
    {
      clients := clients - {id};
      var todo := topics.Keys;
      while todo != {}
        invariant todo <= topics.Keys == old(topics).Keys
        invariant clients == old(clients) - {id}
        invariant forall f :: f in topics ==>
            topics[f] == if f in todo then old(topics)[f] else Without(old(topics)[f], id)
        decreases todo
      {
        var f :| f in todo;
        todo := todo - {f};
        topics := topics[f := Without(topics[f], id)];
      }
      assert topics == Next(old(State()), Msg.Disconnect(id)).topics;
    }

    /** One turn of the actor's loop. */
    method Handle(msg: Msg)
      requires Valid(State())
      modifies this
      ensures State() == Next(old(State()), msg) && Valid(State())
      ensures exists out :: outbox == old(outbox) + out && Lists(out, Pushes(old(State()), msg))
    {
      NextValid(State(), msg);
      assert outbox + [] == outbox;
      match msg
      case Register(id, clientId) => clients := clients[id := clientId];
      case Subscribe(id, filter) => OnSubscribe(id, filter);
      case Unsubscribe(id, filter) =>
        if filter in topics {
          topics := topics[filter := Without(topics[filter], id)];
        }
      case Publish(from, packet) => OnPublish(from, packet);
      case Disconnect(id) => OnDisconnect(id);
    }
  }

  /** The actor from its start to the closing of its channel. */
  method RunBroker(rx: seq<Msg>) returns (b: Shard)
    ensures b.State() == After(rx) && Valid(b.State())
    ensures Emitted(rx, b.outbox)
  {
    b := new Shard();
    for i := 0 to |rx|
      invariant fresh(b)
      invariant b.State() == After(rx[..i]) && Valid(b.State())
      invariant Emitted(rx[..i], b.outbox)
    {
      ghost var before := b.outbox;
      b.Handle(rx[i]);
      ghost var out :| b.outbox == before + out && Lists(out, Pushes(After(rx[..i]), rx[i]));
      EmittedSnoc(rx[..i], before, rx[i], out);
      AfterSnoc(rx[..i], rx[i]);
      assert rx[..i] + [rx[i]] == rx[..i + 1];
    }
    assert rx[..|rx|] == rx;
  }
}
