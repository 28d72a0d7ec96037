/** Retained messages and the handoff from replay to live delivery, section 3.3.1.3 of MQTT 3.1.1. */
module Retained {
  import opened Common
  import opened Sequences
  import opened Topics
  import opened Packets
  import opened Broker

  ghost function RetainsOn(t: Str): Msg -> bool {
    (m: Msg) => m.Publish? && m.packet.retain && m.packet.topic == t
  }

  /** What is retained for a topic is the last retain=true publish on it, unless that one had no payload. */
  lemma {:induction false} RetainedIsLast(h: seq<Msg>, t: Str)
    ensures t in After(h).retained <==> exists k: nat :: Last(h, RetainsOn(t), k) && h[k].packet.payload != []
    ensures forall k: nat :: Last(h, RetainsOn(t), k) && h[k].packet.payload != [] ==>
              After(h).retained[t] == h[k].packet
  {
    if h != [] {
      hide Last;
      var front, m := h[..|h| - 1], h[|h| - 1];
      RetainedIsLast(front, t);
      assert h == front + [m];
      LastsOf(h, RetainsOn(t));
      AfterSnoc(front, m);
      if RetainsOn(t)(m) {
        assert Last(h, RetainsOn(t), |front|);
      } else {
        assert t in After(h).retained <==> t in After(front).retained;
        assert t in After(h).retained ==> After(h).retained[t] == After(front).retained[t];
      }
    }
  }

  /** The live delivery to `c` of a publish on `t`. */
  ghost function LiveFor(c: ConnId, t: Str): Msg -> Option<Push> {
    (m: Msg) => if m.Publish? && m.packet.topic == t then Some(Live(c, m.packet, m.id)) else None
  }

  /** The client neither leaves, nor drops filter `f`, nor adds another filter that matches `t`. */
  ghost predicate Steady(m: Msg, c: ConnId, f: Str, t: Str) {
    m.id == c ==>
      && !m.Disconnect?
      && !(m.Unsubscribe? && m.filter == f)
      && !(m.Subscribe? && Matches(t, m.filter))
  }

  ghost predicate Listening(r: Registry, c: ConnId, f: Str) {
    c in r.clients && c in Subs(r, f)
  }

  lemma StaysListening(r: Registry, m: Msg, c: ConnId, f: Str, t: Str)
    requires Listening(r, c, f) && Steady(m, c, f, t)
    ensures Listening(Next(r, m), c, f)
  {
    NextMember(r, m, c, f);
  }

  lemma ListenerExpects(r: Registry, m: Msg, c: ConnId, f: Str, t: Str)
    requires Listening(r, c, f) && Steady(m, c, f, t) && Matches(t, f)
    ensures Expect(r, m, c, t) == Optional(LiveFor(c, t)(m))
  {
    assert Subscribed(r, c, t);
  }

  lemma LiveStep(g: seq<Msg>, m: Msg, c: ConnId, f: Str, t: Str)
    requires Listening(After(g), c, f) && Steady(m, c, f, t) && Matches(t, f)
    ensures Listening(After(g + [m]), c, f)
    ensures Feed(g + [m], c, t) == Feed(g, c, t) + Optional(LiveFor(c, t)(m))
  {
    hide Listening, Steady, Expect, Next, Matches, After, Feed;
    AfterSnoc(g, m);
    FeedSnoc(g, m, c, t);
    StaysListening(After(g), m, c, f, t);
    ListenerExpects(After(g), m, c, f, t);
  }

  lemma {:induction false} LiveWhileSubscribed(h: seq<Msg>, rest: seq<Msg>, c: ConnId, f: Str, t: Str)
    requires Listening(After(h), c, f) && Matches(t, f)
    requires forall m :: m in rest ==> Steady(m, c, f, t)
    ensures Listening(After(h + rest), c, f)
    ensures Feed(h + rest, c, t) == Feed(h, c, t) + FilterMap(LiveFor(c, t), rest)
    decreases |rest|
  {
    hide Listening, Steady, Matches, After, Feed;
    if rest == [] {
      assert h + rest == h;
    } else {
      var front, m := rest[..|rest| - 1], rest[|rest| - 1];
      assert m in rest && forall x :: x in front ==> x in rest;
      LiveWhileSubscribed(h, front, c, f, t);
      assert h + rest == (h + front) + [m];
      LiveStep(h + front, m, c, f, t);
    }
  }

  /** No gap and no overlap: a registered client that subscribes with `f` is told about `t` the retained value in
      force at that moment, if there is one, and then every later publish on `t`, once each and in order. */
  lemma GapFreeHandoff(h: seq<Msg>, c: ConnId, f: Str, t: Str, rest: seq<Msg>)
    requires c in After(h).clients && Matches(t, f)
    requires forall m :: m in rest ==> Steady(m, c, f, t)
    ensures Feed(h + [Msg.Subscribe(c, f)] + rest, c, t) ==
            Feed(h, c, t)
            + (if t in After(h).retained then [Replay(c, After(h).retained[t])] else [])
            + FilterMap(LiveFor(c, t), rest)
  {
    var m := Msg.Subscribe(c, f);
    AfterValid(h);
    AfterSnoc(h, m);
    FeedSnoc(h, m, c, t);
    NextMember(After(h), m, c, f);
    LiveWhileSubscribed(h + [m], rest, c, f, t);
  }
}
