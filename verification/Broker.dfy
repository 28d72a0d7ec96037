/** What one broker actor knows and what it owes its clients, as values. */
module Broker {
  import opened Common
  import opened Sequences
  import opened Topics
  import opened Packets

  /** Connections are numbered, never reused; each has one outbound queue, named by the same number. */
  type ConnId = nat

  datatype Msg =
    | Register(id: ConnId, clientId: Str)
    | Subscribe(id: ConnId, filter: Str)
    | Unsubscribe(id: ConnId, filter: Str)
    | Publish(id: ConnId, packet: PublishPacket)
    | Disconnect(id: ConnId)

  /** A PUBLISH handed to a client's queue. Only the packet goes on the wire; the rest says why it was sent. */
  datatype Push =
    | Live(to: ConnId, packet: PublishPacket, from: ConnId)
    | Replay(to: ConnId, packet: PublishPacket)

  datatype Registry = Registry(
    clients: map<ConnId, Str>,
    topics: map<Str, seq<ConnId>>,
    retained: map<Str, PublishPacket>)

  const EMPTY := Registry(map[], map[], map[])

  function Without(subs: seq<ConnId>, id: ConnId): seq<ConnId> {
    if subs == [] then []
    else
      var front := Without(subs[..|subs| - 1], id);
      if subs[|subs| - 1] == id then front else front + [subs[|subs| - 1]]
  }

  function With(subs: seq<ConnId>, id: ConnId): seq<ConnId> {
    if id in subs then subs else subs + [id]
  }

  /** The subscriber list of a filter; a filter never seen and one with an empty list are alike. */
  function Subs(r: Registry, filter: Str): seq<ConnId> {
    if filter in r.topics then r.topics[filter] else []
  }

  function Next(r: Registry, m: Msg): Registry {
    match m
    case Register(id, clientId) => r.(clients := r.clients[id := clientId])
    case Subscribe(id, filter) => r.(topics := r.topics[filter := With(Subs(r, filter), id)])
    case Unsubscribe(id, filter) =>
      if filter in r.topics then r.(topics := r.topics[filter := Without(r.topics[filter], id)]) else r
    case Publish(_, p) =>
      if !p.retain then r
      else if p.payload == [] then r.(retained := r.retained - {p.topic})
      else r.(retained := r.retained[p.topic := p])
    case Disconnect(id) =>
      r.(clients := r.clients - {id}, topics := map f | f in r.topics :: Without(r.topics[f], id))
  }

  /** Some filter that matches the topic has this client on its list. */
  ghost predicate Subscribed(r: Registry, id: ConnId, topic: Str) {
    exists f :: f in r.topics && Matches(topic, f) && id in r.topics[f]
  }

  /** Everything a message makes the broker push, each push once; the order among them is not fixed. */
  ghost function Pushes(r: Registry, m: Msg): set<Push> {
    match m
    case Subscribe(id, filter) =>
      if id in r.clients
      then set t | t in r.retained && Matches(t, filter) :: Replay(id, r.retained[t].(retain := true))
      else {}
    case Publish(from, p) =>
      set id | id in r.clients && Subscribed(r, id, p.topic) :: Live(id, p, from)
    case _ => {}
  }

  // ---- Invariants ----

  ghost predicate Valid(r: Registry) {
    && (forall f :: f in r.topics ==> NoDuplicates(r.topics[f]))
    && (forall t :: t in r.retained ==>
          r.retained[t].topic == t && r.retained[t].retain && r.retained[t].payload != [])
  }

  lemma {:induction false} WithoutMembers(subs: seq<ConnId>, id: ConnId)
    ensures forall x :: x in Without(subs, id) <==> x in subs && x != id
    ensures NoDuplicates(subs) ==> NoDuplicates(Without(subs, id))
  {
    if subs != [] {
      var front, last := subs[..|subs| - 1], subs[|subs| - 1];
      assert subs == front + [last];
      WithoutMembers(front, id);
      if NoDuplicates(subs) {
        assert last !in front;
      }
    }
  }

  lemma NextValid(r: Registry, m: Msg)
    requires Valid(r)
    ensures Valid(Next(r, m))
  {
    forall f | f in r.topics
      ensures NoDuplicates(Without(r.topics[f], m.id))
    {
      WithoutMembers(r.topics[f], m.id);
    }
  }

  /** How one message changes one membership. */
  lemma NextMember(r: Registry, m: Msg, c: ConnId, f: Str)
    ensures c in Subs(Next(r, m), f) <==>
            match m
            case Subscribe(id, g) => c in Subs(r, f) || (id == c && g == f)
            case Unsubscribe(id, g) => c in Subs(r, f) && !(id == c && g == f)
            case Disconnect(id) => c in Subs(r, f) && id != c
            case _ => c in Subs(r, f)
  {
    if f in r.topics {
      WithoutMembers(r.topics[f], m.id);
    }
  }

  /** What one message does to one subscriber list, whatever else the registry holds. */
  function NextSubs(subs: seq<ConnId>, m: Msg, f: Str): seq<ConnId> {
    match m
    case Subscribe(id, g) => if g == f then With(subs, id) else subs
    case Unsubscribe(id, g) => if g == f then Without(subs, id) else subs
    case Disconnect(id) => Without(subs, id)
    case _ => subs
  }

  lemma NextSubsStep(r: Registry, m: Msg, f: Str)
    ensures Subs(Next(r, m), f) == NextSubs(Subs(r, f), m, f)
  {
    assert Without([], m.id) == [];
  }

  // ---- Histories ----

  /** The registry after handling the messages of `h` in order. */
  function After(h: seq<Msg>): Registry {
    if h == [] then EMPTY else Next(After(h[..|h| - 1]), h[|h| - 1])
  }

  lemma AfterSnoc(h: seq<Msg>, m: Msg)
    ensures After(h + [m]) == Next(After(h), m)
  {
    assert (h + [m])[..|h|] == h;
  }

  lemma {:induction false} AfterValid(h: seq<Msg>)
    ensures Valid(After(h))
  {
    if h != [] {
      AfterValid(h[..|h| - 1]);
      NextValid(After(h[..|h| - 1]), h[|h| - 1]);
    }
  }

  /** `h[k]` is the last message of a kind. */
  ghost predicate Last(h: seq<Msg>, kind: Msg -> bool, k: nat) {
    && k < |h| && kind(h[k])
    && forall j :: k < j < |h| ==> !kind(h[j])
  }

  lemma LastSnoc(h: seq<Msg>, m: Msg, kind: Msg -> bool, k: nat)
    ensures Last(h + [m], kind, k) <==> if kind(m) then k == |h| else Last(h, kind, k)
  {
    var all := h + [m];
    assert all[|h|] == m;
    assert forall j :: 0 <= j < |h| ==> all[j] == h[j];
    assert Last(all, kind, k) && k < |h| ==> !kind(all[|h|]);
  }

  /** Whether the last message of a history is of a kind decides which message of the kind is the last. */
  lemma LastsOf(h: seq<Msg>, kind: Msg -> bool)
    requires h != []
    ensures var front, m := h[..|h| - 1], h[|h| - 1];
            forall k: nat ::
              && (Last(h, kind, k) <==> if kind(m) then k == |front| else Last(front, kind, k))
              && (Last(h, kind, k) ==> k < |h|)
              && (Last(front, kind, k) ==> k < |front| && h[k] == front[k])
  {
    var front, m := h[..|h| - 1], h[|h| - 1];
    assert h == front + [m];
    forall k: nat
      ensures Last(h, kind, k) <==> if kind(m) then k == |front| else Last(front, kind, k)
    {
      LastSnoc(front, m, kind, k);
    }
  }

  /** `out` is one possible sequence of pushes of a broker that handles `h`. */
  ghost predicate Emitted(h: seq<Msg>, out: seq<Push>) {
    if h == [] then out == []
    else
      var front := h[..|h| - 1];
      exists k :: 0 <= k <= |out| && Emitted(front, out[..k]) && Lists(out[k..], Pushes(After(front), h[|h| - 1]))
  }

  lemma EmittedSnoc(h: seq<Msg>, out: seq<Push>, m: Msg, more: seq<Push>)
    requires Emitted(h, out) && Lists(more, Pushes(After(h), m))
    ensures Emitted(h + [m], out + more)
  {
    assert (h + [m])[..|h|] == h;
    assert (out + more)[..|out|] == out && (out + more)[|out|..] == more;
  }

  /** Every history has a run. */
  lemma {:induction false} SomeRun(h: seq<Msg>) returns (out: seq<Push>)
    ensures Emitted(h, out)
  {
    if h == [] {
      out := [];
    } else {
      var front := h[..|h| - 1];
      var before := SomeRun(front);
      var more := SomeListing(Pushes(After(front), h[|h| - 1]));
      EmittedSnoc(front, before, h[|h| - 1], more);
      assert h == front + [h[|h| - 1]];
      out := before + more;
    }
  }

  // ---- What one client is told about one topic ----

  ghost function About(c: ConnId, t: Str): Push -> bool {
    (p: Push) => p.to == c && p.packet.topic == t
  }

  /** The events of one message for client `c` about topic `t`: at most one. */
  ghost function Expect(r: Registry, m: Msg, c: ConnId, t: Str): seq<Push> {
    match m
    case Subscribe(id, filter) =>
      if id == c && c in r.clients && Matches(t, filter) && t in r.retained
      then [Replay(c, r.retained[t].(retain := true))] else []
    case Publish(from, p) =>
      if p.topic == t && c in r.clients && Subscribed(r, c, t) then [Live(c, p, from)] else []
    case _ => []
  }

  ghost function Feed(h: seq<Msg>, c: ConnId, t: Str): seq<Push> {
    if h == [] then []
    else
      var front := h[..|h| - 1];
      Feed(front, c, t) + Expect(After(front), h[|h| - 1], c, t)
  }

  lemma FeedSnoc(h: seq<Msg>, m: Msg, c: ConnId, t: Str)
    ensures Feed(h + [m], c, t) == Feed(h, c, t) + Expect(After(h), m, c, t)
  {
    assert (h + [m])[..|h|] == h;
  }

  /** Whatever order a message's pushes are made in, one client sees the same about one topic. */
  lemma ListedFilters(r: Registry, m: Msg, out: seq<Push>, c: ConnId, t: Str)
    requires Valid(r) && Lists(out, Pushes(r, m))
    ensures Filter(About(c, t), out) == Expect(r, m, c, t)
  {
    var keep := About(c, t);
    var e := Expect(r, m, c, t);
    if e == [] {
      FilterNone(keep, out);
    } else {
      assert e[0] in Pushes(r, m) && keep(e[0]);
      FilterUnique(keep, out, e[0]);
    }
  }

  /** The per-client, per-topic view of a run does not depend on the order of any map iteration. */
  lemma {:induction false} EmittedFilters(h: seq<Msg>, out: seq<Push>, c: ConnId, t: Str)
    requires Emitted(h, out)
    ensures Filter(About(c, t), out) == Feed(h, c, t)
  {
    if h != [] {
      var front := h[..|h| - 1];
      var k :| 0 <= k <= |out| && Emitted(front, out[..k]) && Lists(out[k..], Pushes(After(front), h[|h| - 1]));
      EmittedFilters(front, out[..k], c, t);
      AfterValid(front);
      ListedFilters(After(front), h[|h| - 1], out[k..], c, t);
      FilterAppend(About(c, t), out[..k], out[k..]);
      assert out == out[..k] + out[k..];
    }
  }

  /** Every push goes to a registered client: a replay to the new subscriber, a live one, unchanged, to a subscriber. */
  lemma PushesToClients(r: Registry, m: Msg, p: Push)
    requires p in Pushes(r, m)
    ensures p.to in r.clients
    ensures m.Subscribe? ==> p.to == m.id
    ensures m.Publish? ==> p == Live(p.to, m.packet, m.id) && Subscribed(r, p.to, m.packet.topic)
  {
  }
}
