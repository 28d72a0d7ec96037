/** Who is registered and who is subscribed, told from the messages alone. */
module Membership {
  import opened Common
  import opened Sequences
  import opened Broker

  ghost function ComesOrGoes(c: ConnId): Msg -> bool {
    (m: Msg) => m.id == c && (m.Register? || m.Disconnect?)
  }

  /** A connection is registered exactly when the last time it came or went it came, and under the identifier that it
      then gave. */
  lemma {:induction false} RegisteredExactly(h: seq<Msg>, c: ConnId)
    ensures c in After(h).clients <==> exists k: nat :: Last(h, ComesOrGoes(c), k) && h[k].Register?
    ensures forall k: nat :: Last(h, ComesOrGoes(c), k) && h[k].Register? ==> After(h).clients[c] == h[k].clientId
  {
    if h != [] {
      hide Last;
      var front, m := h[..|h| - 1], h[|h| - 1];
      RegisteredExactly(front, c);
      assert h == front + [m];
      LastsOf(h, ComesOrGoes(c));
      AfterSnoc(front, m);
      if ComesOrGoes(c)(m) {
        assert Last(h, ComesOrGoes(c), |front|);
      } else {
        assert c in After(h).clients <==> c in After(front).clients;
        assert c in After(h).clients ==> After(h).clients[c] == After(front).clients[c];
      }
    }
  }

  ghost function JoinsOrLeaves(c: ConnId, f: Str): Msg -> bool {
    (m: Msg) => m.id == c && (m.Disconnect? || ((m.Subscribe? || m.Unsubscribe?) && m.filter == f))
  }

  /** A connection is on the list of a filter exactly when the last that it said about the filter, leaving included, was
      to subscribe; registered or not. */
  lemma {:induction false} SubscribedExactly(h: seq<Msg>, c: ConnId, f: Str)
    ensures c in Subs(After(h), f) <==> exists k: nat :: Last(h, JoinsOrLeaves(c, f), k) && h[k].Subscribe?
  {
    if h != [] {
      hide Last;
      var front, m := h[..|h| - 1], h[|h| - 1];
      SubscribedExactly(front, c, f);
      assert h == front + [m];
      LastsOf(h, JoinsOrLeaves(c, f));
      AfterSnoc(front, m);
      NextMember(After(front), m, c, f);
      if JoinsOrLeaves(c, f)(m) {
        assert Last(h, JoinsOrLeaves(c, f), |front|);
      } else {
        assert c in Subs(After(h), f) <==> c in Subs(After(front), f);
      }
    }
  }
}
