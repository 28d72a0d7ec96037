/** Nothing in the network gets stuck: every run can be carried on until all programs and channels are done. */
module Progress {
  import opened Sequences
  import opened Broker
  import opened Network

  /** A schedule and one that carries it on. */
  ghost predicate Continues(cfg: Config, es: seq<Event>, es': seq<Event>) {
    es <= es' && Legal(cfg, es) && Legal(cfg, es')
  }

  // ---- Readers ----

  lemma DoAct(cfg: Config, s: State, c: ConnId)
    requires Enabled(cfg, s, Act(c))
    ensures var t, conn := Do(cfg, s, Act(c)), s.conns[c];
            && t.conns == s.conns[c := Conn(conn.did + [conn.todo[0]], conn.todo[1..])]
  {
  }

  /** A reader can always do its next action. */
  lemma CanAct(cfg: Config, es: seq<Event>, c: ConnId)
    requires cfg.n >= 1 && Legal(cfg, es) && c in Reached(cfg, es).conns && Reached(cfg, es).conns[c].todo != []
    ensures Enabled(cfg, Reached(cfg, es), Act(c))
  {
    var s := Reached(cfg, es);
    ReachedBookkeeping(cfg, es);
    var a := s.conns[c].todo[0];
    if a.Enqueue? {
      assert a in s.conns[c].did + s.conns[c].todo;
      ActionsGo(cfg, cfg.scripts[c], a);
    }
  }

  lemma {:induction false} RunUpTo(cfg: Config, es: seq<Event>, c: ConnId, goal: seq<Action>) returns (es': seq<Event>)
    requires cfg.n >= 1 && Legal(cfg, es) && c in Reached(cfg, es).conns
    requires var conn := Reached(cfg, es).conns[c]; conn.did <= goal <= conn.did + conn.todo
    ensures Continues(cfg, es, es')
    ensures var s, s' := Reached(cfg, es), Reached(cfg, es');
            && s'.conns.Keys == s.conns.Keys && s'.conns[c].did == goal
            && forall d :: d in s.conns && d != c ==> s'.conns[d] == s.conns[d]
    decreases |goal| - |Reached(cfg, es).conns[c].did|
  {
    hide Do, Enabled, Reached, Legal;
    var conn := Reached(cfg, es).conns[c];
    if conn.did == goal {
      es' := es;
    } else {
      var all := conn.did + conn.todo;
      assert goal == all[..|goal|];
      assert goal[|conn.did|] == all[|conn.did|] == conn.todo[0];
      CanAct(cfg, es, c);
      ReachedSnoc(cfg, es, Act(c));
      DoAct(cfg, Reached(cfg, es), c);
      assert (conn.did + [conn.todo[0]]) + conn.todo[1..] == all;
      assert goal[..|conn.did| + 1] == conn.did + [conn.todo[0]];
      es' := RunUpTo(cfg, es + [Act(c)], c, goal);
    }
  }

  /** The connections of `cs` have done the first `k` effects of their programs, or less. */
  ghost predicate AllNotBeyond(cfg: Config, s: State, k: ConnId -> nat, cs: set<ConnId>) {
    forall c :: c in cs ==> NotBeyond(cfg, s, c, k(c))
  }

  /** From `s` to `s'`, exactly the connections of `cs` have run, and each to where `k` says. */
  ghost predicate RanTo(cfg: Config, s: State, s': State, k: ConnId -> nat, cs: set<ConnId>) {
    && s'.conns.Keys == s.conns.Keys
    && (forall c :: c in cs ==> Completed(cfg, s', c, k(c)) && NotBeyond(cfg, s', c, k(c)))
    && forall d :: d in s.conns && d !in cs ==> s'.conns[d] == s.conns[d]
  }

  /** One reader runs on to a chosen point of its program. */
  lemma RunOne(cfg: Config, es: seq<Event>, c: ConnId, k: nat) returns (es': seq<Event>)
    requires cfg.n >= 1 && Legal(cfg, es) && NotBeyond(cfg, Reached(cfg, es), c, k)
    ensures Continues(cfg, es, es')
    ensures var s, s' := Reached(cfg, es), Reached(cfg, es');
            && s'.conns.Keys == s.conns.Keys
            && Completed(cfg, s', c, k) && NotBeyond(cfg, s', c, k)
            && forall d :: d in s.conns && d != c ==> s'.conns[d] == s.conns[d]
  {
    hide Reached, Legal, Actions;
    ActionsPrefix(cfg, cfg.scripts[c], k);
    ReachedBookkeeping(cfg, es);
    es' := RunUpTo(cfg, es, c, Actions(cfg, cfg.scripts[c][..k]));
  }

  lemma RanOne(cfg: Config, s: State, m: State, s': State, k: ConnId -> nat, cs: set<ConnId>, c: ConnId)
    requires c in cs && RanTo(cfg, s, m, k, cs - {c})
    requires s'.conns.Keys == m.conns.Keys && Completed(cfg, s', c, k(c)) && NotBeyond(cfg, s', c, k(c))
    requires forall d :: d in m.conns && d != c ==> s'.conns[d] == m.conns[d]
    ensures RanTo(cfg, s, s', k, cs)
  {
    hide Actions;
    forall d | d in cs
      ensures Completed(cfg, s', d, k(d)) && NotBeyond(cfg, s', d, k(d))
    {
      assert d != c ==> d in cs - {c} && Completed(cfg, m, d, k(d)) && NotBeyond(cfg, m, d, k(d));
    }
  }

  /** Each of some readers runs on to a chosen point of its program. */
  lemma {:induction false} RunAll(cfg: Config, es: seq<Event>, k: ConnId -> nat, cs: set<ConnId>)
    returns (es': seq<Event>)
    requires cfg.n >= 1 && Legal(cfg, es) && AllNotBeyond(cfg, Reached(cfg, es), k, cs)
    ensures Continues(cfg, es, es')
    ensures RanTo(cfg, Reached(cfg, es), Reached(cfg, es'), k, cs)
    decreases cs
  {
    hide Reached, Legal, Actions;
    if cs == {} {
      es' := es;
    } else {
      hide RanTo;
      var c :| c in cs;
      var mid := RunAll(cfg, es, k, cs - {c});
      assert NotBeyond(cfg, Reached(cfg, es), c, k(c));
      StillNotBeyond(cfg, Reached(cfg, es), Reached(cfg, mid), k, cs - {c}, c);
      es' := RunOne(cfg, mid, c, k(c));
      RanOne(cfg, Reached(cfg, es), Reached(cfg, mid), Reached(cfg, es'), k, cs, c);
    }
  }

  lemma StillNotBeyond(cfg: Config, s: State, m: State, k: ConnId -> nat, cs: set<ConnId>, c: ConnId)
    requires RanTo(cfg, s, m, k, cs) && c !in cs && NotBeyond(cfg, s, c, k(c))
    ensures NotBeyond(cfg, m, c, k(c))
  {
  }

  // ---- Shards ----

  lemma DoTake(cfg: Config, s: State, i: nat, out: seq<Push>)
    requires Enabled(cfg, s, Take(i, out))
    ensures var t, b := Do(cfg, s, Take(i, out)), s.shards[i];
            && t.conns == s.conns && t.log == s.log
            && t.shards == s.shards[i := Shard(b.done + [b.channel[0]], b.channel[1..], out)]
  {
  }

  lemma DoDeliver(cfg: Config, s: State, i: nat)
    requires Enabled(cfg, s, Deliver(i))
    ensures var t, b := Do(cfg, s, Deliver(i)), s.shards[i];
            && t.conns == s.conns && t.log == s.log
            && t.shards == s.shards[i := b.(pending := b.pending[1..])]
  {
  }

  /** A shard with anything to do can do it. */
  lemma ShardStep(cfg: Config, s: State, i: nat) returns (e: Event)
    requires i < |s.shards| && (s.shards[i].channel != [] || s.shards[i].pending != [])
    ensures e == Deliver(i) || (e.Take? && e.i == i)
    ensures Enabled(cfg, s, e)
  {
    if s.shards[i].pending != [] {
      e := Deliver(i);
    } else {
      var out := SomeListing(Pushes(After(s.shards[i].done), s.shards[i].channel[0]));
      e := Take(i, out);
    }
  }

  lemma {:induction false} DrainOne(cfg: Config, es: seq<Event>, i: nat) returns (es': seq<Event>)
    requires Legal(cfg, es) && i < |Reached(cfg, es).shards|
    ensures Continues(cfg, es, es')
    ensures var s, s' := Reached(cfg, es), Reached(cfg, es');
            && s'.conns == s.conns && s'.log == s.log && |s'.shards| == |s.shards|
            && s'.shards[i].channel == [] && s'.shards[i].pending == []
            && forall j :: 0 <= j < |s.shards| && j != i ==> s'.shards[j] == s.shards[j]
    decreases |Reached(cfg, es).shards[i].channel|, |Reached(cfg, es).shards[i].pending|
  {
    hide Do, Enabled, Reached, Legal;
    var s := Reached(cfg, es);
    if s.shards[i].channel == [] && s.shards[i].pending == [] {
      es' := es;
    } else {
      var e := ShardStep(cfg, s, i);
      ReachedSnoc(cfg, es, e);
      StepShrinks(cfg, s, i, e);
      es' := DrainOne(cfg, es + [e], i);
    }
  }

  lemma StepShrinks(cfg: Config, s: State, i: nat, e: Event)
    requires i < |s.shards| && Enabled(cfg, s, e) && (e == Deliver(i) || (e.Take? && e.i == i))
    ensures var t := Do(cfg, s, e);
            && t.conns == s.conns && t.log == s.log && |t.shards| == |s.shards|
            && (forall j :: 0 <= j < |s.shards| && j != i ==> t.shards[j] == s.shards[j])
            && if e.Take? then |t.shards[i].channel| < |s.shards[i].channel|
               else t.shards[i].channel == s.shards[i].channel && |t.shards[i].pending| < |s.shards[i].pending|
  {
    if e.Take? {
      DoTake(cfg, s, i, e.out);
    } else {
      DoDeliver(cfg, s, i);
    }
  }

  /** Shard by shard, everything on its way is handled and delivered, while no reader does anything. */
  lemma {:induction false} DrainFirst(cfg: Config, es: seq<Event>, k: nat) returns (es': seq<Event>)
    requires Legal(cfg, es) && k <= |Reached(cfg, es).shards|
    ensures Continues(cfg, es, es')
    ensures var s, s' := Reached(cfg, es), Reached(cfg, es');
            && s'.conns == s.conns && s'.log == s.log && |s'.shards| == |s.shards|
            && forall i :: 0 <= i < k ==> s'.shards[i].channel == [] && s'.shards[i].pending == []
  {
    hide Reached, Legal;
    if k == 0 {
      es' := es;
    } else {
      var mid := DrainFirst(cfg, es, k - 1);
      es' := DrainOne(cfg, mid, k - 1);
    }
  }

  // ---- Main results ----

  /** The broker can always catch up: from any reachable state to a drained one, with the readers where they are. */
  lemma DrainedReached(cfg: Config, es: seq<Event>) returns (es': seq<Event>)
    requires Legal(cfg, es)
    ensures Continues(cfg, es, es')
    ensures var s, s' := Reached(cfg, es), Reached(cfg, es');
            s'.conns == s.conns && s'.log == s.log && Drained(s')
  {
    hide Reached, Legal;
    es' := DrainFirst(cfg, es, |Reached(cfg, es).shards|);
  }

  /** As far as a connection's program goes. */
  ghost function ToTheEnd(cfg: Config): ConnId -> nat {
    (c: ConnId) => if c in cfg.scripts then |cfg.scripts[c]| else 0
  }

  /** Nothing has been done that is not in a program, and a program done to its end leaves nothing to do. */
  lemma EndOfPrograms(cfg: Config, es: seq<Event>, c: ConnId)
    requires cfg.n >= 1 && Legal(cfg, es) && c in cfg.scripts
    ensures var s, k := Reached(cfg, es), ToTheEnd(cfg)(c);
            NotBeyond(cfg, s, c, k) && (Completed(cfg, s, c, k) ==> s.conns[c].todo == [])
  {
    hide Reached, Legal, Actions;
    ReachedBookkeeping(cfg, es);
    var conn := Reached(cfg, es).conns[c];
    assert cfg.scripts[c][..|cfg.scripts[c]|] == cfg.scripts[c];
    assert conn.did + conn.todo == Actions(cfg, cfg.scripts[c]);
  }

  /** Every run can be carried on to a state in which all readers are done and all channels drained. */
  lemma QuietReached(cfg: Config, es: seq<Event>) returns (es': seq<Event>)
    requires cfg.n >= 1 && Legal(cfg, es)
    ensures Continues(cfg, es, es')
    ensures Quiet(Reached(cfg, es'))
  {
    hide Reached, Legal, NotBeyond, Completed, Drained;
    var k := ToTheEnd(cfg);
    forall c | c in cfg.scripts
      ensures NotBeyond(cfg, Reached(cfg, es), c, k(c))
    {
      EndOfPrograms(cfg, es, c);
    }
    var mid := RunAll(cfg, es, k, cfg.scripts.Keys);
    forall c | c in Reached(cfg, mid).conns
      ensures Reached(cfg, mid).conns[c].todo == []
    {
      ConnectionsOf(cfg, mid);
      EndOfPrograms(cfg, mid, c);
    }
    es' := DrainedReached(cfg, mid);
  }

  lemma ConnectionsOf(cfg: Config, es: seq<Event>)
    requires cfg.n >= 1 && Legal(cfg, es)
    ensures Reached(cfg, es).conns.Keys == cfg.scripts.Keys
  {
    ReachedBookkeeping(cfg, es);
  }

  /** Every way in which the connections can have come some way through their programs is reached, and drained. */
  lemma StandsReached(cfg: Config, k: ConnId -> nat) returns (es: seq<Event>)
    requires cfg.n >= 1 && forall c :: c in cfg.scripts ==> k(c) <= |cfg.scripts[c]|
    ensures Legal(cfg, es)
    ensures Drained(Reached(cfg, es)) && Stands(cfg, Reached(cfg, es), k)
  {
    hide Actions;
    assert Legal(cfg, []) && Reached(cfg, []) == Start(cfg);
    var mid := RunAll(cfg, [], k, cfg.scripts.Keys);
    ReachedBookkeeping(cfg, mid);
    es := DrainedReached(cfg, mid);
  }
}
