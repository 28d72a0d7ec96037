/** The benchmark's batch handshake: one publisher, one subscriber, one topic, and the broker between them. */
module Benchmark {
  import opened Sequences
  import Queue

  /** Messages per channel, batch size, and the capacity of the subscriber's queue. */
  datatype Config = Config(messages: nat, batch: nat, capacity: nat) {
    function Batch(done: nat): nat {
      var left := if done <= messages then messages - done else 0;
      if batch < left then batch else left
    }
  }

  datatype Pc = Top | Working(left: nat) | AtSignal | Finished

  datatype State = State(
    publisher: Pc,                 // AtSignal: waiting for the credit
    sent: nat,
    queue: Queue.Trace<nat>,       // the subscriber's outbound queue; messages are numbered
    socket: seq<nat>,              // written, not yet read
    got: seq<nat>,                 // read by the subscriber
    subscriber: Pc,                // AtSignal: about to send the credit
    credits: nat)                  // in the one-slot channel

  datatype Event =
    | PubLoop | PubSend | PubDone | PubCredit
    | BrokerPush | WriterPop
    | SubLoop | SubRead | SubDone | SubCredit

  const START := State(Top, 0, Queue.Empty(), [], [], Top, 0)

  predicate Enabled(cfg: Config, s: State, e: Event) {
    match e
    case PubLoop => s.publisher.Top?
    case PubSend => s.publisher.Working? && s.publisher.left > 0
    case PubDone => s.publisher == Working(0)
    case PubCredit => s.publisher.AtSignal? && (s.credits > 0 || s.subscriber.Finished?)
    case BrokerPush => |s.queue.pushed| < s.sent
    case WriterPop => s.queue.items != []
    case SubLoop => s.subscriber.Top?
    case SubRead => s.subscriber.Working? && s.subscriber.left > 0 && s.socket != []
    case SubDone => s.subscriber == Working(0)
    case SubCredit => s.subscriber.AtSignal? && (s.credits == 0 || s.publisher.Finished?)
  }

  function Do(cfg: Config, s: State, e: Event): State
    requires Enabled(cfg, s, e)
  {
    match e
    case PubLoop =>
      s.(publisher := if s.sent < cfg.messages then Working(cfg.Batch(s.sent)) else Finished)
    case PubSend => s.(publisher := Working(s.publisher.left - 1), sent := s.sent + 1)
    case PubDone => s.(publisher := AtSignal)
    case PubCredit => s.(publisher := Top, credits := if s.credits > 0 then s.credits - 1 else 0)
    case BrokerPush => s.(queue := Queue.Pushed(s.queue, cfg.capacity, |s.queue.pushed|))
    case WriterPop => s.(queue := Queue.Taken(s.queue), socket := s.socket + [s.queue.items[0]])
    case SubLoop =>
      s.(subscriber := if |s.got| < cfg.messages then Working(cfg.Batch(|s.got|)) else Finished)
    case SubRead =>
      s.(subscriber := Working(s.subscriber.left - 1), got := s.got + [s.socket[0]], socket := s.socket[1..])
    case SubDone => s.(subscriber := AtSignal)
    case SubCredit => s.(subscriber := Top, credits := if s.publisher.Finished? then s.credits else s.credits + 1)
  }

  predicate Legal(cfg: Config, es: seq<Event>)
    decreases |es|, 0
  {
    es == [] || (Legal(cfg, es[..|es| - 1]) && Enabled(cfg, Reached(cfg, es[..|es| - 1]), es[|es| - 1]))
  }

  function Reached(cfg: Config, es: seq<Event>): State
    requires Legal(cfg, es)
    decreases |es|, 1
  {
    if es == [] then START else Do(cfg, Reached(cfg, es[..|es| - 1]), es[|es| - 1])
  }

  /** A schedule carried on by one step. */
  lemma ReachedSnoc(cfg: Config, es: seq<Event>, e: Event)
    requires Legal(cfg, es) && Enabled(cfg, Reached(cfg, es), e)
    ensures Legal(cfg, es + [e]) && Reached(cfg, es + [e]) == Do(cfg, Reached(cfg, es), e)
  {
    hide Enabled, Do;
    assert (es + [e])[..|es|] == es;
  }

  // ---- The invariant ----

  function Numbers(n: nat): seq<nat> {
    seq(n, i => i)
  }

  /** Every message is unsent, on its way, discarded by the queue, or read; none is invented or reordered. */
  ghost predicate Pipeline(cfg: Config, s: State) {
    && Queue.Consistent(s.queue, cfg.capacity)
    && s.queue.pushed == Numbers(|s.queue.pushed|)
    && |s.queue.pushed| <= s.sent <= cfg.messages
    && s.queue.popped == s.got + s.socket
    && |s.queue.pushed| == |s.queue.popped| + |s.queue.lost| + |s.queue.items|
  }

  /** The end of the publisher's current batch. */
  function End(s: State): nat {
    s.sent + if s.publisher.Working? then s.publisher.left else 0
  }

  /** The subscriber stands at the start of a batch, or has only begun it. */
  predicate Fresh(cfg: Config, s: State) {
    match s.subscriber
    case Top => true
    case Working(left) => |s.got| < cfg.messages && left == cfg.Batch(|s.got|)
    case AtSignal => false
    case Finished => |s.got| == cfg.messages
  }

  /** Both work on the same batch, or the subscriber has just handed it back. */
  predicate Handshake(cfg: Config, s: State) {
    && s.credits <= 1
    && End(s) <= cfg.messages
    && (s.publisher.Finished? ==> s.sent == cfg.messages)
    && if s.credits == 1 || s.publisher.Top? || s.publisher.Finished?
       then && Fresh(cfg, s) && s.sent == |s.got|
            && (s.credits == 1 ==> s.publisher == Working(0) || s.publisher == AtSignal)
            && (s.credits == 0 ==> s.publisher.Top? || s.publisher.Finished?)
       else match s.subscriber
            case Top => End(s) == |s.got| + cfg.Batch(|s.got|) && |s.got| < cfg.messages
            case Working(left) => End(s) == |s.got| + left && left <= cfg.batch
            case AtSignal => End(s) == |s.got|
            case Finished => false
  }

  ghost predicate Inv(cfg: Config, s: State) {
    Pipeline(cfg, s) && Handshake(cfg, s)
  }

  lemma PublisherStep(cfg: Config, s: State, e: Event)
    requires Inv(cfg, s) && Enabled(cfg, s, e) && (e.PubLoop? || e.PubSend? || e.PubDone? || e.PubCredit?)
    ensures Inv(cfg, Do(cfg, s, e))
  {
    hide Queue.Consistent, Numbers;
  }

  lemma SubscriberStep(cfg: Config, s: State, e: Event)
    requires Inv(cfg, s) && Enabled(cfg, s, e) && (e.SubLoop? || e.SubDone? || e.SubCredit?) && cfg.batch >= 1
    ensures Inv(cfg, Do(cfg, s, e))
  {
    hide Queue.Consistent, Numbers;
  }

  lemma ReadStep(cfg: Config, s: State)
    requires Inv(cfg, s) && Enabled(cfg, s, SubRead)
    ensures Inv(cfg, Do(cfg, s, SubRead))
  {
    hide Queue.Consistent, Numbers;
    assert s.got + s.socket == (s.got + [s.socket[0]]) + s.socket[1..];
  }

  /** The queue moves without either side noticing. */
  lemma BetweenStep(cfg: Config, s: State, e: Event)
    requires Handshake(cfg, s) && Enabled(cfg, s, e) && (e.BrokerPush? || e.WriterPop?)
    ensures Handshake(cfg, Do(cfg, s, e))
  {
    hide Queue.Pushed, Queue.Taken;
  }

  lemma PushStep(cfg: Config, s: State)
    requires Pipeline(cfg, s) && Enabled(cfg, s, BrokerPush)
    ensures Pipeline(cfg, Do(cfg, s, BrokerPush))
  {
    hide Queue.Consistent;
    Queue.PushConsistent(s.queue, cfg.capacity, |s.queue.pushed|);
    Queue.Conservation(Do(cfg, s, BrokerPush).queue, cfg.capacity);
    assert Numbers(|s.queue.pushed| + 1) == Numbers(|s.queue.pushed|) + [|s.queue.pushed|];
  }

  lemma PopStep(cfg: Config, s: State)
    requires Pipeline(cfg, s) && Enabled(cfg, s, WriterPop)
    ensures Pipeline(cfg, Do(cfg, s, WriterPop))
  {
    hide Queue.Consistent, Numbers;
    Queue.PopConsistent(s.queue, cfg.capacity);
    assert s.got + (s.socket + [s.queue.items[0]]) == (s.got + s.socket) + [s.queue.items[0]];
  }

  lemma StepKeepsInv(cfg: Config, s: State, e: Event)
    requires Inv(cfg, s) && Enabled(cfg, s, e) && cfg.batch >= 1
    ensures Inv(cfg, Do(cfg, s, e))
  {
    hide Pipeline, Handshake, Do, Enabled;
    match e
    case BrokerPush =>
      PushStep(cfg, s);
      BetweenStep(cfg, s, e);
    case WriterPop =>
      PopStep(cfg, s);
      BetweenStep(cfg, s, e);
    case SubRead => ReadStep(cfg, s);
    case SubLoop => SubscriberStep(cfg, s, e);
    case SubDone => SubscriberStep(cfg, s, e);
    case SubCredit => SubscriberStep(cfg, s, e);
    case _ => PublisherStep(cfg, s, e);
  }

  lemma {:induction false} ReachedInv(cfg: Config, es: seq<Event>)
    requires Legal(cfg, es) && cfg.batch >= 1
    ensures Inv(cfg, Reached(cfg, es))
  {
    if es == [] {
      assert Queue.Consistent(Queue.Empty<nat>(), cfg.capacity);
    } else {
      hide Inv, Do, Enabled;
      ReachedInv(cfg, es[..|es| - 1]);
      StepKeepsInv(cfg, Reached(cfg, es[..|es| - 1]), es[|es| - 1]);
    }
  }

  /** With empty batches the two loops turn for ever and nothing is sent. */
  lemma {:induction false} EmptyBatches(cfg: Config, es: seq<Event>)
    requires Legal(cfg, es) && cfg.batch == 0
    ensures var s := Reached(cfg, es);
            && s.sent == 0 && s.got == [] && s.socket == [] && s.queue == Queue.Empty()
            && (s.publisher.Working? ==> s.publisher.left == 0) && (s.subscriber.Working? ==> s.subscriber.left == 0)
  {
    if es != [] {
      EmptyBatches(cfg, es[..|es| - 1]);
    }
  }

  /** Credit bounds what is under way. */
  lemma BacklogBounded(cfg: Config, s: State)
    requires Inv(cfg, s)
    ensures |s.got| <= s.sent <= cfg.messages
    ensures s.sent - |s.got| <= cfg.batch
  {
    hide Queue.Consistent, Numbers;
  }

  /** In every reachable state, whatever the batch size and the capacity, at most one batch is under way, and what has
      arrived is a subsequence of what was sent: a prefix, as long as the queue has discarded nothing. */
  lemma CreditBoundsBacklog(cfg: Config, es: seq<Event>)
    requires Legal(cfg, es)
    ensures var s := Reached(cfg, es);
            && 0 <= s.sent - |s.got| <= cfg.batch
            && Subsequence(s.got, Numbers(s.sent))
            && (s.queue.lost == [] ==> s.got <= Numbers(s.sent))
  {
    hide Reached, Legal, Handshake, Queue.Consistent;
    var s := Reached(cfg, es);
    if cfg.batch == 0 {
      EmptyBatches(cfg, es);
      return;
    }
    hide Subsequence;
    ReachedInv(cfg, es);
    BacklogBounded(cfg, s);
    var q := s.queue;
    assert s.got <= q.popped && q.pushed <= Numbers(s.sent);
    PrefixSubsequence(s.got, q.popped);
    Queue.PoppedInOrder(q, cfg.capacity);
    SubsequenceTrans(s.got, q.popped, q.pushed);
    PrefixSubsequence(q.pushed, Numbers(s.sent));
    SubsequenceTrans(s.got, q.pushed, Numbers(s.sent));
    if q.lost == [] {
      Queue.LosslessPopsPrefix(q, cfg.capacity);
    }
  }

  // ---- No loss, exactly when a batch fits the queue ----

  predicate Fits(cfg: Config) {
    cfg.batch <= cfg.capacity || cfg.messages <= cfg.capacity
  }

  /** A push into a queue that holds less than a batch that fits it discards nothing. */
  lemma PushLoses(cfg: Config, s: State)
    requires Inv(cfg, s) && Enabled(cfg, s, BrokerPush) && s.queue.lost == [] && cfg.capacity >= 1 && Fits(cfg)
    ensures Do(cfg, s, BrokerPush).queue.lost == []
  {
    hide Handshake, Queue.Consistent, Numbers;
    BacklogBounded(cfg, s);
    assert |s.queue.items| < cfg.capacity;
  }

  /** Only a push can lose anything, and nothing brings it back. */
  lemma LossGrows(cfg: Config, s: State, e: Event)
    requires Enabled(cfg, s, e)
    ensures s.queue.lost <= Do(cfg, s, e).queue.lost
    ensures !e.BrokerPush? ==> Do(cfg, s, e).queue.lost == s.queue.lost
  {
  }

  lemma {:induction false} NothingLost(cfg: Config, es: seq<Event>)
    requires Legal(cfg, es) && cfg.capacity >= 1 && Fits(cfg)
    ensures Reached(cfg, es).queue.lost == []
  {
    if cfg.batch == 0 {
      EmptyBatches(cfg, es);
    } else if es != [] {
      hide Do, Enabled, Inv;
      var front, e := es[..|es| - 1], es[|es| - 1];
      NothingLost(cfg, front);
      ReachedInv(cfg, front);
      LossGrows(cfg, Reached(cfg, front), e);
      if e.BrokerPush? {
        PushLoses(cfg, Reached(cfg, front));
      }
    }
  }

  lemma DoSend(cfg: Config, s: State)
    requires s.publisher.Working? && s.publisher.left > 0
    ensures Enabled(cfg, s, PubSend)
    ensures Do(cfg, s, PubSend) == s.(publisher := Working(s.publisher.left - 1), sent := s.sent + 1)
  {
  }

  /** A publisher that sends `k` messages of its first batch before anything else happens. */
  lemma {:induction false} SendMany(cfg: Config, k: nat) returns (es: seq<Event>)
    requires cfg.messages >= 1 && k <= cfg.Batch(0)
    ensures Legal(cfg, es)
    ensures Reached(cfg, es) == START.(publisher := Working(cfg.Batch(0) - k), sent := k)
  {
    if k == 0 {
      assert Legal(cfg, []) && Reached(cfg, []) == START;
      ReachedSnoc(cfg, [], PubLoop);
      es := [] + [PubLoop];
    } else {
      hide Legal, Reached, Do, Enabled;
      var front := SendMany(cfg, k - 1);
      DoSend(cfg, Reached(cfg, front));
      ReachedSnoc(cfg, front, PubSend);
      es := front + [PubSend];
    }
  }

  /** The broker pushes `k` of them before the writer takes any. */
  lemma {:induction false} PushMany(cfg: Config, k: nat) returns (es: seq<Event>)
    requires cfg.messages >= 1 && k <= cfg.capacity < cfg.Batch(0)
    ensures Legal(cfg, es)
    ensures var s := Reached(cfg, es);
            && s.sent == cfg.capacity + 1
            && |s.queue.pushed| == |s.queue.items| == k && s.queue.lost == []
  {
    if k == 0 {
      es := SendMany(cfg, cfg.capacity + 1);
    } else {
      hide Legal, Reached;
      var front := PushMany(cfg, k - 1);
      ReachedSnoc(cfg, front, BrokerPush);
      es := front + [BrokerPush];
    }
  }

  /** Then one more push discards a message. */
  lemma Overflow(cfg: Config) returns (es: seq<Event>)
    requires cfg.capacity >= 1 && !Fits(cfg)
    ensures Legal(cfg, es) && Reached(cfg, es).queue.lost != []
  {
    hide Legal, Reached;
    var front := PushMany(cfg, cfg.capacity);
    ReachedSnoc(cfg, front, BrokerPush);
    es := front + [BrokerPush];
    assert Reached(cfg, es) == Do(cfg, Reached(cfg, front), BrokerPush);
  }

  /** The handshake never makes the broker discard a message, exactly when a whole batch fits the queue. */
  lemma NeverDropsIffBatchFits(cfg: Config)
    requires cfg.capacity >= 1
    ensures (forall es :: Legal(cfg, es) ==> Reached(cfg, es).queue.lost == []) <==> Fits(cfg)
  {
    hide Legal, Reached, Fits;
    if Fits(cfg) {
      forall es | Legal(cfg, es)
        ensures Reached(cfg, es).queue.lost == []
      {
        NothingLost(cfg, es);
      }
    } else {
      var es := Overflow(cfg);
      assert Legal(cfg, es) && Reached(cfg, es).queue.lost != [];
    }
  }

  // ---- Both loops finish ----

  /** The handshake never deadlocks while nothing has been lost. */
  lemma SomeStepEnabled(cfg: Config, es: seq<Event>) returns (e: Event)
    requires Legal(cfg, es) && cfg.batch >= 1 && Reached(cfg, es).queue.lost == []
    requires !(Reached(cfg, es).publisher.Finished? && Reached(cfg, es).subscriber.Finished?)
    ensures Enabled(cfg, Reached(cfg, es), e)
  {
    hide Reached, Legal, Queue.Consistent, Numbers;
    ReachedInv(cfg, es);
    var s := Reached(cfg, es);
    if s.publisher.Top? {
      e := PubLoop;
    } else if s.publisher.Working? {
      e := if s.publisher.left > 0 then PubSend else PubDone;
    } else if s.publisher.AtSignal? && s.credits > 0 {
      e := PubCredit;
    } else if s.subscriber.Top? {
      e := SubLoop;
    } else if s.subscriber.AtSignal? {
      e := SubCredit;
    } else if s.subscriber == Working(0) {
      e := SubDone;
    } else if s.socket != [] {
      e := SubRead;
    } else if s.queue.items != [] {
      e := WriterPop;
    } else {
      e := BrokerPush;
    }
  }

  /** What is left to do for a side that has done `done` messages. */
  function Left(cfg: Config, pc: Pc, done: nat): int {
    match pc
    case Top => 4 * (cfg.messages - done) + 1
    case Working(left) => 4 * (cfg.messages - done - left) + left + 3
    case AtSignal => 4 * (cfg.messages - done) + 2
    case Finished => 0
  }

  function Measure(cfg: Config, s: State): int {
    Left(cfg, s.publisher, s.sent) + Left(cfg, s.subscriber, |s.got|)
    + (cfg.messages - |s.queue.pushed|) + (cfg.messages - |s.queue.popped|)
  }

  lemma QueueMoves(cfg: Config, s: State, e: Event)
    requires Enabled(cfg, s, e)
    ensures var q := Do(cfg, s, e).queue;
            && |q.pushed| == |s.queue.pushed| + (if e.BrokerPush? then 1 else 0)
            && |q.popped| == |s.queue.popped| + (if e.WriterPop? then 1 else 0)
  {
  }

  lemma MeasureNonNegative(cfg: Config, s: State)
    requires Inv(cfg, s)
    ensures Measure(cfg, s) >= 0
  {
    hide Queue.Consistent, Numbers;
  }

  lemma StepDecreases(cfg: Config, s: State, e: Event)
    requires Inv(cfg, s) && Enabled(cfg, s, e) && cfg.batch >= 1
    ensures Measure(cfg, Do(cfg, s, e)) < Measure(cfg, s)
  {
    hide Queue.Consistent, Queue.Pushed, Queue.Taken, Numbers, Handshake;
    BacklogBounded(cfg, s);
    QueueMoves(cfg, s, e);
  }

  lemma {:induction false} RunsAreBounded(cfg: Config, es: seq<Event>)
    requires Legal(cfg, es) && cfg.batch >= 1
    ensures |es| + Measure(cfg, Reached(cfg, es)) <= Measure(cfg, START)
  {
    if es != [] {
      hide Do, Enabled, Inv, Measure;
      var front := es[..|es| - 1];
      RunsAreBounded(cfg, front);
      ReachedInv(cfg, front);
      StepDecreases(cfg, Reached(cfg, front), es[|es| - 1]);
    }
  }

  ghost predicate Stuck(cfg: Config, s: State) {
    forall e :: !Enabled(cfg, s, e)
  }

  predicate Complete(cfg: Config, s: State) {
    s.publisher.Finished? && s.subscriber.Finished? && s.got == Numbers(cfg.messages)
  }

  /** Any run can be carried on until nothing can happen any more. */
  lemma {:induction false} CarryOn(cfg: Config, es: seq<Event>) returns (es': seq<Event>)
    requires Legal(cfg, es) && cfg.batch >= 1
    ensures es <= es' && Legal(cfg, es') && Stuck(cfg, Reached(cfg, es'))
    ensures Reached(cfg, es).queue.lost <= Reached(cfg, es').queue.lost
    decreases Measure(cfg, Reached(cfg, es))
  {
    hide Legal, Reached, Do, Enabled, Inv, Measure;
    var s := Reached(cfg, es);
    if Stuck(cfg, s) {
      es' := es;
    } else {
      var e :| Enabled(cfg, s, e);
      ReachedSnoc(cfg, es, e);
      ReachedInv(cfg, es);
      MeasureNonNegative(cfg, s);
      StepDecreases(cfg, s, e);
      LossGrows(cfg, s, e);
      es' := CarryOn(cfg, es + [e]);
    }
  }

  /** What the queue has discarded never arrives. */
  lemma LostNotComplete(cfg: Config, s: State)
    requires Inv(cfg, s) && s.queue.lost != []
    ensures !Complete(cfg, s)
  {
    hide Queue.Consistent, Handshake;
  }

  lemma StuckComplete(cfg: Config, es: seq<Event>)
    requires Legal(cfg, es) && cfg.batch >= 1 && cfg.capacity >= 1 && Fits(cfg) && Stuck(cfg, Reached(cfg, es))
    ensures Complete(cfg, Reached(cfg, es))
  {
    hide Reached, Legal, Enabled;
    var s := Reached(cfg, es);
    NothingLost(cfg, es);
    if !(s.publisher.Finished? && s.subscriber.Finished?) {
      var e := SomeStepEnabled(cfg, es);
    }
    ReachedInv(cfg, es);
    CreditBoundsBacklog(cfg, es);
  }

  /** Every run is finite. Every run that cannot go on has delivered every message, once each and in order, exactly when
      a whole batch fits the queue. */
  lemma BothLoopsFinish(cfg: Config)
    requires cfg.batch >= 1 && cfg.capacity >= 1
    ensures forall es :: Legal(cfg, es) ==> |es| <= 10 * cfg.messages + 2
    ensures (forall es :: Legal(cfg, es) && Stuck(cfg, Reached(cfg, es)) ==> Complete(cfg, Reached(cfg, es))) <==>
            Fits(cfg)
  {
    hide Legal, Reached, Stuck, Complete, Fits, Inv;
    forall es | Legal(cfg, es)
      ensures |es| <= 10 * cfg.messages + 2
    {
      RunsAreBounded(cfg, es);
      ReachedInv(cfg, es);
      MeasureNonNegative(cfg, Reached(cfg, es));
    }
    if Fits(cfg) {
      forall es | Legal(cfg, es) && Stuck(cfg, Reached(cfg, es))
        ensures Complete(cfg, Reached(cfg, es))
      {
        StuckComplete(cfg, es);
      }
    } else {
      var front := Overflow(cfg);
      var es := CarryOn(cfg, front);
      ReachedInv(cfg, es);
      LostNotComplete(cfg, Reached(cfg, es));
      assert Legal(cfg, es) && Stuck(cfg, Reached(cfg, es));
    }
  }
}
