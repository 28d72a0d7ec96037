/** The same queue at the level of its two mutexes and its condition variable, one step at a time. */
module QueueLocks {
  import opened Common
  import Queue

  datatype ProducerPc = Idle | WantItems | HasItems | MustNotify
  datatype CloserPc = Resting | WantClosed | HasClosed | MustNotifyAll

  /** Where the consumer is in `pop_blocking`. */
  datatype ConsumerPc<T> =
    | Starting                        // wants the items lock, first call or woken up
    | Checking                        // holds items
    | AskingClosed                    // holds items, found it empty, wants the closed lock
    | ReadingClosed                   // holds both
    | Finishing                       // holds items, read closed == true
    | AboutToWait                     // holds items, read closed == false
    | Waiting                         // asleep, holds nothing
    | Returned(result: Option<T>)

  datatype Thread = Producer(p: nat) | Closer(c: nat) | Consumer

  datatype State<T> = State(
    items: seq<T>,
    closed: bool,
    itemsOwner: Option<Thread>,
    closedOwner: Option<Thread>,
    producers: map<nat, ProducerPc>,
    closers: map<nat, CloserPc>,
    consumer: ConsumerPc<T>)

  datatype Event<T> =
    | CallPush(p: nat) | LockPush(p: nat) | DoPush(p: nat, item: T) | NotifyOne(p: nat)
    | CallClose(c: nat) | LockClose(c: nat) | SetClosed(c: nat) | NotifyAll(c: nat)
    | CallPop | LockPop | TakeFront | FindEmpty | LockClosed | ReadClosed | ReturnNone | Sleep | Spurious

  predicate ProducerAt<T>(s: State<T>, p: nat, pc: ProducerPc) {
    p in s.producers && s.producers[p] == pc
  }

  predicate CloserAt<T>(s: State<T>, c: nat, pc: CloserPc) {
    c in s.closers && s.closers[c] == pc
  }

  predicate Enabled<T>(s: State<T>, e: Event<T>) {
    match e
    case CallPush(p) => ProducerAt(s, p, Idle)
    case LockPush(p) => ProducerAt(s, p, WantItems) && s.itemsOwner == None
    case DoPush(p, _) => ProducerAt(s, p, HasItems)
    case NotifyOne(p) => ProducerAt(s, p, MustNotify)
    case CallClose(c) => CloserAt(s, c, Resting)
    case LockClose(c) => CloserAt(s, c, WantClosed) && s.closedOwner == None
    case SetClosed(c) => CloserAt(s, c, HasClosed)
    case NotifyAll(c) => CloserAt(s, c, MustNotifyAll)
    case CallPop => s.consumer.Returned?
    case LockPop => s.consumer.Starting? && s.itemsOwner == None
    case TakeFront => s.consumer.Checking? && s.items != []
    case FindEmpty => s.consumer.Checking? && s.items == []
    case LockClosed => s.consumer.AskingClosed? && s.closedOwner == None
    case ReadClosed => s.consumer.ReadingClosed?
    case ReturnNone => s.consumer.Finishing?
    case Sleep => s.consumer.AboutToWait?
    case Spurious => s.consumer.Waiting?
  }

  function Wake<T>(s: State<T>): State<T> {
    if s.consumer.Waiting? then s.(consumer := Starting) else s
  }

  /** The drop-oldest push, under the items lock. */
  function Push<T>(items: seq<T>, capacity: nat, item: T): seq<T> {
    (if |items| >= capacity && items != [] then items[1..] else items) + [item]
  }

  function Do<T>(capacity: nat, s: State<T>, e: Event<T>): State<T>
    requires Enabled(s, e)
  {
    match e
    case CallPush(p) => s.(producers := s.producers[p := WantItems])
    case LockPush(p) => s.(producers := s.producers[p := HasItems], itemsOwner := Some(Producer(p)))
    case DoPush(p, item) =>
      s.(items := Push(s.items, capacity, item), producers := s.producers[p := MustNotify], itemsOwner := None)
    case NotifyOne(p) => Wake(s.(producers := s.producers[p := Idle]))
    case CallClose(c) => s.(closers := s.closers[c := WantClosed])
    case LockClose(c) => s.(closers := s.closers[c := HasClosed], closedOwner := Some(Closer(c)))
    case SetClosed(c) => s.(closed := true, closers := s.closers[c := MustNotifyAll], closedOwner := None)
    case NotifyAll(c) => Wake(s.(closers := s.closers[c := Resting]))
    case CallPop => s.(consumer := Starting)
    case LockPop => s.(consumer := Checking, itemsOwner := Some(Consumer))
    case TakeFront => s.(consumer := Returned(Some(s.items[0])), items := s.items[1..], itemsOwner := None)
    case FindEmpty => s.(consumer := AskingClosed)
    case LockClosed => s.(consumer := ReadingClosed, closedOwner := Some(Consumer))
    case ReadClosed => s.(consumer := if s.closed then Finishing else AboutToWait, closedOwner := None)
    case ReturnNone => s.(consumer := Returned(None), itemsOwner := None)
    case Sleep => s.(consumer := Waiting, itemsOwner := None)
    case Spurious => Wake(s)
  }

  predicate Initial<T>(s: State<T>) {
    && s.items == [] && !s.closed && s.itemsOwner == None && s.closedOwner == None
    && (forall p :: p in s.producers ==> s.producers[p] == Idle)
    && (forall c :: c in s.closers ==> s.closers[c] == Resting)
    && s.consumer.Starting?
  }

  /** A schedule that can be followed from `s`, and the state it leads to. */
  predicate Legal<T>(capacity: nat, s: State<T>, es: seq<Event<T>>)
    decreases |es|, 0
  {
    es == [] || var front := es[..|es| - 1];
                Legal(capacity, s, front) && Enabled(Reached(capacity, s, front), es[|es| - 1])
  }

  function Reached<T>(capacity: nat, s: State<T>, es: seq<Event<T>>): State<T>
    requires Legal(capacity, s, es)
    decreases |es|, 1
  {
    if es == [] then s else Do(capacity, Reached(capacity, s, es[..|es| - 1]), es[|es| - 1])
  }

  ghost predicate Reachable<T(!new)>(capacity: nat, t: State<T>) {
    exists s, es :: Initial(s) && Legal(capacity, s, es) && Reached(capacity, s, es) == t
  }

  lemma {:induction false} LegalPrefix<T>(capacity: nat, s: State<T>, es: seq<Event<T>>, j: nat)
    requires Legal(capacity, s, es) && j <= |es|
    ensures Legal(capacity, s, es[..j])
    decreases |es|
  {
    if j == |es| {
      assert es[..j] == es;
    } else {
      LegalPrefix(capacity, s, es[..|es| - 1], j);
      assert es[..|es| - 1][..j] == es[..j];
    }
  }

  // ---- The invariant ----

  predicate ConsumerHoldsItems<T>(pc: ConsumerPc<T>) {
    pc.Checking? || pc.AskingClosed? || pc.ReadingClosed? || pc.Finishing? || pc.AboutToWait?
  }

  ghost predicate Ownership<T>(s: State<T>) {
    && (forall p :: s.itemsOwner == Some(Producer(p)) <==> ProducerAt(s, p, HasItems))
    && (s.itemsOwner == Some(Consumer) <==> ConsumerHoldsItems(s.consumer))
    && (forall c :: s.itemsOwner != Some(Closer(c)))
    && (forall c :: s.closedOwner == Some(Closer(c)) <==> CloserAt(s, c, HasClosed))
    && (s.closedOwner == Some(Consumer) <==> s.consumer.ReadingClosed?)
    && (forall p :: s.closedOwner != Some(Producer(p)))
  }

  ghost predicate Emptiness<T>(s: State<T>) {
    && (s.consumer.AskingClosed? || s.consumer.ReadingClosed? || s.consumer.Finishing? || s.consumer.AboutToWait?
        ==> s.items == [])
    && (s.consumer.Finishing? ==> s.closed)
  }

  /** A sleeping consumer with work to do has a wake-up on its way. */
  ghost predicate NoLostWakeup<T>(s: State<T>) {
    s.consumer.Waiting? && s.items != [] ==> exists p :: ProducerAt(s, p, MustNotify)
  }

  /** Bound to sleep, or asleep, on a closed queue. */
  predicate Stranded<T>(s: State<T>) {
    s.closed && (s.consumer.AboutToWait? || s.consumer.Waiting?)
  }

  /** Then a notify_all is on its way, unless one was missed. */
  ghost predicate CloseCovered<T>(s: State<T>, missed: bool) {
    && (Stranded(s) && !missed ==> exists c :: CloserAt(s, c, MustNotifyAll))
    && (missed ==> Stranded(s))
    && (forall c :: CloserAt(s, c, MustNotifyAll) ==> s.closed)
  }

  ghost predicate Inv<T>(s: State<T>) {
    Ownership(s) && Emptiness(s) && NoLostWakeup(s)
  }

  /** The step finds the consumer asleep and wakes it. */
  predicate Wakes<T>(s: State<T>, e: Event<T>) {
    s.consumer.Waiting? && (e.NotifyOne? || e.NotifyAll? || e.Spurious?)
  }

  /** Step `j` is a notify_all that finds the consumer between its look at `closed` and going to sleep, and no later
      step wakes it. */
  ghost predicate MissedAt<T>(capacity: nat, s: State<T>, es: seq<Event<T>>, j: nat)
    requires Legal(capacity, s, es)
  {
    && j < |es| && es[j].NotifyAll?
    && Legal(capacity, s, es[..j]) && Reached(capacity, s, es[..j]).consumer.AboutToWait?
    && forall i :: j < i < |es| ==>
         Legal(capacity, s, es[..i]) && !Wakes(Reached(capacity, s, es[..i]), es[i])
  }

  ghost predicate Missed<T>(capacity: nat, s: State<T>, es: seq<Event<T>>)
    requires Legal(capacity, s, es)
  {
    exists j: nat :: MissedAt(capacity, s, es, j)
  }

  /** How one step changes what has been missed. */
  lemma MissedStep<T>(capacity: nat, s: State<T>, es: seq<Event<T>>)
    requires Legal(capacity, s, es) && es != []
    ensures var front, e := es[..|es| - 1], es[|es| - 1];
            var m := Reached(capacity, s, front);
            Missed(capacity, s, es) <==>
            (e.NotifyAll? && m.consumer.AboutToWait?) || (Missed(capacity, s, front) && !Wakes(m, e))
  {
    hide Enabled, Do, Reached, Legal;
    var front, n := es[..|es| - 1], |es| - 1;
    LegalFront(capacity, s, es);
    forall i: nat | i <= n
      ensures front[..i] == es[..i] && Legal(capacity, s, es[..i])
    {
      LegalPrefix(capacity, s, es, i);
      assert front[..i] == es[..i];
    }
    assert es[..n] == front;
    forall j: nat | j < n
      ensures MissedAt(capacity, s, es, j) <==>
              MissedAt(capacity, s, front, j) && !Wakes(Reached(capacity, s, front), es[n])
    {
      if MissedAt(capacity, s, es, j) {
        assert forall i :: j < i < n ==> es[i] == front[i] && es[..i] == front[..i];
      }
    }
    assert MissedAt(capacity, s, es, n) <==> es[n].NotifyAll? && Reached(capacity, s, front).consumer.AboutToWait?;
    if Missed(capacity, s, es) {
      var j: nat :| MissedAt(capacity, s, es, j);
      assert j < n ==> MissedAt(capacity, s, front, j);
    }
    if Missed(capacity, s, front) && !Wakes(Reached(capacity, s, front), es[n]) {
      var j: nat :| MissedAt(capacity, s, front, j);
      assert MissedAt(capacity, s, es, j);
    }
  }

  lemma LegalFront<T>(capacity: nat, s: State<T>, es: seq<Event<T>>)
    requires Legal(capacity, s, es) && es != []
    ensures Legal(capacity, s, es[..|es| - 1])
    ensures Enabled(Reached(capacity, s, es[..|es| - 1]), es[|es| - 1])
    ensures Reached(capacity, s, es) == Do(capacity, Reached(capacity, s, es[..|es| - 1]), es[|es| - 1])
  {
  }

  lemma ProducerOwnership<T>(capacity: nat, s: State<T>, e: Event<T>)
    requires Ownership(s) && Enabled(s, e)
    requires e.CallPush? || e.LockPush? || e.DoPush? || e.NotifyOne?
    ensures Ownership(Do(capacity, s, e))
  {
  }

  lemma CloserOwnership<T>(capacity: nat, s: State<T>, e: Event<T>)
    requires Ownership(s) && Enabled(s, e)
    requires e.CallClose? || e.LockClose? || e.SetClosed? || e.NotifyAll?
    ensures Ownership(Do(capacity, s, e))
  {
  }

  lemma ConsumerOwnership<T>(capacity: nat, s: State<T>, e: Event<T>)
    requires Ownership(s) && Enabled(s, e)
    requires e.CallPop? || e.LockPop? || e.TakeFront? || e.FindEmpty? || e.LockClosed? || e.ReadClosed? || e.ReturnNone?
             || e.Sleep? || e.Spurious?
    ensures Ownership(Do(capacity, s, e))
  {
  }

  lemma OwnershipKept<T>(capacity: nat, s: State<T>, e: Event<T>)
    requires Ownership(s) && Enabled(s, e)
    ensures Ownership(Do(capacity, s, e))
  {
    hide Do, Ownership, Enabled;
    if e.CallPush? || e.LockPush? || e.DoPush? || e.NotifyOne? {
      ProducerOwnership(capacity, s, e);
    } else if e.CallClose? || e.LockClose? || e.SetClosed? || e.NotifyAll? {
      CloserOwnership(capacity, s, e);
    } else {
      ConsumerOwnership(capacity, s, e);
    }
  }

  lemma WakeupKept<T>(capacity: nat, s: State<T>, e: Event<T>)
    requires Inv(s) && Enabled(s, e)
    ensures NoLostWakeup(Do(capacity, s, e)) && Emptiness(Do(capacity, s, e))
  {
    var t := Do(capacity, s, e);
    if t.consumer.Waiting? && t.items != [] {
      if e.DoPush? {
        assert ProducerAt(t, e.p, MustNotify);
      } else {
        var p :| ProducerAt(s, p, MustNotify);
        assert ProducerAt(t, p, MustNotify);
      }
    }
  }

  lemma CloseKept<T>(capacity: nat, s: State<T>, e: Event<T>, missed: bool)
    requires Inv(s) && CloseCovered(s, missed) && Enabled(s, e)
    ensures CloseCovered(Do(capacity, s, e),
                         (e.NotifyAll? && s.consumer.AboutToWait?) || (missed && !Wakes(s, e)))
  {
    var t := Do(capacity, s, e);
    var missed' := (e.NotifyAll? && s.consumer.AboutToWait?) || (missed && !Wakes(s, e));
    if Stranded(t) && !missed' {
      if e.SetClosed? {
        assert CloserAt(t, e.c, MustNotifyAll);
      } else {
        var c :| CloserAt(s, c, MustNotifyAll);
        assert CloserAt(t, c, MustNotifyAll);
      }
    }
    forall c | CloserAt(t, c, MustNotifyAll)
      ensures t.closed
    {
      assert CloserAt(s, c, MustNotifyAll) || e == SetClosed(c);
    }
  }

  lemma {:induction false} InvAfter<T(!new)>(capacity: nat, s: State<T>, es: seq<Event<T>>)
    requires Initial(s) && Legal(capacity, s, es)
    ensures Inv(Reached(capacity, s, es))
    ensures CloseCovered(Reached(capacity, s, es), Missed(capacity, s, es))
  {
    if es != [] {
      hide Do, Enabled, Missed, Ownership, Emptiness, NoLostWakeup, CloseCovered, Initial;
      var front, e := es[..|es| - 1], es[|es| - 1];
      var m := Reached(capacity, s, front);
      InvAfter(capacity, s, front);
      MissedStep(capacity, s, es);
      OwnershipKept(capacity, m, e);
      WakeupKept(capacity, m, e);
      CloseKept(capacity, m, e, Missed(capacity, s, front));
    }
  }

  lemma InvReachable<T(!new)>(capacity: nat, t: State<T>)
    requires Reachable(capacity, t)
    ensures Inv(t)
  {
    var s, es :| Initial(s) && Legal(capacity, s, es) && Reached(capacity, s, es) == t;
    InvAfter(capacity, s, es);
  }

  // ---- Main results ----

  /** Pushes never lose a wake-up. */
  lemma PushNeverLosesWakeup<T(!new)>(capacity: nat, s: State<T>)
    requires Reachable(capacity, s)
    requires s.consumer.Waiting? && s.items != []
    ensures exists p :: ProducerAt(s, p, MustNotify)
  {
    InvReachable(capacity, s);
  }

  /** Thread `t` wants a lock that `u` holds. */
  predicate WaitsOn<T>(s: State<T>, t: Thread, u: Thread) {
    match t
    case Producer(p) => ProducerAt(s, p, WantItems) && s.itemsOwner == Some(u)
    case Closer(c) => CloserAt(s, c, WantClosed) && s.closedOwner == Some(u)
    case Consumer =>
      || (s.consumer.Starting? && s.itemsOwner == Some(u))
      || (s.consumer.AskingClosed? && s.closedOwner == Some(u))
  }

  /** The locks never deadlock: a chain of waiting threads has at most two links, so it is never a circle. */
  lemma NoCircularWait<T(!new)>(capacity: nat, s: State<T>, t: Thread, u: Thread, v: Thread, w: Thread)
    requires Reachable(capacity, s)
    ensures !(WaitsOn(s, t, u) && WaitsOn(s, u, v) && WaitsOn(s, v, w))
  {
    InvReachable(capacity, s);
  }

  /** `None` is returned only at a moment when the queue is closed and empty. */
  lemma NoneOnlyWhenClosedAndEmpty<T(!new)>(capacity: nat, s: State<T>, e: Event<T>)
    requires Reachable(capacity, s) && Enabled(s, e)
    requires !s.consumer.Returned? && Do(capacity, s, e).consumer == Returned(None)
    ensures s.closed && s.items == []
  {
    InvReachable(capacity, s);
  }

  /** What the consumer gets is the front of the buffer. */
  lemma SomeIsTheFront<T(!new)>(capacity: nat, s: State<T>, e: Event<T>)
    requires Reachable(capacity, s) && Enabled(s, e)
    requires !s.consumer.Returned? && Do(capacity, s, e).consumer.Returned?
    requires Do(capacity, s, e).consumer.result.Some?
    ensures s.itemsOwner == Some(Consumer)
    ensures s.items == [Do(capacity, s, e).consumer.result.value] + Do(capacity, s, e).items
  {
    InvReachable(capacity, s);
  }

  /** What a schedule does to the buffer, in the order in which the items lock was held for it. */
  function Operations<T>(es: seq<Event<T>>): seq<Queue.Op<T>> {
    if es == [] then [] else Operations(es[..|es| - 1]) + Operation(es[|es| - 1])
  }

  function Operation<T>(e: Event<T>): seq<Queue.Op<T>> {
    match e
    case DoPush(_, item) => [Queue.Op.Push(item)]
    case TakeFront => [Queue.Op.Pop]
    case _ => []
  }

  /** One step against the sequential queue. */
  lemma StepRefinesQueue<T>(capacity: nat, ops: seq<Queue.Op<T>>, m: State<T>, e: Event<T>)
    requires Enabled(m, e) && m.items == Queue.Run(capacity, ops).items
    ensures var q, t := Queue.Run(capacity, ops + Operation(e)), Do(capacity, m, e);
            && t.items == q.items
            && (e.TakeFront? ==> q.popped != [] && t.consumer == Returned(Some(q.popped[|q.popped| - 1])))
  {
    hide Queue.Run;
    match e
    case DoPush(_, item) => Queue.RunSnoc(capacity, ops, Queue.Op.Push(item));
    case TakeFront => Queue.RunSnoc(capacity, ops, Queue.Op.Pop);
    case _ => assert ops + Operation(e) == ops;
  }

  /** Whatever the interleaving, the shared buffer is that of the sequential queue after the same pushes and pops,
      and an item that `pop_blocking` returns is the one the sequential queue pops. */
  lemma {:induction false} LocksRefineQueue<T(!new)>(capacity: nat, s: State<T>, es: seq<Event<T>>)
    requires Initial(s) && Legal(capacity, s, es)
    ensures var q, t := Queue.Run(capacity, Operations(es)), Reached(capacity, s, es);
            && t.items == q.items
            && (es != [] && es[|es| - 1].TakeFront? ==>
                  q.popped != [] && t.consumer == Returned(Some(q.popped[|q.popped| - 1])))
  {
    if es != [] {
      hide Do, Enabled, Operation, Initial, Queue.Run;
      var front, e := es[..|es| - 1], es[|es| - 1];
      LocksRefineQueue(capacity, s, front);
      StepRefinesQueue(capacity, Operations(front), Reached(capacity, s, front), e);
    }
  }

  /** Once every `close` call has returned, a consumer is left without a wake-up, asleep or bound to sleep, exactly when
      a notify_all found it between its look at `closed` and going to sleep, and nothing has woken it since. */
  lemma CloseWakesUnlessMissed<T(!new)>(capacity: nat, s: State<T>, es: seq<Event<T>>)
    requires Initial(s) && Legal(capacity, s, es)
    requires var t := Reached(capacity, s, es); t.closed && forall c :: !CloserAt(t, c, MustNotifyAll)
    ensures var t := Reached(capacity, s, es);
            t.consumer.AboutToWait? || t.consumer.Waiting? <==> exists j: nat :: MissedAt(capacity, s, es, j)
  {
    InvAfter(capacity, s, es);
  }

  /** The schedule that shows it can happen: `close` runs to its end while the consumer is in that window. */
  lemma CloseCanBeMissed(capacity: nat) returns (s: State<int>)
    ensures Reachable(capacity, s)
    ensures s.closed && s.items == [] && s.consumer.Waiting?
    ensures forall p :: p in s.producers ==> s.producers[p] == Idle
    ensures forall c :: c in s.closers ==> s.closers[c] == Resting
  {
    hide Reachable;
    LookThenClose(capacity);
    var s8 := Snapshot(true, Some(Consumer), None, Resting, AboutToWait);
    s := Snapshot(true, None, None, Resting, Waiting);
    Extend(capacity, s8, Sleep, s);
  }

  lemma StartReachable(capacity: nat)
    ensures Reachable(capacity, Snapshot(false, None, None, Resting, Starting))
  {
    var s := Snapshot(false, None, None, Resting, Starting);
    assert Initial(s) && Legal(capacity, s, []) && Reached(capacity, s, []) == s;
  }

  /** The consumer finds the buffer empty. */
  lemma FindNothing(capacity: nat)
    ensures Reachable(capacity, Snapshot(false, Some(Consumer), None, Resting, AskingClosed))
  {
    hide Reachable;
    var s0 := Snapshot(false, None, None, Resting, Starting);
    var s1 := Snapshot(false, Some(Consumer), None, Resting, Checking);
    StartReachable(capacity);
    Extend(capacity, s0, LockPop, s1);
    Extend(capacity, s1, FindEmpty, s1.(consumer := AskingClosed));
  }

  /** It reads `closed` before it is set. */
  lemma LookFirst(capacity: nat)
    ensures Reachable(capacity, Snapshot(false, Some(Consumer), None, Resting, AboutToWait))
  {
    hide Reachable;
    FindNothing(capacity);
    var s2 := Snapshot(false, Some(Consumer), None, Resting, AskingClosed);
    var s3 := Snapshot(false, Some(Consumer), Some(Consumer), Resting, ReadingClosed);
    Extend(capacity, s2, LockClosed, s3);
    Extend(capacity, s3, ReadClosed, Snapshot(false, Some(Consumer), None, Resting, AboutToWait));
  }

  lemma LookThenLock(capacity: nat)
    ensures Reachable(capacity, Snapshot(false, Some(Consumer), Some(Closer(0)), HasClosed, AboutToWait))
  {
    hide Reachable;
    LookFirst(capacity);
    var s4 := Snapshot(false, Some(Consumer), None, Resting, AboutToWait);
    var s5 := s4.(closers := map[0 := WantClosed]);
    Extend(capacity, s4, CallClose(0), s5);
    Extend(capacity, s5, LockClose(0), s4.(closers := map[0 := HasClosed], closedOwner := Some(Closer(0))));
  }

  /** Then `close` runs, notification included. */
  lemma LookThenClose(capacity: nat)
    ensures Reachable(capacity, Snapshot(true, Some(Consumer), None, Resting, AboutToWait))
  {
    hide Reachable;
    LookThenLock(capacity);
    var s4 := Snapshot(false, Some(Consumer), None, Resting, AboutToWait);
    var s6 := s4.(closers := map[0 := HasClosed], closedOwner := Some(Closer(0)));
    var s7 := s4.(closers := map[0 := MustNotifyAll], closed := true);
    Extend(capacity, s6, SetClosed(0), s7);
    Extend(capacity, s7, NotifyAll(0), s4.(closed := true));
  }

  /** One closer, no producer, an empty buffer. */
  function Snapshot(closed: bool, itemsOwner: Option<Thread>, closedOwner: Option<Thread>,
                    closer: CloserPc, consumer: ConsumerPc<int>): State<int>
  {
    State([], closed, itemsOwner, closedOwner, map[], map[0 := closer], consumer)
  }

  lemma Extend(capacity: nat, s: State<int>, e: Event<int>, t: State<int>)
    requires Reachable(capacity, s) && Enabled(s, e) && t == Do(capacity, s, e)
    ensures Reachable(capacity, t)
  {
    hide Do, Enabled, Initial;
    var start, es :| Initial(start) && Legal(capacity, start, es) && Reached(capacity, start, es) == s;
    var es' := es + [e];
    assert es'[..|es|] == es;
    assert Legal(capacity, start, es') && Reached(capacity, start, es') == t;
  }
}
