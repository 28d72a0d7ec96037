/** The bounded drop-oldest queue between the broker and one writer thread: sequential semantics. */
module Queue {
  import opened Sequences

  /** What became of an item that is no longer buffered. */
  datatype Fate = Popped | Dropped

  /** The buffer together with everything that happened to it. */
  datatype Trace<T> = Trace(
    items: seq<T>,      // the buffer, oldest first
    pushed: seq<T>,     // every item ever pushed
    fates: seq<Fate>,   // the fate of each removed item, in removal order
    popped: seq<T>,     // what the consumer got
    lost: seq<T>,       // what pushes discarded
    reports: nat)       // how many pushes returned true

  function Empty<T>(): Trace<T> {
    Trace([], [], [], [], [], 0)
  }

  function Pushed<T>(q: Trace<T>, capacity: nat, item: T): Trace<T> {
    var full := |q.items| >= capacity;
    var room :=
      if full && q.items != [] then
        q.(items := q.items[1..], fates := q.fates + [Dropped], lost := q.lost + [q.items[0]])
      else q;
    room.(items := room.items + [item], pushed := room.pushed + [item],
    reports := if full then room.reports + 1 else room.reports)
  }

  function Taken<T>(q: Trace<T>): Trace<T> {
    if q.items == [] then q
    else q.(items := q.items[1..], fates := q.fates + [Popped], popped := q.popped + [q.items[0]])
  }

  /** What a consumer that does not wait would see. */
  datatype PopResult<T> = Item(item: T) | Finished | WouldBlock

  class BoundedQueue<T> {
    const capacity: nat
    var items: seq<T>
    var closed: bool
    ghost var trace: Trace<T>

    ghost predicate Valid()
      reads this
    {
      items == trace.items
    }

    constructor (capacity: nat)
      ensures Valid() && this.capacity == capacity && !closed && trace == Empty()
    {
      this.capacity := capacity;
      items, closed, trace := [], false, Empty();
    }

    method Push(item: T) returns (dropped: bool)
      requires Valid()
      modifies this
      ensures Valid() && closed == old(closed)
      ensures trace == Pushed(old(trace), capacity, item)
      ensures dropped <==> trace.reports == old(trace.reports) + 1
    {
      if |items| >= capacity {
        if items != [] {
          items := items[1..];
        }
        dropped := true;
      } else {
        dropped := false;
      }
      items := items + [item];
      trace := Pushed(trace, capacity, item);
    }

    /** One turn of the loop in `pop_blocking`: take the front, or give up, or wait. */
    method Pop() returns (r: PopResult<T>)
      requires Valid()
      modifies this
      ensures Valid() && closed == old(closed)
      ensures trace == Taken(old(trace))
      ensures r.Item? <==> old(items) != []
      ensures r.Item? ==> trace.popped == old(trace.popped) + [r.item]
      ensures r.Finished? <==> old(items) == [] && closed
    {
      if items != [] {
        var item := items[0];
        items := items[1..];
        trace := Taken(trace);
        return Item(item);
      }
      if closed {
        return Finished;
      }
      return WouldBlock;
    }

    method Close()
      requires Valid()
      modifies this
      ensures Valid() && closed && items == old(items) && trace == old(trace)
    {
      closed := true;
    }
  }

  // ---- Every sequence of operations ----

  datatype Op<T> = Push(item: T) | Pop

  function Apply<T>(q: Trace<T>, capacity: nat, op: Op<T>): Trace<T> {
    match op
    case Push(item) => Pushed(q, capacity, item)
    case Pop => Taken(q)
  }

  function Run<T>(capacity: nat, ops: seq<Op<T>>): Trace<T> {
    if ops == [] then Empty() else Apply(Run(capacity, ops[..|ops| - 1]), capacity, ops[|ops| - 1])
  }

  lemma RunSnoc<T>(capacity: nat, ops: seq<Op<T>>, op: Op<T>)
    ensures Run(capacity, ops + [op]) == Apply(Run(capacity, ops), capacity, op)
  {
    hide Apply;
    assert (ops + [op])[..|ops|] == ops;
  }

  /** The items of `s` whose fate is `f`. */
  ghost function Select<T>(s: seq<T>, fates: seq<Fate>, f: Fate): seq<T>
    requires |s| == |fates|
  {
    if s == [] then []
    else
      var n := |s| - 1;
      Select(s[..n], fates[..n], f) + if fates[n] == f then [s[n]] else []
  }

  ghost function Count(fates: seq<Fate>, f: Fate): nat {
    if fates == [] then 0
    else Count(fates[..|fates| - 1], f) + if fates[|fates| - 1] == f then 1 else 0
  }

  /** The buffer is what was pushed last; the rest splits, in order, into popped and lost items. */
  ghost predicate Split<T>(q: Trace<T>) {
    var n := |q.fates|;
    && n <= |q.pushed|
    && q.items == q.pushed[n..]
    && q.popped == Select(q.pushed[..n], q.fates, Popped)
    && q.lost == Select(q.pushed[..n], q.fates, Dropped)
    && |q.lost| == Count(q.fates, Dropped)
  }

  ghost predicate Consistent<T>(q: Trace<T>, capacity: nat) {
    && Split(q)
    && |q.items| <= (if capacity == 0 then 1 else capacity)
    && (capacity >= 1 ==> q.reports == |q.lost|)
  }

  lemma SelectSnoc<T>(s: seq<T>, fates: seq<Fate>, x: T, fate: Fate, f: Fate)
    requires |s| == |fates|
    ensures Select(s + [x], fates + [fate], f) == Select(s, fates, f) + if fate == f then [x] else []
    ensures Count(fates + [fate], f) == Count(fates, f) + if fate == f then 1 else 0
  {
    assert (s + [x])[..|s|] == s && (fates + [fate])[..|s|] == fates;
  }

  /** The front item leaves with its fate. */
  lemma RemoveFront<T>(q: Trace<T>, fate: Fate, q': Trace<T>)
    requires Split(q) && q.items != []
    requires q' == q.(items := q.items[1..], fates := q.fates + [fate],
                      popped := q.popped + if fate == Popped then [q.items[0]] else [],
                      lost := q.lost + if fate == Dropped then [q.items[0]] else [])
    ensures Split(q')
  {
    var n := |q.fates|;
    assert q.pushed[..n + 1] == q.pushed[..n] + [q.items[0]];
    SelectSnoc(q.pushed[..n], q.fates, q.items[0], fate, Popped);
    SelectSnoc(q.pushed[..n], q.fates, q.items[0], fate, Dropped);
  }

  lemma AddBack<T>(q: Trace<T>, item: T, q': Trace<T>)
    requires Split(q)
    requires q' == q.(items := q.items + [item], pushed := q.pushed + [item], reports := q'.reports)
    ensures Split(q')
  {
    assert q'.pushed[..|q.fates|] == q.pushed[..|q.fates|];
  }

  lemma PushConsistent<T>(q: Trace<T>, capacity: nat, item: T)
    requires Consistent(q, capacity)
    ensures Consistent(Pushed(q, capacity, item), capacity)
  {
    if |q.items| >= capacity && q.items != [] {
      var room := q.(items := q.items[1..], fates := q.fates + [Dropped], lost := q.lost + [q.items[0]]);
      assert q.popped + [] == q.popped;
      RemoveFront(q, Dropped, room);
      AddBack(room, item, Pushed(q, capacity, item));
    } else {
      AddBack(q, item, Pushed(q, capacity, item));
    }
  }

  lemma PopConsistent<T>(q: Trace<T>, capacity: nat)
    requires Consistent(q, capacity)
    ensures Consistent(Taken(q), capacity)
  {
    if q.items != [] {
      assert q.lost + [] == q.lost;
      RemoveFront(q, Popped, Taken(q));
    }
  }

  /** After any operations, for any capacity. */
  lemma {:induction false} TraceLaw<T>(capacity: nat, ops: seq<Op<T>>)
    ensures Consistent(Run(capacity, ops), capacity)
  {
    if ops != [] {
      TraceLaw(capacity, ops[..|ops| - 1]);
      var q := Run(capacity, ops[..|ops| - 1]);
      match ops[|ops| - 1]
      case Push(item) => PushConsistent(q, capacity, item);
      case Pop => PopConsistent(q, capacity);
    }
  }

  lemma {:induction false} SelectSubsequence<T>(s: seq<T>, fates: seq<Fate>, f: Fate)
    requires |s| == |fates|
    ensures Subsequence(Select(s, fates, f), s)
  {
    if s != [] {
      var n := |s| - 1;
      SelectSubsequence(s[..n], fates[..n], f);
      var front := Select(s[..n], fates[..n], f);
      SubsequenceSnoc(front, s[..n], s[n]);
      assert s == s[..n] + [s[n]];
      assert Select(s, fates, f) == if fates[n] == f then front + [s[n]] else front;
    }
  }

  /** The consumer sees a subsequence of what was pushed: nothing twice, nothing reordered. */
  lemma PoppedInOrder<T>(q: Trace<T>, capacity: nat)
    requires Consistent(q, capacity)
    ensures Subsequence(q.popped, q.pushed)
  {
    var n := |q.fates|;
    SelectSubsequence(q.pushed[..n], q.fates, Popped);
    PrefixSubsequence(q.pushed[..n], q.pushed);
    SubsequenceTrans(q.popped, q.pushed[..n], q.pushed);
  }

  lemma {:induction false} FatesGrow<T>(capacity: nat, ops: seq<Op<T>>, j: nat)
    requires j <= |ops|
    ensures Run(capacity, ops[..j]).fates <= Run(capacity, ops).fates
    decreases |ops|
  {
    if j < |ops| {
      var front := ops[..|ops| - 1];
      FatesGrow(capacity, front, j);
      assert front[..j] == ops[..j];
    } else {
      assert ops[..j] == ops;
    }
  }

  /** The moment at which item `k` is discarded: a push finds it in front with `capacity` items pushed since. */
  ghost predicate Overtaken<T>(capacity: nat, ops: seq<Op<T>>, j: nat, k: nat) {
    && j < |ops|
    && ops[j].Push?
    && |Run(capacity, ops[..j]).fates| == k
    && |Run(capacity, ops[..j]).pushed| == k + capacity
  }

  lemma {:induction false} LostWitness<T>(capacity: nat, ops: seq<Op<T>>, k: nat) returns (j: nat)
    requires capacity >= 1
    requires k < |Run(capacity, ops).fates| && Run(capacity, ops).fates[k] == Dropped
    ensures Overtaken(capacity, ops, j, k)
  {
    var front := ops[..|ops| - 1];
    var q := Run(capacity, front);
    TraceLaw(capacity, front);
    if k < |q.fates| {
      j := LostWitness(capacity, front, k);
      assert front[..j] == ops[..j];
    } else {
      j := |ops| - 1;
    }
  }

  lemma OvertakenIsLost<T>(capacity: nat, ops: seq<Op<T>>, j: nat, k: nat)
    requires capacity >= 1 && k < |Run(capacity, ops).fates| && Overtaken(capacity, ops, j, k)
    ensures Run(capacity, ops).fates[k] == Dropped
  {
    hide Run;
    var q, q' := Run(capacity, ops[..j]), Run(capacity, ops[..j + 1]);
    TraceLaw(capacity, ops[..j]);
    assert ops[..j + 1] == ops[..j] + [ops[j]];
    RunSnoc(capacity, ops[..j], ops[j]);
    FatesGrow(capacity, ops, j + 1);
    assert q'.fates == q.fates + [Dropped];
  }

  /** An item is lost exactly when `capacity` newer items are pushed before the consumer reaches it. */
  lemma LostExactlyWhenOvertaken<T>(capacity: nat, ops: seq<Op<T>>, k: nat)
    requires capacity >= 1 && k < |Run(capacity, ops).fates|
    ensures Run(capacity, ops).fates[k] == Dropped <==> exists j :: Overtaken(capacity, ops, j, k)
  {
    if Run(capacity, ops).fates[k] == Dropped {
      var j := LostWitness(capacity, ops, k);
    }
    forall j: nat | Overtaken(capacity, ops, j, k)
      ensures Run(capacity, ops).fates[k] == Dropped
    {
      OvertakenIsLost(capacity, ops, j, k);
    }
  }

  /** How far the consumer is behind. */
  ghost function Backlog<T>(q: Trace<T>): int {
    |q.pushed| - |q.popped|
  }

  lemma {:induction false} SelectCount<T>(s: seq<T>, fates: seq<Fate>)
    requires |s| == |fates|
    ensures |Select(s, fates, Popped)| + |Select(s, fates, Dropped)| == |s|
  {
    if s != [] {
      SelectCount(s[..|s| - 1], fates[..|s| - 1]);
    }
  }

  /** Every pushed item is popped, lost or still buffered. */
  lemma Conservation<T>(q: Trace<T>, capacity: nat)
    requires Consistent(q, capacity)
    ensures |q.pushed| == |q.popped| + |q.lost| + |q.items|
  {
    SelectCount(q.pushed[..|q.fates|], q.fates);
  }

  lemma LossStep<T>(capacity: nat, ops: seq<Op<T>>)
    requires capacity >= 1 && ops != []
    ensures var before, after := Run(capacity, ops[..|ops| - 1]), Run(capacity, ops);
            after.lost == [] <==> before.lost == [] && Backlog(after) <= capacity
  {
    var front := ops[..|ops| - 1];
    TraceLaw(capacity, front);
    Conservation(Run(capacity, front), capacity);
    TraceLaw(capacity, ops);
    Conservation(Run(capacity, ops), capacity);
  }

  lemma {:induction false} SelectAll<T>(s: seq<T>, fates: seq<Fate>)
    requires |s| == |fates| && Select(s, fates, Dropped) == []
    ensures Select(s, fates, Popped) == s
  {
    if s != [] {
      SelectAll(s[..|s| - 1], fates[..|s| - 1]);
      assert fates[|s| - 1] == Popped;
    }
  }

  /** Without losses the consumer gets exactly the front of what was pushed. */
  lemma LosslessPopsPrefix<T>(q: Trace<T>, capacity: nat)
    requires Consistent(q, capacity) && q.lost == []
    ensures q.popped <= q.pushed
  {
    SelectAll(q.pushed[..|q.fates|], q.fates);
  }

  /** Nothing is ever lost exactly when the consumer is never more than `capacity` items behind. */
  lemma {:induction false} LosslessIffBacklogBounded<T>(capacity: nat, ops: seq<Op<T>>)
    requires capacity >= 1
    ensures Run(capacity, ops).lost == [] <==>
            forall j :: 0 <= j <= |ops| ==> Backlog(Run(capacity, ops[..j])) <= capacity
  {
    assert ops[..|ops|] == ops;
    if ops != [] {
      var front := ops[..|ops| - 1];
      LosslessIffBacklogBounded(capacity, front);
      LossStep(capacity, ops);
      assert forall j :: 0 <= j <= |front| ==> ops[..j] == front[..j];
    }
  }

  /** A push reports a drop exactly when it loses an item, unless the capacity is 0 and the queue empty. */
  lemma ReportIsLoss<T>(q: Trace<T>, capacity: nat, item: T)
    ensures var q' := Pushed(q, capacity, item);
            (q'.reports == q.reports + 1 <==> q'.lost != q.lost) <==> (capacity >= 1 || q.items != [])
  {
    var q' := Pushed(q, capacity, item);
    assert |q'.lost| == |q.lost| + if |q.items| >= capacity && q.items != [] then 1 else 0;
  }
}
