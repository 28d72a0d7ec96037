/** Filtering, subsequences and duplicate-free listings of sequences. */
module Sequences {
  import opened Common

  ghost function Filter<T>(keep: T -> bool, s: seq<T>): seq<T> {
    if s == [] then []
    else if keep(s[|s| - 1]) then Filter(keep, s[..|s| - 1]) + [s[|s| - 1]]
    else Filter(keep, s[..|s| - 1])
  }

  lemma FilterSnoc<T>(keep: T -> bool, s: seq<T>, x: T)
    ensures Filter(keep, s + [x]) == Filter(keep, s) + if keep(x) then [x] else []
  {
    assert (s + [x])[..|s|] == s;
  }

  lemma {:induction false} FilterAppend<T>(keep: T -> bool, a: seq<T>, b: seq<T>)
    ensures Filter(keep, a + b) == Filter(keep, a) + Filter(keep, b)
    decreases |b|
  {
    if b == [] {
      assert a + b == a;
    } else {
      var front, last := b[..|b| - 1], b[|b| - 1];
      assert a + b == (a + front) + [last];
      FilterSnoc(keep, a + front, last);
      FilterAppend(keep, a, front);
      assert b == front + [last];
    }
  }

  lemma {:induction false} FilterMember<T>(keep: T -> bool, s: seq<T>, x: T)
    ensures x in Filter(keep, s) <==> x in s && keep(x)
  {
    if s != [] {
      var front := s[..|s| - 1];
      FilterMember(keep, front, x);
      assert s == front + [s[|s| - 1]];
    }
  }

  /** Nothing kept means an empty filter. */
  lemma {:induction false} FilterNone<T>(keep: T -> bool, s: seq<T>)
    requires forall x :: x in s ==> !keep(x)
    ensures Filter(keep, s) == []
  {
    if s != [] {
      FilterNone(keep, s[..|s| - 1]);
    }
  }

  /** `a` can be obtained from `b` by deleting elements. */
  ghost predicate Subsequence<T>(a: seq<T>, b: seq<T>)
    decreases |b|
  {
    if a == [] then true
    else if b == [] then false
    else
      || Subsequence(a, b[..|b| - 1])
      || (a[|a| - 1] == b[|b| - 1] && Subsequence(a[..|a| - 1], b[..|b| - 1]))
  }

  lemma {:induction false} SubsequenceSnoc<T>(a: seq<T>, b: seq<T>, x: T)
    requires Subsequence(a, b)
    ensures Subsequence(a, b + [x])
    ensures Subsequence(a + [x], b + [x])
  {
    assert (b + [x])[..|b|] == b;
    assert (a + [x])[..|a|] == a;
  }

  lemma {:induction false} SubsequenceRefl<T>(a: seq<T>)
    ensures Subsequence(a, a)
  {
    if a != [] {
      SubsequenceRefl(a[..|a| - 1]);
    }
  }

  lemma {:induction false} SubsequenceTrans<T>(a: seq<T>, b: seq<T>, c: seq<T>)
    requires Subsequence(a, b) && Subsequence(b, c)
    ensures Subsequence(a, c)
    decreases |c|
  {
    if a != [] && b != [] {
      var c' := c[..|c| - 1];
      if Subsequence(b, c') {
        SubsequenceTrans(a, b, c');
      } else {
        var b' := b[..|b| - 1];
        if Subsequence(a, b') {
          SubsequenceTrans(a, b', c');
        } else {
          SubsequenceTrans(a[..|a| - 1], b', c');
        }
      }
    }
  }

  /** A prefix is a subsequence. */
  lemma {:induction false} PrefixSubsequence<T>(a: seq<T>, b: seq<T>)
    requires a <= b
    ensures Subsequence(a, b)
    decreases |b|
  {
    if a == b {
      SubsequenceRefl(a);
    } else {
      PrefixSubsequence(a, b[..|b| - 1]);
    }
  }

  ghost predicate NoDuplicates<T>(s: seq<T>) {
    forall i, j :: 0 <= i < j < |s| ==> s[i] != s[j]
  }

  /** `s` lists every element of `xs` exactly once, in some order. */
  ghost predicate Lists<T>(s: seq<T>, xs: set<T>) {
    && NoDuplicates(s)
    && (forall x :: x in s ==> x in xs)
    && (forall x :: x in xs ==> x in s)
  }

  /** A listing of a set in which at most one element is kept filters to that element alone. */
  lemma {:induction false} FilterUnique<T>(keep: T -> bool, s: seq<T>, x: T)
    requires NoDuplicates(s) && x in s && keep(x)
    requires forall y :: y in s && keep(y) ==> y == x
    ensures Filter(keep, s) == [x]
  {
    var front, last := s[..|s| - 1], s[|s| - 1];
    assert s == front + [last];
    if last == x {
      assert x !in front;
      FilterNone(keep, front);
    } else {
      FilterUnique(keep, front, x);
    }
  }

  /** Keeps and converts the elements on which `f` is defined. */
  ghost function FilterMap<T, U>(f: T -> Option<U>, s: seq<T>): seq<U> {
    if s == [] then []
    else
      var front := FilterMap(f, s[..|s| - 1]);
      match f(s[|s| - 1])
      case Some(u) => front + [u]
      case None => front
  }

  ghost function Optional<U>(u: Option<U>): seq<U> {
    if u.Some? then [u.value] else []
  }

  lemma FilterMapSnoc<T, U>(f: T -> Option<U>, s: seq<T>, x: T)
    ensures FilterMap(f, s + [x]) == FilterMap(f, s) + Optional(f(x))
  {
    assert (s + [x])[..|s|] == s;
  }

  lemma {:induction false} FilterMapAppend<T, U>(f: T -> Option<U>, a: seq<T>, b: seq<T>)
    ensures FilterMap(f, a + b) == FilterMap(f, a) + FilterMap(f, b)
    decreases |b|
  {
    if b == [] {
      assert a + b == a;
    } else {
      var front, last := b[..|b| - 1], b[|b| - 1];
      assert a + b == (a + front) + [last];
      FilterMapSnoc(f, a + front, last);
      FilterMapAppend(f, a, front);
      assert b == front + [last];
    }
  }

  lemma FilterMapPrefix<T, U>(f: T -> Option<U>, a: seq<T>, b: seq<T>)
    requires a <= b
    ensures FilterMap(f, a) <= FilterMap(f, b)
  {
    FilterMapAppend(f, a, b[|a|..]);
    assert b == a + b[|a|..];
  }

  lemma {:induction false} FilterMapNone<T, U>(f: T -> Option<U>, s: seq<T>)
    requires forall x :: x in s ==> f(x) == None
    ensures FilterMap(f, s) == []
  {
    if s != [] {
      FilterMapNone(f, s[..|s| - 1]);
    }
  }

  lemma {:induction false} FilterMapMember<T, U>(f: T -> Option<U>, s: seq<T>, u: U) returns (x: T)
    requires u in FilterMap(f, s)
    ensures x in s && f(x) == Some(u)
  {
    var front, last := s[..|s| - 1], s[|s| - 1];
    assert s == front + [last];
    if u in FilterMap(f, front) {
      x := FilterMapMember(f, front, u);
    } else {
      x := last;
    }
  }

  /** Converting respects subsequences. */
  lemma {:induction false} FilterMapSubsequence<T, U>(f: T -> Option<U>, a: seq<T>, b: seq<T>)
    requires Subsequence(a, b)
    ensures Subsequence(FilterMap(f, a), FilterMap(f, b))
    decreases |b|
  {
    if a != [] {
      var b', x := b[..|b| - 1], b[|b| - 1];
      assert b == b' + [x];
      FilterMapSnoc(f, b', x);
      var a' := if Subsequence(a, b') then a else a[..|a| - 1];
      FilterMapSubsequence(f, a', b');
      if f(x).Some? {
        SubsequenceSnoc(FilterMap(f, a'), FilterMap(f, b'), f(x).value);
      }
    }
  }

  /** When `f` keeps only elements of a class, the others may be filtered out first. */
  lemma {:induction false} FilterMapOfFilter<T, U>(f: T -> Option<U>, keep: T -> bool, s: seq<T>)
    requires forall x :: x in s && f(x).Some? ==> keep(x)
    ensures FilterMap(f, s) == FilterMap(f, Filter(keep, s))
  {
    if s != [] {
      var front, last := s[..|s| - 1], s[|s| - 1];
      FilterMapOfFilter(f, keep, front);
      assert s == front + [last];
      if keep(last) {
        FilterMapSnoc(f, Filter(keep, front), last);
      }
    }
  }

  /** Converting and then converting again. */
  lemma {:induction false} FilterMapTwice<T, U, V>(f: T -> Option<U>, g: U -> Option<V>, h: T -> Option<V>, s: seq<T>)
    requires forall x :: x in s ==> h(x) == match f(x) case Some(u) => g(u) case None => None
    ensures FilterMap(g, FilterMap(f, s)) == FilterMap(h, s)
  {
    if s != [] {
      var front, last := s[..|s| - 1], s[|s| - 1];
      assert s == front + [last];
      FilterMapTwice(f, g, h, front);
      if f(last).Some? {
        FilterMapSnoc(g, FilterMap(f, front), f(last).value);
      }
    }
  }

  /** Any prefix of what is kept comes from a prefix of the whole. */
  lemma {:induction false} FilterMapCut<T, U>(f: T -> Option<U>, s: seq<T>, n: nat) returns (k: nat)
    requires n <= |FilterMap(f, s)|
    ensures k <= |s| && FilterMap(f, s[..k]) == FilterMap(f, s)[..n]
    ensures n == |FilterMap(f, s)| ==> k == |s|
  {
    if n == |FilterMap(f, s)| {
      k := |s|;
      assert s[..k] == s;
    } else {
      var front := s[..|s| - 1];
      k := FilterMapCut(f, front, n);
      assert front[..k] == s[..k];
    }
  }

  /** Filtering what was converted. */
  lemma {:induction false} FilterAfterMap<T, U>(f: T -> Option<U>, keep: U -> bool, h: T -> Option<U>, s: seq<T>)
    requires forall x :: x in s ==> h(x) == if f(x).Some? && keep(f(x).value) then f(x) else None
    ensures Filter(keep, FilterMap(f, s)) == FilterMap(h, s)
  {
    if s != [] {
      var front, last := s[..|s| - 1], s[|s| - 1];
      assert s == front + [last];
      FilterAfterMap(f, keep, h, front);
      if f(last).Some? {
        FilterSnoc(keep, FilterMap(f, front), f(last).value);
      }
    }
  }

  lemma FilterPrefix<T>(keep: T -> bool, a: seq<T>, b: seq<T>)
    requires a <= b
    ensures Filter(keep, a) <= Filter(keep, b)
  {
    FilterAppend(keep, a, b[|a|..]);
    assert b == a + b[|a|..];
  }

  /** Every finite set can be listed. */
  lemma {:induction false} SomeListing<T>(xs: set<T>) returns (s: seq<T>)
    ensures Lists(s, xs)
    decreases xs
  {
    if xs == {} {
      s := [];
    } else {
      var x :| x in xs;
      var rest := SomeListing(xs - {x});
      s := rest + [x];
      assert forall y :: y in xs ==> y == x || y in xs - {x};
    }
  }

  /** All pieces, one after the other. */
  function Flatten<T>(pieces: seq<seq<T>>): seq<T> {
    if pieces == [] then [] else Flatten(pieces[..|pieces| - 1]) + pieces[|pieces| - 1]
  }
}
