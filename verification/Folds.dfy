/** Sums and counts over lists, and the laws the vote relies on. */
module Folds {
  function SumBy<T>(s: seq<T>, f: T -> real): real
  {
    if s == [] then 0.0 else SumBy(s[..|s| - 1], f) + f(s[|s| - 1])
  }

  function CountBy<T>(s: seq<T>, p: T -> bool): nat
  {
    if s == [] then 0 else CountBy(s[..|s| - 1], p) + (if p(s[|s| - 1]) then 1 else 0)
  }

  lemma {:induction false} CountByAppend<T>(s: seq<T>, x: T, p: T -> bool)
    ensures CountBy(s + [x], p) == CountBy(s, p) + (if p(x) then 1 else 0)
  {
    assert (s + [x])[..|s|] == s;
  }

  lemma {:induction false} SumByAppend<T>(s: seq<T>, x: T, f: T -> real)
    ensures SumBy(s + [x], f) == SumBy(s, f) + f(x)
  {
    assert (s + [x])[..|s|] == s;
  }

  lemma {:induction false} SumByConcat<T>(a: seq<T>, b: seq<T>, f: T -> real)
    ensures SumBy(a + b, f) == SumBy(a, f) + SumBy(b, f)
  {
    if b == [] {
      assert a + b == a;
    } else {
      SumByConcat(a, b[..|b| - 1], f);
      assert (a + b)[..|a + b| - 1] == a + b[..|b| - 1];
    }
  }

  /** Taking one element out of the list takes its value out of the sum. */
  lemma {:induction false} SumByRemove<T>(s: seq<T>, i: nat, f: T -> real)
    requires i < |s|
    ensures SumBy(s, f) == SumBy(s[..i] + s[i + 1..], f) + f(s[i])
  {
    var a, x, b := s[..i], s[i], s[i + 1..];
    assert s == a + [x] + b;
    SumByConcat(a + [x], b, f);
    SumByAppend(a, x, f);
    SumByConcat(a, b, f);
  }

  /** Equal multisets stay equal when an element is removed from each list. */
  lemma {:induction false} RemoveFromBoth<T>(a: seq<T>, b: seq<T>) returns (i: nat)
    requires a != [] && multiset(a) == multiset(b)
    ensures i < |b| && b[i] == a[|a| - 1]
    ensures multiset(a[..|a| - 1]) == multiset(b[..i] + b[i + 1..])
  {
    var x := a[|a| - 1];
    assert x in multiset(b);
    i :| 0 <= i < |b| && b[i] == x;
    var init, left, right := a[..|a| - 1], b[..i], b[i + 1..];
    assert a == init + [x];
    assert b == left + [x] + right;
    assert multiset(init) == multiset(a) - multiset{x};
    assert multiset(left + right) == multiset(left) + multiset(right) == multiset(b) - multiset{x};
  }

  lemma {:induction false} SumByPermutation<T>(a: seq<T>, b: seq<T>, f: T -> real)
    requires multiset(a) == multiset(b)
    ensures SumBy(a, f) == SumBy(b, f)
  {
    if a == [] {
      assert |b| == |multiset(b)| == 0;
    } else {
      var i := RemoveFromBoth(a, b);
      SumByPermutation(a[..|a| - 1], b[..i] + b[i + 1..], f);
      SumByRemove(b, i, f);
    }
  }

  lemma {:induction false} SumByPointwise<A, B>(a: seq<A>, b: seq<B>, f: A -> real, g: B -> real)
    requires |a| == |b| && forall i :: 0 <= i < |a| ==> f(a[i]) == g(b[i])
    ensures SumBy(a, f) == SumBy(b, g)
  {
    if a == [] {
    } else {
      SumByPointwise(a[..|a| - 1], b[..|b| - 1], f, g);
    }
  }

  lemma {:induction false} SumByAtMost<T>(s: seq<T>, f: T -> real, g: T -> real, h: T -> real)
    requires forall i :: 0 <= i < |s| ==> f(s[i]) >= 0.0 && g(s[i]) >= 0.0 && f(s[i]) + g(s[i]) <= h(s[i])
    ensures SumBy(s, f) >= 0.0 && SumBy(s, g) >= 0.0
    ensures SumBy(s, f) + SumBy(s, g) <= SumBy(s, h)
  {
    if s == [] {
    } else {
      SumByAtMost(s[..|s| - 1], f, g, h);
    }
  }

  lemma {:induction false} SumByUpdate<T>(s: seq<T>, i: nat, x: T, f: T -> real)
    requires i < |s|
    ensures SumBy(s[i := x], f) == SumBy(s, f) - f(s[i]) + f(x)
  {
    SumByRemove(s, i, f);
    SumByRemove(s[i := x], i, f);
    assert s[i := x][..i] + s[i := x][i + 1..] == s[..i] + s[i + 1..];
  }

  function Indicator<T>(p: T -> bool): T -> real {
    x => if p(x) then 1.0 else 0.0
  }

  lemma {:induction false} CountIsSum<T>(s: seq<T>, p: T -> bool)
    ensures CountBy(s, p) as real == SumBy(s, Indicator(p))
  {
    if s == [] {
    } else {
      CountIsSum(s[..|s| - 1], p);
    }
  }

  lemma {:induction false} CountByPermutation<T>(a: seq<T>, b: seq<T>, p: T -> bool)
    requires multiset(a) == multiset(b)
    ensures CountBy(a, p) == CountBy(b, p)
  {
    SumByPermutation(a, b, Indicator(p));
    CountIsSum(a, p);
    CountIsSum(b, p);
  }

  lemma {:induction false} CountByPointwise<A, B>(a: seq<A>, b: seq<B>, p: A -> bool, q: B -> bool)
    requires |a| == |b| && forall i :: 0 <= i < |a| ==> p(a[i]) == q(b[i])
    ensures CountBy(a, p) == CountBy(b, q)
  {
    if a == [] {
    } else {
      CountByPointwise(a[..|a| - 1], b[..|b| - 1], p, q);
    }
  }

  /** Three exclusive properties that cover every element split the count. */
  lemma {:induction false} CountByPartition<T>(s: seq<T>, p: T -> bool, q: T -> bool, r: T -> bool)
    requires forall i :: 0 <= i < |s| ==>
      (if p(s[i]) then !q(s[i]) && !r(s[i]) else if q(s[i]) then !r(s[i]) else r(s[i]))
    ensures CountBy(s, p) + CountBy(s, q) + CountBy(s, r) == |s|
  {
    if s == [] {
    } else {
      CountByPartition(s[..|s| - 1], p, q, r);
    }
  }
}
