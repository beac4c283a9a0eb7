/** `SmartOrderRouter._calculate_slices`: a parent quantity is cut into child orders. */
module SmartRouter {
  import opened Common

  function Total(q: seq<int>): int
  {
    if q == [] then 0 else Total(q[..|q| - 1]) + q[|q| - 1]
  }

  function SumOfSquares(q: seq<int>): int
  {
    if q == [] then 0 else SumOfSquares(q[..|q| - 1]) + q[|q| - 1] * q[|q| - 1]
  }

  /** Any way of cutting `total` into `n` integer parts. */
  predicate IsSplit(q: seq<int>, total: int, n: nat) {
    |q| == n && Total(q) == total
  }

  /** No part exceeds another by more than one. */
  predicate IsBalanced(q: seq<int>) {
    forall i, j :: 0 <= i < |q| && 0 <= j < |q| ==> q[i] <= q[j] + 1
  }

  predicate IsNonIncreasing(q: seq<int>) {
    forall i, j :: 0 <= i < j < |q| ==> q[j] <= q[i]
  }

  lemma {:induction false} TwoLevelTotal(q: seq<int>, base: int, high: nat)
    requires high <= |q|
    requires forall k :: 0 <= k < high ==> q[k] == base + 1
    requires forall k :: high <= k < |q| ==> q[k] == base
    ensures Total(q) == |q| * base + high
  {
    if q == [] {
    } else {
      TwoLevelTotal(q[..|q| - 1], base, if high == |q| then high - 1 else high);
    }
  }

  method CalculateSlices(totalQty: int, nSlices: int) returns (r: Result<seq<int>>)
    ensures r.Raised? <==> nSlices == 0
    ensures nSlices < 0 ==> r == Ok([])
    ensures nSlices > 0 ==>
      IsSplit(r.value, totalQty, nSlices) && IsBalanced(r.value) && IsNonIncreasing(r.value)
  {
    if nSlices == 0 {
      return Raised;
    }
    if nSlices < 0 {
      return Ok([]);
    }
    var base := totalQty / nSlices;
    var remainder := totalQty % nSlices;
    var slices := new int[nSlices](_ => base);
    for i := 0 to remainder
      invariant forall k :: 0 <= k < i ==> slices[k] == base + 1
      invariant forall k :: i <= k < nSlices ==> slices[k] == base
    {
      slices[i] := slices[i] + 1;
    }
    TwoLevelTotal(slices[..], base, remainder);
    r := Ok(slices[..]);
  }

  lemma {:induction false} PointwiseSquare(x: int, b: int)
    ensures x * x >= (2 * b + 1) * x - b * (b + 1)
    ensures x * x == (2 * b + 1) * x - b * (b + 1) <==> x == b || x == b + 1
  {
    var d := x - b;
    assert x * x - (2 * b + 1) * x + b * (b + 1) == d * (d - 1);
    if d > 1 {
      assert d * (d - 1) > 0;
    } else if d < 0 {
      assert d * (d - 1) == (-d) * (1 - d) > 0;
    }
  }

  lemma {:induction false} Distribute(a: int, x: int, y: int)
    ensures a * (x + y) == a * x + a * y
  {
  }

  /** Every integer x satisfies (x - b)(x - b - 1) >= 0, with equality only at b and b + 1;
      summed up, the parts' squares are bounded below by a function of their total. */
  lemma {:induction false} SquaresBound(q: seq<int>, b: int)
    ensures SumOfSquares(q) >= (2 * b + 1) * Total(q) - (b * (b + 1)) * |q|
    ensures SumOfSquares(q) == (2 * b + 1) * Total(q) - (b * (b + 1)) * |q|
            <==> forall i :: 0 <= i < |q| ==> q[i] == b || q[i] == b + 1
  {
    if q == [] {
    } else {
      var init, x := q[..|q| - 1], q[|q| - 1];
      var slope, offset := 2 * b + 1, b * (b + 1);
      SquaresBound(init, b);
      PointwiseSquare(x, b);
      Distribute(slope, Total(init), x);
      Distribute(offset, |init|, 1);
      assert forall i :: 0 <= i < |init| ==> init[i] == q[i];
    }
  }

  lemma {:induction false} TotalAtLeast(q: seq<int>, lo: int)
    requires forall i :: 0 <= i < |q| ==> lo <= q[i]
    ensures |q| * lo <= Total(q)
  {
    if q == [] {
    } else {
      TotalAtLeast(q[..|q| - 1], lo);
    }
  }

  lemma {:induction false} TotalAtMost(q: seq<int>, hi: int)
    requires forall i :: 0 <= i < |q| ==> q[i] <= hi
    ensures Total(q) <= |q| * hi
  {
    if q == [] {
    } else {
      TotalAtMost(q[..|q| - 1], hi);
    }
  }

  lemma {:induction false} TotalBelow(q: seq<int>, hi: int, j: nat)
    requires j < |q| && q[j] < hi
    requires forall i :: 0 <= i < |q| ==> q[i] <= hi
    ensures Total(q) < |q| * hi
  {
    var init := q[..|q| - 1];
    if j == |q| - 1 {
      TotalAtMost(init, hi);
    } else {
      TotalBelow(init, hi, j);
    }
  }

  /** A balanced split uses only the two values base and base + 1 of the computed split. */
  lemma {:induction false} BalancedPartsAgree(s: seq<int>, q: seq<int>, total: int, n: nat)
    requires n > 0
    requires IsSplit(s, total, n) && IsBalanced(s) && IsNonIncreasing(s)
    requires IsSplit(q, total, n) && IsBalanced(q)
    ensures forall i :: 0 <= i < n ==> q[i] == s[n - 1] || q[i] == s[n - 1] + 1
  {
    var b := s[n - 1];
    if j :| 0 <= j < n && q[j] < b {
      // then every part of q is at most b and one is smaller: the total falls short
      TotalBelow(q, b, j);
      TotalAtLeast(s, b);
    } else if j :| 0 <= j < n && q[j] > b + 1 {
      // then every part of q is above b: the total exceeds that of s, whose last part is b
      TotalAtLeast(q, b + 1);
      TotalBelow(s, b + 1, n - 1);
    }
  }

  /** Among all integer splits the computed one has the smallest sum of squares, and the only
      splits that reach it are the balanced ones. */
  lemma {:induction false} BalancedMinimisesSquares(s: seq<int>, q: seq<int>, total: int, n: nat)
    requires n > 0
    requires IsSplit(s, total, n) && IsBalanced(s) && IsNonIncreasing(s)
    requires IsSplit(q, total, n)
    ensures SumOfSquares(s) <= SumOfSquares(q)
    ensures SumOfSquares(s) == SumOfSquares(q) <==> IsBalanced(q)
  {
    var b := s[n - 1];
    assert forall i :: 0 <= i < n ==> b <= s[i] <= b + 1;
    SquaresBound(s, b);
    SquaresBound(q, b);
    if IsBalanced(q) {
      BalancedPartsAgree(s, q, total, n);
    }
  }

  lemma {:induction false} TotalAbove(q: seq<int>, lo: int, j: nat)
    requires j < |q| && lo < q[j]
    requires forall i :: 0 <= i < |q| ==> lo <= q[i]
    ensures |q| * lo < Total(q)
  {
    var init := q[..|q| - 1];
    if j == |q| - 1 {
      TotalAtLeast(init, lo);
    } else {
      TotalAbove(init, lo, j);
    }
  }

  /** No split has a smaller largest part or a larger smallest part. */
  lemma {:induction false} BalancedMinimisesLargestPart(s: seq<int>, q: seq<int>, total: int, n: nat)
    requires n > 0
    requires IsSplit(s, total, n) && IsBalanced(s) && IsNonIncreasing(s)
    requires IsSplit(q, total, n)
    ensures exists i :: 0 <= i < n && q[i] >= s[0]
    ensures exists i :: 0 <= i < n && q[i] <= s[n - 1]
  {
    if forall i :: 0 <= i < n ==> q[i] < s[0] {
      TotalAtMost(q, s[0] - 1);
      TotalAbove(s, s[0] - 1, 0);
    }
    if forall i :: 0 <= i < n ==> q[i] > s[n - 1] {
      TotalBelow(s, s[n - 1] + 1, n - 1);
      TotalAtLeast(q, s[n - 1] + 1);
    }
  }

  /** How many leading parts exceed `b`, in a non-increasing list over {b, b + 1}. */
  function HighParts(q: seq<int>, b: int): (h: nat)
    requires IsNonIncreasing(q)
    requires forall i :: 0 <= i < |q| ==> q[i] == b || q[i] == b + 1
    ensures h <= |q|
    ensures forall k :: 0 <= k < h ==> q[k] == b + 1
    ensures forall k :: h <= k < |q| ==> q[k] == b
  {
    if q == [] || q[0] == b then 0 else
      var rest := q[1..];
      assert forall i, j :: 0 <= i < j < |rest| ==> rest[i] == q[i + 1] && rest[j] == q[j + 1];
      1 + HighParts(rest, b)
  }

  /** The contract of `CalculateSlices` leaves one possible answer. */
  lemma {:induction false} SlicesAreDetermined(s: seq<int>, t: seq<int>, total: int, n: nat)
    requires n > 0
    requires IsSplit(s, total, n) && IsBalanced(s) && IsNonIncreasing(s)
    requires IsSplit(t, total, n) && IsBalanced(t) && IsNonIncreasing(t)
    ensures s == t
  {
    BalancedPartsAgree(s, t, total, n);
    BalancedPartsAgree(t, s, total, n);
    assert s[n - 1] == t[n - 1];
    var b := s[n - 1];
    var h := HighParts(s, b);
    var k := HighParts(t, b);
    TwoLevelTotal(s, b, h);
    TwoLevelTotal(t, b, k);
  }
}
