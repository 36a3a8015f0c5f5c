/**
  Pixel arrays and the numeric helpers the pipeline applies to them:
  numpy's median (two middle values averaged for an even count), `np.clip(x, 0, None)`,
  element-wise division, and the sum/min/max/mean digest used by the integrity stamp.
  Pixels are exact reals; floating point rounding, NaN and infinities are not modelled.
*/
module Pixels {

  /** A pixel array, flattened in row-major order. Two arrays have the same shape when their lengths agree. */
  type Frame = seq<real>

  predicate Sorted(s: seq<real>) {
    forall i, j :: 0 <= i < j < |s| ==> s[i] <= s[j]
  }

  /** Inserts `x` into a sorted sequence, keeping it sorted. */
  function Insert(x: real, s: seq<real>): (r: seq<real>)
    requires Sorted(s)
    ensures |r| == |s| + 1
    ensures multiset(r) == multiset(s) + multiset{x}
    ensures Sorted(r)
  {
    if |s| == 0 then [x]
    else if x <= s[0] then [x] + s
    else
      var rest := Insert(x, s[1..]);
      assert s == [s[0]] + s[1..];
      BoundedByMultiset(s[0], rest, s[1..], x);
      SortedCons(s[0], rest);
      [s[0]] + rest
  }

  /** Every element of `t` plus `x` is at least `lo` when `x` and every element of `t` are. */
  lemma BoundedByMultiset(lo: real, r: seq<real>, t: seq<real>, x: real)
    requires multiset(r) == multiset(t) + multiset{x}
    requires lo <= x && forall i :: 0 <= i < |t| ==> lo <= t[i]
    ensures forall k :: 0 <= k < |r| ==> lo <= r[k]
  {
    forall k | 0 <= k < |r|
      ensures lo <= r[k]
    {
      assert r[k] in multiset(r);
      if r[k] != x {
        assert r[k] in multiset(t);
      }
    }
  }

  lemma SortedCons(a: real, r: seq<real>)
    requires Sorted(r) && forall k :: 0 <= k < |r| ==> a <= r[k]
    ensures Sorted([a] + r)
  {
  }

  /** Insertion sort: the ascending arrangement of the pixels of `xs`. */
  function Sort(xs: seq<real>): (r: seq<real>)
    ensures |r| == |xs|
    ensures Sorted(r)
    ensures multiset(r) == multiset(xs)
  {
    if |xs| == 0 then []
    else
      assert xs == [xs[0]] + xs[1..];
      Insert(xs[0], Sort(xs[1..]))
  }

  /** The median of a sorted sequence lies between its first and last element. */
  lemma MedianOfSortedBounds(s: seq<real>)
    requires |s| > 0 && Sorted(s)
    ensures s[0] <= MedianOfSorted(s) <= s[|s| - 1]
  {
  }

  /** Two sorted sequences holding the same multiset of values are equal. */
  lemma {:induction false} SortedUnique(a: seq<real>, b: seq<real>)
    requires Sorted(a) && Sorted(b)
    requires multiset(a) == multiset(b)
    ensures a == b
    decreases |a|
  {
    assert |a| == |multiset(a)| == |multiset(b)| == |b|;
    if |a| > 0 {
      SortedHeads(a, b);
      SortedHeads(b, a);
      assert a == [a[0]] + a[1..];
      assert b == [b[0]] + b[1..];
      assert multiset(a[1..]) == multiset(a) - multiset{a[0]};
      assert multiset(b[1..]) == multiset(b) - multiset{b[0]};
      SortedUnique(a[1..], b[1..]);
    }
  }

  /** The head of a sorted sequence is no larger than any value of a rearrangement of it. */
  lemma SortedHeads(a: seq<real>, b: seq<real>)
    requires Sorted(a) && |a| > 0 && |b| > 0 && multiset(a) == multiset(b)
    ensures a[0] <= b[0]
  {
    assert b[0] in multiset(a);
  }

  /** The median of an already sorted, non-empty sequence. */
  function MedianOfSorted(s: seq<real>): real
    requires |s| > 0
  {
    if |s| % 2 == 1 then s[|s| / 2] else (s[|s| / 2 - 1] + s[|s| / 2]) / 2.0
  }

  /**
    `np.median`: the middle value of the sorted pixels, or the mean of the two middle values when
    the count is even. It lies between the smallest and the largest pixel.
  */
  function Median(xs: Frame): (m: real)
    requires |xs| > 0
    ensures exists i :: 0 <= i < |xs| && xs[i] <= m
    ensures exists j :: 0 <= j < |xs| && m <= xs[j]
  {
    var s := Sort(xs);
    MedianOfSortedBounds(s);
    assert s[0] in multiset(xs) && s[|s| - 1] in multiset(xs);
    MedianOfSorted(s)
  }

  /** The median depends only on the multiset of pixel values, not on their order. */
  lemma {:induction false} MedianPermutation(xs: Frame, ys: Frame)
    requires |xs| > 0
    requires multiset(xs) == multiset(ys)
    ensures |ys| > 0
    ensures Median(xs) == Median(ys)
  {
    assert |xs| == |multiset(xs)| == |multiset(ys)| == |ys|;
    SortedUnique(Sort(xs), Sort(ys));
  }

  /** Element-wise division by a scalar, numpy's `data / m`. */
  function DivideBy(xs: Frame, m: real): (r: Frame)
    requires m != 0.0
    ensures |r| == |xs|
    ensures forall i :: 0 <= i < |xs| ==> r[i] == xs[i] / m
  {
    seq(|xs|, i requires 0 <= i < |xs| => xs[i] / m)
  }

  function Reverse(s: seq<real>): (r: seq<real>)
    ensures |r| == |s|
    ensures forall i :: 0 <= i < |s| ==> r[i] == s[|s| - 1 - i]
  {
    seq(|s|, i requires 0 <= i < |s| => s[|s| - 1 - i])
  }

  lemma ReverseCons(s: seq<real>)
    requires |s| > 0
    ensures Reverse(s) == Reverse(s[1..]) + [s[0]]
  {
  }

  lemma {:induction false} ReverseMultiset(s: seq<real>)
    ensures multiset(Reverse(s)) == multiset(s)
  {
    if |s| > 0 {
      assert s == [s[0]] + s[1..];
      ReverseCons(s);
      ReverseMultiset(s[1..]);
    }
  }

  lemma MeanOfQuotients(a: real, b: real, m: real)
    requires m != 0.0
    ensures (a / m + b / m) / 2.0 == ((a + b) / 2.0) / m
  {
  }

  lemma SelfQuotient(m: real)
    requires m != 0.0
    ensures m / m == 1.0
  {
  }

  lemma DivideMonotone(x: real, y: real, m: real)
    requires x <= y && m != 0.0
    ensures m > 0.0 ==> x / m <= y / m
    ensures m < 0.0 ==> y / m <= x / m
  {
    var a, b := x / m, y / m;
    assert a * m == x && b * m == y;
    if m > 0.0 && a > b {
      assert (a - b) * m > 0.0;
    }
    if m < 0.0 && b > a {
      assert (b - a) * m < 0.0;
    }
  }

  lemma DivideCons(x: real, s: seq<real>, m: real)
    requires m != 0.0
    ensures DivideBy([x] + s, m) == [x / m] + DivideBy(s, m)
  {
    assert ([x] + s)[1..] == s;
  }

  /** `x / m` is `y` exactly when `x` is `y * m`. */
  lemma QuotientIs(x: real, m: real, y: real)
    requires m != 0.0
    ensures x / m == y <==> x == y * m
  {
  }

  /** Dividing by `m` turns every occurrence of `y * m` into one of `y`, and makes no others. */
  lemma {:induction false} DivideCount(a: seq<real>, m: real, y: real)
    requires m != 0.0
    ensures multiset(DivideBy(a, m))[y] == multiset(a)[y * m]
    decreases |a|
  {
    if |a| > 0 {
      DivideCount(a[1..], m, y);
      assert a == [a[0]] + a[1..];
      DivideCons(a[0], a[1..], m);
      QuotientIs(a[0], m, y);
    }
  }

  /** Pixel-wise division maps rearrangements to rearrangements. */
  lemma DivideKeepsMultiset(a: seq<real>, b: seq<real>, m: real)
    requires m != 0.0 && multiset(a) == multiset(b)
    ensures multiset(DivideBy(a, m)) == multiset(DivideBy(b, m))
  {
    forall y
      ensures multiset(DivideBy(a, m))[y] == multiset(DivideBy(b, m))[y]
    {
      DivideCount(a, m, y);
      DivideCount(b, m, y);
    }
  }

  lemma DivideSorted(s: seq<real>, m: real)
    requires Sorted(s) && m != 0.0
    ensures m > 0.0 ==> Sorted(DivideBy(s, m))
    ensures m < 0.0 ==> Sorted(Reverse(DivideBy(s, m)))
  {
    var d := DivideBy(s, m);
    forall i, j | 0 <= i < j < |s|
      ensures m > 0.0 ==> d[i] <= d[j]
      ensures m < 0.0 ==> d[j] <= d[i]
    {
      DivideMonotone(s[i], s[j], m);
      assert d[i] == s[i] / m && d[j] == s[j] / m;
    }
    if m < 0.0 {
      var r := Reverse(d);
      forall i, j | 0 <= i < j < |r| ensures r[i] <= r[j] {
        assert r[i] == d[|d| - 1 - i] && r[j] == d[|d| - 1 - j];
      }
    }
  }

  lemma MedianOfReverse(s: seq<real>)
    requires |s| > 0
    ensures MedianOfSorted(Reverse(s)) == MedianOfSorted(s)
  {
    var n := |s|;
    var k := n / 2;
    if n % 2 == 1 {
      ReverseAt(s, k, k);
    } else {
      ReverseAt(s, k - 1, k);
      ReverseAt(s, k, k - 1);
    }
  }

  lemma ReverseAt(s: seq<real>, i: nat, j: nat)
    requires i < |s| && i + j == |s| - 1
    ensures Reverse(s)[i] == s[j]
  {
  }

  lemma MedianOfSortedDivide(s: seq<real>, m: real)
    requires |s| > 0 && m != 0.0
    ensures MedianOfSorted(DivideBy(s, m)) == MedianOfSorted(s) / m
  {
    var d := DivideBy(s, m);
    var k := |s| / 2;
    if |s| % 2 == 0 {
      MeanOfQuotients(s[k - 1], s[k], m);
    }
  }

  /** Dividing every pixel by a nonzero scalar divides the median by the same scalar, whatever its sign. */
  lemma {:induction false} MedianDivide(xs: Frame, m: real)
    requires |xs| > 0 && m != 0.0
    ensures Median(DivideBy(xs, m)) == Median(xs) / m
  {
    var s := Sort(xs);
    var d := DivideBy(s, m);
    DivideKeepsMultiset(s, xs, m);
    DivideSorted(s, m);
    MedianOfSortedDivide(s, m);
    if m > 0.0 {
      SortedUnique(d, Sort(DivideBy(xs, m)));
    } else {
      ReverseMultiset(d);
      SortedUnique(Reverse(d), Sort(DivideBy(xs, m)));
      MedianOfReverse(d);
    }
  }

  /** Normalising by the own median (when nonzero) gives an array whose median is exactly 1. */
  lemma NormalisedMedianIsOne(xs: Frame)
    requires |xs| > 0 && Median(xs) != 0.0
    ensures Median(DivideBy(xs, Median(xs))) == 1.0
  {
    MedianDivide(xs, Median(xs));
    SelfQuotient(Median(xs));
  }

  /** `np.clip(x, 0, None)` on one pixel. */
  function ClipPixel(x: real): real {
    if x < 0.0 then 0.0 else x
  }

  /**
    `np.clip(data, 0, None)`: negative pixels become 0, every other pixel is kept,
    and the shape is preserved.
  */
  function Clip(xs: Frame): (r: Frame)
    ensures |r| == |xs|
    ensures forall i :: 0 <= i < |r| ==> r[i] >= 0.0
    ensures forall i :: 0 <= i < |xs| && xs[i] >= 0.0 ==> r[i] == xs[i]
    ensures forall i :: 0 <= i < |xs| && xs[i] < 0.0 ==> r[i] == 0.0
  {
    seq(|xs|, i requires 0 <= i < |xs| => ClipPixel(xs[i]))
  }

  /** Clipping twice is the same as clipping once. */
  lemma ClipIdempotent(xs: Frame)
    ensures Clip(Clip(xs)) == Clip(xs)
  {
  }

  function Sum(xs: Frame): real {
    if |xs| == 0 then 0.0 else xs[0] + Sum(xs[1..])
  }

  /** `np.min`: the smallest pixel; numpy raises on an empty array, hence the precondition. */
  function Min(xs: Frame): (m: real)
    requires |xs| > 0
    ensures forall i :: 0 <= i < |xs| ==> m <= xs[i]
    ensures exists i :: 0 <= i < |xs| && m == xs[i]
  {
    if |xs| == 1 then xs[0]
    else
      var rest := Min(xs[1..]);
      if xs[0] <= rest then xs[0] else rest
  }

  /** `np.max`: the largest pixel. */
  function Max(xs: Frame): (m: real)
    requires |xs| > 0
    ensures forall i :: 0 <= i < |xs| ==> xs[i] <= m
    ensures exists i :: 0 <= i < |xs| && m == xs[i]
  {
    if |xs| == 1 then xs[0]
    else
      var rest := Max(xs[1..]);
      if xs[0] >= rest then xs[0] else rest
  }

  /** `np.mean`: the sum divided by the count; it lies between the minimum and the maximum. */
  function Mean(xs: Frame): (m: real)
    requires |xs| > 0
    ensures Min(xs) <= m <= Max(xs)
  {
    MeanAtLeast(xs, Min(xs));
    MeanAtMost(xs, Max(xs));
    Sum(xs) / (|xs| as real)
  }

  /** The mean is at least any lower bound of the pixels. */
  lemma MeanAtLeast(xs: Frame, lo: real)
    requires |xs| > 0 && forall i :: 0 <= i < |xs| ==> lo <= xs[i]
    ensures lo <= Sum(xs) / (|xs| as real)
  {
    SumAtLeast(xs, lo);
    QuotientAtLeast(Sum(xs), |xs| as real, lo);
  }

  /** The mean is at most any upper bound of the pixels. */
  lemma MeanAtMost(xs: Frame, hi: real)
    requires |xs| > 0 && forall i :: 0 <= i < |xs| ==> xs[i] <= hi
    ensures Sum(xs) / (|xs| as real) <= hi
  {
    SumAtMost(xs, hi);
    QuotientAtMost(Sum(xs), |xs| as real, hi);
  }

  lemma QuotientAtLeast(s: real, n: real, lo: real)
    requires n > 0.0 && n * lo <= s
    ensures lo <= s / n
  {
  }

  lemma QuotientAtMost(s: real, n: real, hi: real)
    requires n > 0.0 && s <= n * hi
    ensures s / n <= hi
  {
  }

  lemma {:induction false} SumAtLeast(xs: Frame, lo: real)
    requires forall i :: 0 <= i < |xs| ==> lo <= xs[i]
    ensures (|xs| as real) * lo <= Sum(xs)
  {
    if |xs| > 0 {
      SumAtLeast(xs[1..], lo);
    }
  }

  lemma {:induction false} SumAtMost(xs: Frame, hi: real)
    requires forall i :: 0 <= i < |xs| ==> xs[i] <= hi
    ensures Sum(xs) <= (|xs| as real) * hi
  {
    if |xs| > 0 {
      SumAtMost(xs[1..], hi);
    }
  }
}
