/** The statistics kit: mean, median and min/max/avg/median summaries over
    a list of numbers, each absent for an empty list (src/utils/math.ts).
    Numbers are exact reals; JavaScript's `Math.round` is `Floor(x + 0.5)`. */
module Stats {
  import opened Wrappers

  /** Left-to-right sum, the `reduce((sum, v) => sum + v, 0)` of the source. */
  function Sum(s: seq<real>): real {
    if |s| == 0 then 0.0 else Sum(s[..|s| - 1]) + s[|s| - 1]
  }

  /** Smallest element (`Math.min(...values)`). */
  function Min(s: seq<real>): (m: real)
    requires |s| > 0
    ensures m in s
    ensures forall x | x in s :: m <= x
  {
    if |s| == 1 then s[0]
    else
      var rest := Min(s[1..]);
      assert forall x | x in s :: x == s[0] || x in s[1..];
      if s[0] <= rest then s[0] else rest
  }

  /** Largest element (`Math.max(...values)`). */
  function Max(s: seq<real>): (m: real)
    requires |s| > 0
    ensures m in s
    ensures forall x | x in s :: x <= m
  {
    if |s| == 1 then s[0]
    else
      var rest := Max(s[1..]);
      assert forall x | x in s :: x == s[0] || x in s[1..];
      if rest <= s[0] then s[0] else rest
  }

  ghost predicate Sorted(s: seq<real>) {
    forall i, j | 0 <= i < j < |s| :: s[i] <= s[j]
  }

  /** Places `x` in front of the first element not smaller than it. */
  function Insert(x: real, s: seq<real>): (r: seq<real>)
    requires Sorted(s)
    ensures Sorted(r)
    ensures multiset(r) == multiset(s) + multiset{x}
  {
    if |s| == 0 then [x]
    else if x <= s[0] then [x] + s
    else
      var tail := Insert(x, s[1..]);
      assert s == [s[0]] + s[1..];
      LowerBoundOfInsert(s[0], x, s[1..], tail);
      [s[0]] + tail
  }

  /** A lower bound of `x` and of every element of `s` bounds every element
      of the list obtained by inserting `x` into `s`. */
  lemma LowerBoundOfInsert(lo: real, x: real, s: seq<real>, r: seq<real>)
    requires lo <= x
    requires forall i | 0 <= i < |s| :: lo <= s[i]
    requires multiset(r) == multiset(s) + multiset{x}
    ensures forall i | 0 <= i < |r| :: lo <= r[i]
  {
    forall i | 0 <= i < |r|
      ensures lo <= r[i]
    {
      assert r[i] in multiset(r);
      if r[i] != x {
        assert r[i] in multiset(s);
      }
    }
  }

  /** Ascending numeric sort (`[...values].sort((a, b) => a - b)`).  The
      sorted permutation of a list is unique (`SortedUnique`), so the choice
      of algorithm does not show in any result. */
  function Sort(s: seq<real>): (r: seq<real>)
    ensures Sorted(r)
    ensures multiset(r) == multiset(s)
  {
    if |s| == 0 then []
    else
      assert s == [s[0]] + s[1..];
      Insert(s[0], Sort(s[1..]))
  }

  /** Two sorted lists holding the same values are the same list. */
  lemma {:induction false} SortedUnique(a: seq<real>, b: seq<real>)
    requires Sorted(a) && Sorted(b)
    requires multiset(a) == multiset(b)
    ensures a == b
  {
    if |a| == 0 {
      assert |multiset(b)| == 0;
    } else {
      assert |b| == |multiset(b)| == |multiset(a)| == |a|;
      HeadIsLeast(a, b);
      HeadIsLeast(b, a);
      assert a == [a[0]] + a[1..] && b == [b[0]] + b[1..];
      assert multiset(a[1..]) == multiset(a) - multiset{a[0]};
      assert multiset(b[1..]) == multiset(b) - multiset{b[0]};
      SortedUnique(a[1..], b[1..]);
    }
  }

  /** The head of a non-empty sorted list is no larger than any element of
      a list holding the same values. */
  lemma HeadIsLeast(a: seq<real>, b: seq<real>)
    requires Sorted(b) && |a| > 0 && |b| > 0
    requires multiset(a) == multiset(b)
    ensures b[0] <= a[0]
  {
    assert a[0] in multiset(b);
    var i :| 0 <= i < |b| && b[i] == a[0];
  }

  /** A sorted list sorts to itself. */
  lemma SortOfSorted(s: seq<real>)
    requires Sorted(s)
    ensures Sort(s) == s
  {
    SortedUnique(Sort(s), s);
  }

  /** Median: the middle element of the sorted list for odd lengths, the mean
      of the two middle elements for even lengths, absent for an empty list. */
  function Median(s: seq<real>): (r: Option<real>)
    ensures r.None? <==> |s| == 0
    ensures |s| == 1 ==> r == Some(s[0])
    ensures r.Some? ==> Min(s) <= r.value <= Max(s)
  {
    if |s| == 0 then None
    else
      var sorted := Sort(s);
      SortStaysWithin(s);
      MiddleWithin(sorted, Min(s), Max(s));
      Middle(sorted)
  }

  /** Sorting a non-empty list keeps its length and its range, and leaves
      a one-element list alone. */
  lemma SortStaysWithin(s: seq<real>)
    requires |s| > 0
    ensures |Sort(s)| == |s|
    ensures forall i | 0 <= i < |Sort(s)| :: Min(s) <= Sort(s)[i] <= Max(s)
    ensures |s| == 1 ==> Sort(s) == s
  {
    PermutationWithin(Sort(s), s);
    if |s| == 1 {
      assert Sorted(s);
      SortOfSorted(s);
    }
  }

  /** A rearrangement of a non-empty list has its length, and every element
      of it lies between the list's smallest and largest. */
  lemma PermutationWithin(t: seq<real>, s: seq<real>)
    requires |s| > 0 && multiset(t) == multiset(s)
    ensures |t| == |s|
    ensures forall i | 0 <= i < |t| :: Min(s) <= t[i] <= Max(s)
  {
    assert |t| == |multiset(t)| == |s|;
    forall i | 0 <= i < |t|
      ensures Min(s) <= t[i] <= Max(s)
    {
      assert t[i] in multiset(s);
      assert t[i] in s;
    }
  }

  /** The middle element of a non-empty list, or the mean of its two middle
      elements when the length is even. */
  function Middle(t: seq<real>): (r: Option<real>)
    requires |t| > 0
    ensures r.Some?
    ensures |t| == 1 ==> r == Some(t[0])
  {
    var mid := |t| / 2;
    if |t| % 2 == 0 then Some((t[mid - 1] + t[mid]) / 2.0) else Some(t[mid])
  }

  /** The middle of a list whose elements lie in a range lies in it too. */
  lemma MiddleWithin(t: seq<real>, lo: real, hi: real)
    requires |t| > 0
    requires forall i | 0 <= i < |t| :: lo <= t[i] <= hi
    ensures lo <= Middle(t).value <= hi
  {
    var mid := |t| / 2;
    if |t| % 2 == 0 {
      assert lo <= t[mid - 1] <= hi && lo <= t[mid] <= hi;
    }
  }

  /** On a sorted list the median reads the middle position(s) directly. */
  lemma MedianOfSorted(s: seq<real>)
    requires Sorted(s) && |s| > 0
    ensures |s| % 2 == 1 ==> Median(s) == Some(s[|s| / 2])
    ensures |s| % 2 == 0 ==> Median(s) == Some((s[|s| / 2 - 1] + s[|s| / 2]) / 2.0)
  {
    SortOfSorted(s);
  }

  /** The median does not depend on the order of its input. */
  lemma MedianPermutationInvariant(a: seq<real>, b: seq<real>)
    requires multiset(a) == multiset(b)
    ensures Median(a) == Median(b)
  {
    assert |a| == |multiset(a)| == |multiset(b)| == |b|;
    if |a| > 0 {
      var sa, sb := Sort(a), Sort(b);
      SortedUnique(sa, sb);
      assert Median(a) == Middle(sa);
      assert Median(b) == Middle(sb);
    }
  }

  lemma MedianOddExample(s: seq<real>)
    requires |s| == 3 && s[0] == 1.0 && s[1] == 3.0 && s[2] == 5.0
    ensures Median(s) == Some(3.0)
  {
    assert Sorted(s);
    MedianOfSorted(s);
  }

  lemma MedianEvenExample(s: seq<real>)
    requires |s| == 4 && s[0] == 1.0 && s[1] == 2.0 && s[2] == 3.0 && s[3] == 4.0
    ensures Median(s) == Some(2.5)
  {
    assert Sorted(s);
    MedianOfSorted(s);
  }

  lemma MedianUnsortedExample(s: seq<real>)
    requires |s| == 3 && s[0] == 5.0 && s[1] == 1.0 && s[2] == 3.0
    ensures Median(s) == Some(3.0)
  {
    var t := [s[1], s[2], s[0]];
    assert s == [s[0], s[1], s[2]];
    assert multiset(s) == multiset(t);
    MedianPermutationInvariant(s, t);
    MedianOddExample(t);
  }

  /** Every element at least `lo` puts the sum at least `|s| * lo`, and
      every element at most `hi` puts it at most `|s| * hi`. */
  lemma {:induction false} SumBounds(s: seq<real>, lo: real, hi: real)
    requires forall x | x in s :: lo <= x <= hi
    ensures |s| as real * lo <= Sum(s) <= |s| as real * hi
  {
    if |s| > 0 {
      var init, last := s[..|s| - 1], s[|s| - 1];
      assert forall x | x in init :: x in s;
      SumBounds(init, lo, hi);
      assert last in s && Sum(s) == Sum(init) + last;
      var k := |init| as real;
      assert |s| as real * lo == k * lo + lo && |s| as real * hi == k * hi + hi;
    }
  }

  /** A total between `n * lo` and `n * hi`, shared out `n` ways, gives a
      share between `lo` and `hi`. */
  lemma QuotientBounds(total: real, n: real, lo: real, hi: real)
    requires n > 0.0 && n * lo <= total <= n * hi
    ensures lo <= total / n <= hi
  {
  }

  /** Arithmetic mean, absent for an empty list; it lies between the
      smallest and the largest element. */
  function Average(s: seq<real>): (r: Option<real>)
    ensures r.None? <==> |s| == 0
    ensures r.Some? ==> Min(s) <= r.value <= Max(s)
  {
    if |s| == 0 then None
    else
      SumBounds(s, Min(s), Max(s));
      QuotientBounds(Sum(s), |s| as real, Min(s), Max(s));
      Some(Sum(s) / |s| as real)
  }

  /** The mean is the left-to-right sum shared out over the elements: it
      is present, and multiplied by the length it gives back the sum. */
  lemma AverageIsSumOverLength(s: seq<real>)
    requires |s| > 0
    ensures Average(s).Some?
    ensures Average(s).value * (|s| as real) == Sum(s)
  {
    AverageTimesLength(s, |s| as real);
  }

  /** `AverageIsSumOverLength` with the length already converted to a real;
      the steps are kept apart so that the solver never multiplies an
      integer conversion by a real. */
  lemma AverageTimesLength(s: seq<real>, n: real)
    requires |s| > 0 && n == |s| as real
    ensures Average(s).Some?
    ensures Average(s).value * n == Sum(s)
  {
    MeanTimesLength(s, n, Average(s).value);
  }

  lemma MeanTimesLength(s: seq<real>, n: real, q: real)
    requires |s| > 0 && n == |s| as real && Average(s) == Some(q)
    ensures q * n == Sum(s)
  {
    AverageIsQuotient(s, n);
    DivisionMultipliesBack(q, Sum(s), n);
  }

  lemma AverageIsQuotient(s: seq<real>, n: real)
    requires |s| > 0 && n == |s| as real
    ensures Average(s).Some? && Average(s).value == Sum(s) / n
  {
  }

  /** A quotient multiplied by its divisor gives the dividend. */
  lemma DivisionMultipliesBack(q: real, x: real, n: real)
    requires n != 0.0 && q == x / n
    ensures q * n == x
  {
  }

  /** JavaScript's `Math.round`: the nearest integer, halves rounded up. */
  function Round(x: real): (r: int)
    ensures r as real - 0.5 <= x < r as real + 0.5
  {
    (x + 0.5).Floor
  }

  /** `Math.round(x * 100) / 100`: rounding to two decimal places. */
  function Round2(x: real): (r: real)
    ensures x - 0.005 < r <= x + 0.005
    ensures (r * 100.0).Floor as real == r * 100.0
  {
    Round(x * 100.0) as real / 100.0
  }

  /** `Math.round(x * 1000) / 1000`: rounding to three decimal places. */
  function Round3(x: real): (r: real)
    ensures x - 0.0005 < r <= x + 0.0005
    ensures (r * 1000.0).Floor as real == r * 1000.0
  {
    Round(x * 1000.0) as real / 1000.0
  }

  /** Rounding never reverses the order of two values. */
  lemma RoundMonotone(x: real, y: real)
    requires x <= y
    ensures Round(x) <= Round(y)
  {
  }

  /** Rounding leaves a whole number unchanged. */
  lemma RoundOfInteger(n: int)
    ensures Round(n as real) == n
  {
  }

  datatype NumericStats = NumericStats(min: real, max: real, avg: real, median: real)

  /** `computeStats`: exact min and max, average and median rounded to two
      decimals; absent for an empty list. */
  function ComputeStats(s: seq<real>): (r: Option<NumericStats>)
    ensures r.None? <==> |s| == 0
    ensures r.Some? ==> r.value.min in s && r.value.max in s
    ensures r.Some? ==> forall x | x in s :: r.value.min <= x <= r.value.max
    ensures r.Some? ==> r.value.avg == Round2(Average(s).value)
    ensures r.Some? ==> r.value.median == Round2(Median(s).value)
  {
    if |s| == 0 then None
    else
      Some(NumericStats(Min(s), Max(s), Round2(Average(s).value), Round2(Median(s).value)))
  }

  /** The rounded average and median stay within half a cent of values that
      lie between the minimum and the maximum. */
  lemma StatsWithinRange(s: seq<real>)
    requires |s| > 0
    ensures var st := ComputeStats(s).value;
            && st.min - 0.005 < st.avg <= st.max + 0.005
            && st.min - 0.005 < st.median <= st.max + 0.005
  {
  }

  /** A one-element list: min and max are the element, average and median
      are its two-decimal rounding, and all four agree when the element has
      at most two decimals. */
  lemma SingletonStats(x: real)
    ensures ComputeStats([x]) == Some(NumericStats(x, x, Round2(x), Round2(x)))
    ensures (x * 100.0).Floor as real == x * 100.0 ==>
              ComputeStats([x]) == Some(NumericStats(x, x, x, x))
  {
    assert Sum([x]) == x by {
      assert [x][..0] == [];
    }
    if (x * 100.0).Floor as real == x * 100.0 {
      RoundOfInteger((x * 100.0).Floor);
    }
  }
}
