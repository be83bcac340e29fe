/** Descriptive statistics over the replicate values of one CSV row and over
    the columns of the aggregated tables: sum, mean and median, plus the
    "skip missing values" variants pandas applies by default. */
module Stats {
  import opened Wrappers

  // ---------------------------------------------------------------------------
  // Sum and mean
  // ---------------------------------------------------------------------------

  function Sum(xs: seq<real>): real
  {
    if |xs| == 0 then 0.0 else xs[0] + Sum(xs[1..])
  }

  lemma {:induction false} SumConcat(a: seq<real>, b: seq<real>)
    ensures Sum(a + b) == Sum(a) + Sum(b)
  {
    if |a| == 0 {
      assert a + b == b;
    } else {
      assert (a + b)[1..] == a[1..] + b;
      SumConcat(a[1..], b);
    }
  }

  /** A sum of values that all lie in [lo, hi] lies in [n * lo, n * hi]. */
  lemma {:induction false} SumBounds(xs: seq<real>, lo: real, hi: real)
    requires forall i :: 0 <= i < |xs| ==> lo <= xs[i] <= hi
    ensures (|xs| as real) * lo <= Sum(xs) <= (|xs| as real) * hi
  {
    if |xs| > 0 {
      SumBounds(xs[1..], lo, hi);
    }
  }

  /** Arithmetic mean of one row; an empty row has none (pandas: NaN). */
  function Mean(xs: seq<real>): (r: Option<real>)
    ensures r.Some? <==> |xs| > 0
    ensures r.Some? ==> r.value * (|xs| as real) == Sum(xs)
  {
    if |xs| == 0 then None else Some(Sum(xs) / (|xs| as real))
  }

  /** The mean of values in [lo, hi] is in [lo, hi]. */
  lemma MeanBetween(xs: seq<real>, lo: real, hi: real)
    requires |xs| > 0
    requires forall i :: 0 <= i < |xs| ==> lo <= xs[i] <= hi
    ensures lo <= Mean(xs).value <= hi
  {
    SumBounds(xs, lo, hi);
    var n := |xs| as real;
    var m := Mean(xs).value;
    assert m * n == Sum(xs);
    assert (m - lo) * n >= 0.0;
    assert (hi - m) * n >= 0.0;
  }

  /** Replicates that all agree have that value as their mean. */
  lemma MeanOfConstant(xs: seq<real>, c: real)
    requires |xs| > 0
    requires forall i :: 0 <= i < |xs| ==> xs[i] == c
    ensures Mean(xs) == Some(c)
  {
    MeanBetween(xs, c, c);
  }

  // ---------------------------------------------------------------------------
  // Missing values
  // ---------------------------------------------------------------------------

  /** The values that are present, in order (pandas' skipna). */
  function Present(xs: seq<Option<real>>): (r: seq<real>)
    ensures |r| <= |xs|
    ensures forall i :: 0 <= i < |xs| && xs[i].Some? ==> xs[i].value in r
    ensures forall v :: v in r ==> Some(v) in xs
    ensures (forall i :: 0 <= i < |xs| ==> xs[i].Some?) ==> |r| == |xs|
  {
    if |xs| == 0 then []
    else (if xs[0].Some? then [xs[0].value] else []) + Present(xs[1..])
  }

  lemma {:induction false} PresentConcat(a: seq<Option<real>>, b: seq<Option<real>>)
    ensures Present(a + b) == Present(a) + Present(b)
  {
    if |a| == 0 {
      assert a + b == b;
    } else {
      var rest := a[1..];
      assert a == [a[0]] + rest;
      assert a + b == [a[0]] + (rest + b);
      PresentCons(a[0], rest);
      PresentCons(a[0], rest + b);
      PresentConcat(rest, b);
    }
  }

  lemma PresentCons(x: Option<real>, xs: seq<Option<real>>)
    ensures Present([x] + xs) == (if x.Some? then [x.value] else []) + Present(xs)
  {
    assert ([x] + xs)[1..] == xs;
  }

  /** With no value missing, skipping the missing values keeps them all. */
  lemma {:induction false} PresentOfSome(vs: seq<real>)
    ensures Present(seq(|vs|, i requires 0 <= i < |vs| => Some(vs[i]))) == vs
  {
    if |vs| > 0 {
      var xs := seq(|vs|, i requires 0 <= i < |vs| => Some(vs[i]));
      assert xs[1..] == seq(|vs[1..]|, i requires 0 <= i < |vs[1..]| => Some(vs[1..][i]));
      PresentOfSome(vs[1..]);
      assert vs == [vs[0]] + vs[1..];
    }
  }

  /** With every value missing, nothing is left. */
  lemma {:induction false} PresentOfNone(xs: seq<Option<real>>)
    requires forall i :: 0 <= i < |xs| ==> xs[i] == None
    ensures Present(xs) == []
  {
    if |xs| > 0 {
      PresentOfNone(xs[1..]);
    }
  }

  /** pandas' column sum: missing values are skipped, an all-missing column sums to 0. */
  function SumSkipNa(xs: seq<Option<real>>): real
  {
    Sum(Present(xs))
  }

  lemma SumSkipNaConcat(a: seq<Option<real>>, b: seq<Option<real>>)
    ensures SumSkipNa(a + b) == SumSkipNa(a) + SumSkipNa(b)
  {
    PresentConcat(a, b);
    SumConcat(Present(a), Present(b));
  }

  /** pandas' mean with skipna: missing values are skipped, none left gives NaN. */
  function MeanSkipNa(xs: seq<Option<real>>): Option<real>
  {
    Mean(Present(xs))
  }

  /** pandas' median with skipna. */
  function MedianSkipNa(xs: seq<Option<real>>): Option<real>
  {
    Median(Present(xs))
  }

  /** Element-wise addition of two aligned series: NaN if either side is NaN. */
  function AddOpt(a: Option<real>, b: Option<real>): (r: Option<real>)
    ensures r.Some? <==> a.Some? && b.Some?
    ensures r.Some? ==> r.value - a.value == b.value
  {
    if a.Some? && b.Some? then Some(a.value + b.value) else None
  }

  // ---------------------------------------------------------------------------
  // Sorting and the median
  // ---------------------------------------------------------------------------

  ghost predicate SortedAsc(s: seq<real>)
  {
    forall i, j :: 0 <= i < j < |s| ==> s[i] <= s[j]
  }

  function Insert(x: real, s: seq<real>): seq<real>
  {
    if |s| == 0 then [x]
    else if x <= s[0] then [x] + s
    else [s[0]] + Insert(x, s[1..])
  }

  /** Inserting into an ascending row keeps it ascending ... */
  lemma {:induction false} InsertSorted(x: real, s: seq<real>)
    requires SortedAsc(s)
    ensures SortedAsc(Insert(x, s))
    ensures |s| > 0 ==> Insert(x, s)[0] == x || Insert(x, s)[0] == s[0]
  {
    if |s| > 0 && x > s[0] {
      SortedTail(s);
      InsertSorted(x, s[1..]);
      var t := Insert(x, s[1..]);
      assert |s| > 1 ==> s[0] <= s[1];
      assert forall i :: 0 <= i < |t| ==> t[0] <= t[i];
      assert Insert(x, s) == [s[0]] + t;
    }
  }

  /** ... and adds exactly the one value. */
  lemma {:induction false} InsertAdds(x: real, s: seq<real>)
    ensures multiset(Insert(x, s)) == multiset(s) + multiset{x}
  {
    if |s| > 0 && x > s[0] {
      assert s == [s[0]] + s[1..];
      InsertAdds(x, s[1..]);
    }
  }

  function Sort(xs: seq<real>): (r: seq<real>)
    ensures SortedAsc(r)
    ensures multiset(r) == multiset(xs)
  {
    if |xs| == 0 then []
    else
      assert xs == [xs[0]] + xs[1..];
      InsertSorted(xs[0], Sort(xs[1..]));
      InsertAdds(xs[0], Sort(xs[1..]));
      Insert(xs[0], Sort(xs[1..]))
  }

  /** Two ascending sequences with the same elements are the same sequence. */
  lemma {:induction false} SortedUnique(a: seq<real>, b: seq<real>)
    requires SortedAsc(a) && SortedAsc(b)
    requires multiset(a) == multiset(b)
    ensures a == b
  {
    assert |a| == |multiset(a)| == |multiset(b)| == |b|;
    if |a| > 0 {
      var x, y := a[0], b[0];
      SortedHeadIsLeast(b, x);
      SortedHeadIsLeast(a, y);
      assert x == y;
      assert a == [x] + a[1..];
      assert b == [x] + b[1..];
      assert multiset(a[1..]) == multiset(a) - multiset{x};
      assert multiset(b[1..]) == multiset(b) - multiset{x};
      SortedTail(a);
      SortedTail(b);
      SortedUnique(a[1..], b[1..]);
    }
  }

  lemma SortedHeadIsLeast(s: seq<real>, x: real)
    requires SortedAsc(s) && x in multiset(s)
    ensures s[0] <= x
  {
    var j :| 0 <= j < |s| && s[j] == x;
  }

  lemma SortedTail(s: seq<real>)
    requires SortedAsc(s) && |s| > 0
    ensures SortedAsc(s[1..])
  {
  }

  /** Median of one row (middle element, or mean of the two middle elements);
      an empty row has none. */
  function Median(xs: seq<real>): (r: Option<real>)
    ensures r.Some? <==> |xs| > 0
  {
    if |xs| == 0 then None
    else
      var s := Sort(xs);
      assert |s| == |multiset(s)| == |xs|;
      Some(Middle(s))
  }

  /** The middle element of a sorted, non-empty row, or the mean of its two
      middle elements when the length is even. */
  function Middle(s: seq<real>): real
    requires |s| > 0
  {
    var n := |s|;
    if n % 2 == 1 then s[n / 2] else (s[n / 2 - 1] + s[n / 2]) / 2.0
  }

  /** Number of values at most (resp. at least) m. */
  function CountAtMost(xs: seq<real>, m: real): nat
  {
    if |xs| == 0 then 0 else (if xs[0] <= m then 1 else 0) + CountAtMost(xs[1..], m)
  }

  function CountAtLeast(xs: seq<real>, m: real): nat
  {
    if |xs| == 0 then 0 else (if xs[0] >= m then 1 else 0) + CountAtLeast(xs[1..], m)
  }

  lemma {:induction false} CountConcat(a: seq<real>, b: seq<real>, m: real)
    ensures CountAtMost(a + b, m) == CountAtMost(a, m) + CountAtMost(b, m)
    ensures CountAtLeast(a + b, m) == CountAtLeast(a, m) + CountAtLeast(b, m)
  {
    if |a| == 0 {
      assert a + b == b;
    } else {
      assert (a + b)[1..] == a[1..] + b;
      CountConcat(a[1..], b, m);
    }
  }

  /** Counting does not depend on the order of the values. */
  lemma {:induction false} CountPermutation(a: seq<real>, b: seq<real>, m: real)
    requires multiset(a) == multiset(b)
    ensures CountAtMost(a, m) == CountAtMost(b, m)
    ensures CountAtLeast(a, m) == CountAtLeast(b, m)
  {
    assert |a| == |multiset(a)| == |multiset(b)| == |b|;
    if |a| > 0 {
      var x := a[0];
      assert x in multiset(b);
      var k :| 0 <= k < |b| && b[k] == x;
      var rest := b[..k] + b[k + 1..];
      MultisetRemove(b, k);
      assert a == [x] + a[1..];
      assert multiset(a[1..]) == multiset(a) - multiset{x};
      CountPermutation(a[1..], rest, m);
      CountRemove(b, k, m);
    }
  }

  lemma MultisetRemove(b: seq<real>, k: nat)
    requires k < |b|
    ensures multiset(b[..k] + b[k + 1..]) == multiset(b) - multiset{b[k]}
  {
    assert b == b[..k] + [b[k]] + b[k + 1..];
  }

  /** Counting a row is counting one of its values and the rest. */
  lemma CountRemove(b: seq<real>, k: nat, m: real)
    requires k < |b|
    ensures CountAtMost(b, m) == CountAtMost([b[k]], m) + CountAtMost(b[..k] + b[k + 1..], m)
    ensures CountAtLeast(b, m) == CountAtLeast([b[k]], m) + CountAtLeast(b[..k] + b[k + 1..], m)
  {
    assert b == b[..k] + ([b[k]] + b[k + 1..]);
    CountConcat(b[..k], [b[k]] + b[k + 1..], m);
    CountConcat([b[k]], b[k + 1..], m);
    CountConcat(b[..k], b[k + 1..], m);
  }

  lemma {:induction false} CountAtMostPrefix(s: seq<real>, m: real, j: nat)
    requires j <= |s|
    requires forall i :: 0 <= i < j ==> s[i] <= m
    ensures CountAtMost(s, m) >= j
  {
    if j > 0 {
      CountAtMostPrefix(s[1..], m, j - 1);
    }
  }

  lemma {:induction false} CountAtLeastSuffix(s: seq<real>, m: real, j: nat)
    requires j <= |s|
    requires forall i :: j <= i < |s| ==> s[i] >= m
    ensures CountAtLeast(s, m) >= |s| - j
  {
    if |s| > 0 {
      if j > 0 {
        CountAtLeastSuffix(s[1..], m, j - 1);
      } else {
        CountAtLeastSuffix(s[1..], m, 0);
      }
    }
  }

  /** The defining property of a median: at least half of the values are at
      most it and at least half are at least it. */
  lemma MedianSplitsHalves(xs: seq<real>)
    requires |xs| > 0
    ensures 2 * CountAtMost(xs, Median(xs).value) >= |xs|
    ensures 2 * CountAtLeast(xs, Median(xs).value) >= |xs|
  {
    var s := Sort(xs);
    assert |s| == |multiset(s)| == |xs|;
    MiddleSplitsHalves(s);
    CountPermutation(s, xs, Middle(s));
  }

  lemma MiddleSplitsHalves(s: seq<real>)
    requires |s| > 0 && SortedAsc(s)
    ensures 2 * CountAtMost(s, Middle(s)) >= |s|
    ensures 2 * CountAtLeast(s, Middle(s)) >= |s|
  {
    var n := |s|;
    var m := Middle(s);
    if n % 2 == 1 {
      CountAtMostPrefix(s, m, n / 2 + 1);
      CountAtLeastSuffix(s, m, n / 2);
    } else {
      assert s[n / 2 - 1] <= m <= s[n / 2];
      CountAtMostPrefix(s, m, n / 2);
      CountAtLeastSuffix(s, m, n / 2);
    }
  }

  /** The median of values in [lo, hi] is in [lo, hi]. */
  lemma MedianBetween(xs: seq<real>, lo: real, hi: real)
    requires |xs| > 0
    requires forall i :: 0 <= i < |xs| ==> lo <= xs[i] <= hi
    ensures lo <= Median(xs).value <= hi
  {
    var s := Sort(xs);
    assert |s| == |multiset(s)| == |xs|;
    forall k | 0 <= k < |s|
      ensures lo <= s[k] <= hi
    {
      assert s[k] in multiset(xs);
    }
  }

  /** The median does not depend on the order of the values (pandas' groupby
      median does not depend on the order of the rows). */
  lemma MedianPermutation(a: seq<real>, b: seq<real>)
    requires multiset(a) == multiset(b)
    ensures Median(a) == Median(b)
  {
    SortedUnique(Sort(a), Sort(b));
  }
}
