/**
 The one-sided bootstrap bound over the reals, for any fixed table of draws.

 `draws` stands for the seeded generator: one row per resample, one position per draw.
 */
module BootstrapBound {
  import opened Prelude

  const RESAMPLES: nat := 10000
  const MINIMUM_QUERIES: nat := 20

  datatype Fault = TooFewQueries

  ghost predicate Table(draws: seq<seq<nat>>, count: nat) {
    && |draws| == RESAMPLES
    && forall r :: 0 <= r < |draws| ==> |draws[r]| == count && forall i :: 0 <= i < |draws[r]| ==> draws[r][i] < count
  }

  function Total(values: seq<real>, row: seq<nat>): real
    requires forall i :: 0 <= i < |row| ==> row[i] < |values|
  {
    if row == [] then 0.0 else values[row[0]] + Total(values, row[1..])
  }

  function Mean(values: seq<real>, row: seq<nat>): real
    requires |row| > 0 && forall i :: 0 <= i < |row| ==> row[i] < |values|
  {
    Total(values, row) / (|row| as real)
  }

  function Insert(x: real, s: seq<real>): (r: seq<real>)
    ensures |r| == |s| + 1
  {
    if s == [] || x <= s[0] then [x] + s else [s[0]] + Insert(x, s[1..])
  }

  /** `list.sort`. */
  function Sorted(s: seq<real>): (r: seq<real>)
    ensures |r| == |s|
  {
    if s == [] then [] else Insert(s[0], Sorted(s[1..]))
  }

  function Means(values: seq<real>, draws: seq<seq<nat>>): seq<real>
    requires |values| > 0
    requires forall r :: 0 <= r < |draws| ==>
               |draws[r]| == |values| && forall i :: 0 <= i < |draws[r]| ==> draws[r][i] < |values|
  {
    seq(|draws|, r requires 0 <= r < |draws| => Mean(values, draws[r]))
  }

  /** `_bootstrap_lcb`: the mean at position `int(0.05 * 9999)` of the sorted resample means. */
  function Bound(values: seq<real>, draws: seq<seq<nat>>): Result<real, Fault>
    requires Table(draws, |values|)
  {
    if |values| < MINIMUM_QUERIES then Err(TooFewQueries)
    else Ok(Sorted(Means(values, draws))[(0.05 * ((|draws| - 1) as real)).Floor])
  }

  // ----- order statistics, by counting -----

  function AtMost(s: seq<real>, x: real): nat {
    if s == [] then 0 else (if s[0] <= x then 1 else 0) + AtMost(s[1..], x)
  }

  predicate Ordered(s: seq<real>) { forall i, j :: 0 <= i < j < |s| ==> s[i] <= s[j] }

  lemma {:induction false} InsertOrdered(x: real, s: seq<real>)
    requires Ordered(s)
    ensures Ordered(Insert(x, s))
    ensures forall i :: 0 <= i < |Insert(x, s)| ==> Insert(x, s)[i] == x || Insert(x, s)[i] in s
  {
    if s != [] && x > s[0] {
      InsertOrdered(x, s[1..]);
      var rest := Insert(x, s[1..]);
      forall i | 0 <= i < |rest| ensures s[0] <= rest[i] {
        if rest[i] != x {
          var j :| 0 <= j < |s[1..]| && s[1..][j] == rest[i];
          assert s[1..][j] == s[j + 1];
        }
      }
    }
  }

  lemma {:induction false} InsertCounts(x: real, s: seq<real>, y: real)
    ensures AtMost(Insert(x, s), y) == AtMost(s, y) + if x <= y then 1 else 0
  {
    if s == [] || x <= s[0] {
      assert ([x] + s)[1..] == s;
    } else {
      InsertCounts(x, s[1..], y);
      assert ([s[0]] + Insert(x, s[1..]))[1..] == Insert(x, s[1..]);
    }
  }

  lemma {:induction false} SortedIs(s: seq<real>, y: real)
    ensures Ordered(Sorted(s)) && AtMost(Sorted(s), y) == AtMost(s, y)
  {
    if s != [] {
      SortedIs(s[1..], y);
      InsertOrdered(s[0], Sorted(s[1..]));
      InsertCounts(s[0], Sorted(s[1..]), y);
    }
  }

  /** In an ordered list the element at `k` is at most `x` exactly when more than `k` elements are. */
  lemma {:induction false} OrderedRank(s: seq<real>, k: nat, x: real)
    requires Ordered(s) && k < |s|
    ensures s[k] <= x <==> AtMost(s, x) > k
    ensures AtMost(s, x) <= |s|
  {
    if s[0] > x {
      NoneAtMost(s, x);
      if k > 0 { assert s[0] <= s[k]; }
    } else if k > 0 {
      OrderedRank(s[1..], k - 1, x);
    } else if |s| > 1 {
      OrderedRank(s[1..], 0, x);
    }
  }

  lemma {:induction false} NoneAtMost(s: seq<real>, x: real)
    requires forall i :: 0 <= i < |s| ==> s[i] > x
    ensures AtMost(s, x) == 0
  {
    if s != [] { NoneAtMost(s[1..], x); }
  }

  predicate Below(a: seq<real>, b: seq<real>) {
    |a| == |b| && forall i :: 0 <= i < |a| ==> a[i] <= b[i]
  }

  lemma {:induction false} BelowCounts(a: seq<real>, b: seq<real>, x: real)
    requires Below(a, b)
    ensures AtMost(a, x) >= AtMost(b, x)
  {
    if a != [] {
      assert Below(a[1..], b[1..]);
      BelowCounts(a[1..], b[1..], x);
    }
  }

  /** Sorting keeps the pointwise order of two lists. */
  lemma {:induction false} SortingIsMonotone(a: seq<real>, b: seq<real>)
    requires Below(a, b)
    ensures Below(Sorted(a), Sorted(b))
  {
    forall k | 0 <= k < |a| ensures Sorted(a)[k] <= Sorted(b)[k] {
      var x := Sorted(b)[k];
      SortedIs(a, x);
      SortedIs(b, x);
      OrderedRank(Sorted(b), k, x);
      BelowCounts(a, b, x);
      OrderedRank(Sorted(a), k, x);
    }
  }

  // ----- means -----

  lemma {:induction false} TotalMonotone(a: seq<real>, b: seq<real>, row: seq<nat>)
    requires Below(a, b) && forall i :: 0 <= i < |row| ==> row[i] < |a|
    ensures Total(a, row) <= Total(b, row)
  {
    if row != [] { TotalMonotone(a, b, row[1..]); }
  }

  function Shifted(values: seq<real>, c: real): seq<real> {
    seq(|values|, i requires 0 <= i < |values| => values[i] + c)
  }

  lemma {:induction false} TotalShifts(values: seq<real>, c: real, row: seq<nat>)
    requires forall i :: 0 <= i < |row| ==> row[i] < |values|
    ensures Total(Shifted(values, c), row) == Total(values, row) + (|row| as real) * c
  {
    if row != [] {
      TotalShifts(values, c, row[1..]);
      assert (|row| as real) == (|row[1..]| as real) + 1.0;
    }
  }

  lemma {:induction false} QuotientMonotone(a: real, b: real, n: real)
    requires a <= b && n > 0.0
    ensures a / n <= b / n
  {
  }

  lemma {:induction false} QuotientShifts(a: real, c: real, n: real)
    requires n > 0.0
    ensures (a + n * c) / n == a / n + c
  {
    assert (n * c) / n == c;
  }

  lemma {:induction false} MeansMonotone(a: seq<real>, b: seq<real>, draws: seq<seq<nat>>)
    requires Below(a, b) && |a| > 0 && Table(draws, |a|)
    ensures Below(Means(a, draws), Means(b, draws))
  {
    forall r | 0 <= r < |draws| ensures Mean(a, draws[r]) <= Mean(b, draws[r]) {
      TotalMonotone(a, b, draws[r]);
      QuotientMonotone(Total(a, draws[r]), Total(b, draws[r]), |draws[r]| as real);
    }
  }

  lemma {:induction false} MeansShift(values: seq<real>, c: real, draws: seq<seq<nat>>)
    requires |values| > 0 && Table(draws, |values|)
    ensures Means(Shifted(values, c), draws) == Shifted(Means(values, draws), c)
  {
    forall r | 0 <= r < |draws| ensures Mean(Shifted(values, c), draws[r]) == Mean(values, draws[r]) + c {
      TotalShifts(values, c, draws[r]);
      QuotientShifts(Total(values, draws[r]), c, |draws[r]| as real);
    }
  }

  lemma {:induction false} InsertShifts(x: real, s: seq<real>, c: real)
    ensures Insert(x + c, Shifted(s, c)) == Shifted(Insert(x, s), c)
  {
    if s != [] && x > s[0] {
      InsertShifts(x, s[1..], c);
      assert Shifted(s, c)[1..] == Shifted(s[1..], c);
    }
  }

  lemma {:induction false} SortedShifts(s: seq<real>, c: real)
    ensures Sorted(Shifted(s, c)) == Shifted(Sorted(s), c)
  {
    if s != [] {
      assert Shifted(s, c)[1..] == Shifted(s[1..], c);
      SortedShifts(s[1..], c);
      InsertShifts(s[0], Sorted(s[1..]), c);
    }
  }

  // ----- the bound -----

  /** Raising values never lowers the bound. */
  lemma {:induction false} BoundIsMonotone(a: seq<real>, b: seq<real>, draws: seq<seq<nat>>)
    requires Below(a, b) && Table(draws, |a|) && |a| >= MINIMUM_QUERIES
    ensures Bound(a, draws).Ok? && Bound(b, draws).Ok? && Bound(a, draws).value <= Bound(b, draws).value
  {
    MeansMonotone(a, b, draws);
    SortingIsMonotone(Means(a, draws), Means(b, draws));
  }

  /** Adding a constant to every value adds it to the bound. */
  lemma {:induction false} BoundShifts(values: seq<real>, c: real, draws: seq<seq<nat>>)
    requires Table(draws, |values|) && |values| >= MINIMUM_QUERIES
    ensures Bound(values, draws).Ok? && Bound(Shifted(values, c), draws) == Ok(Bound(values, draws).value + c)
  {
    MeansShift(values, c, draws);
    SortedShifts(Means(values, draws), c);
  }

  lemma {:induction false} ConstantTotal(n: nat, c: real, row: seq<nat>)
    requires forall i :: 0 <= i < |row| ==> row[i] < n
    ensures Total(seq(n, _ => c), row) == (|row| as real) * c
  {
    if row != [] {
      ConstantTotal(n, c, row[1..]);
      assert (|row| as real) == (|row[1..]| as real) + 1.0;
    }
  }

  lemma {:induction false} ConstantBound(n: nat, c: real, draws: seq<seq<nat>>)
    requires Table(draws, n) && n >= MINIMUM_QUERIES
    ensures Bound(seq(n, _ => c), draws) == Ok(c)
  {
    var values := seq(n, _ => c);
    var means := Means(values, draws);
    forall r | 0 <= r < |draws| ensures means[r] == c {
      ConstantTotal(n, c, draws[r]);
      QuotientShifts(0.0, c, |draws[r]| as real);
    }
    forall k | 0 <= k < |means| ensures Sorted(means)[k] == c {
      SortedConstant(means, c, k);
    }
  }

  lemma {:induction false} SortedConstant(s: seq<real>, c: real, k: nat)
    requires k < |s| && forall i :: 0 <= i < |s| ==> s[i] == c
    ensures Sorted(s)[k] == c
  {
    var t := Sorted(s);
    SortedIs(s, c);
    OrderedRank(t, k, c);
    AllAtMost(s, c);
    if t[k] < c {
      SortedIs(s, t[k]);
      OrderedRank(t, k, t[k]);
      NoneAtMost(s, t[k]);
    }
  }

  lemma {:induction false} AllAtMost(s: seq<real>, x: real)
    requires forall i :: 0 <= i < |s| ==> s[i] <= x
    ensures AtMost(s, x) == |s|
  {
    if s != [] { AllAtMost(s[1..], x); }
  }

  /** The bound lies between any two numbers that enclose all values, so between their extremes. */
  lemma {:induction false} BoundIsEnclosed(values: seq<real>, draws: seq<seq<nat>>, lo: real, hi: real)
    requires Table(draws, |values|) && |values| >= MINIMUM_QUERIES
    requires forall i :: 0 <= i < |values| ==> lo <= values[i] <= hi
    ensures Bound(values, draws).Ok? && lo <= Bound(values, draws).value <= hi
  {
    var n := |values|;
    ConstantBound(n, lo, draws);
    ConstantBound(n, hi, draws);
    BoundIsMonotone(seq(n, _ => lo), values, draws);
    BoundIsMonotone(values, seq(n, _ => hi), draws);
  }
}
