/** `src/proxy.rs`: `percentile`, by linear interpolation between closest ranks. */
module Percentiles {
  import opened Rounding

  // ----- ordered copies -----

  predicate Ordered(s: seq<real>)
  {
    |s| < 2 || (s[0] <= s[1] && Ordered(s[1..]))
  }

  function Insert(x: real, s: seq<real>): (r: seq<real>)
    ensures |r| == |s| + 1 && (r[0] == x || (s != [] && r[0] == s[0]))
  {
    if s == [] || x <= s[0] then [x] + s else [s[0]] + Insert(x, s[1..])
  }

  /** The ascending copy that `sort_by(total_cmp)` leaves. */
  function Sort(s: seq<real>): (r: seq<real>)
    ensures |r| == |s|
  {
    if s == [] then [] else Insert(s[0], Sort(s[1..]))
  }

  lemma {:induction false} InsertOrdered(x: real, s: seq<real>)
    requires Ordered(s)
    ensures Ordered(Insert(x, s))
  {
    if s == [] || x <= s[0] {
      assert ([x] + s)[1..] == s;
    } else {
      InsertOrdered(x, s[1..]);
      var t := Insert(x, s[1..]);
      assert ([s[0]] + t)[1..] == t;
      assert |s| > 1 ==> s[1..][0] == s[1];
    }
  }

  lemma {:induction false} InsertCounts(x: real, s: seq<real>)
    ensures multiset(Insert(x, s)) == multiset(s) + multiset{x}
  {
    if s == [] || x <= s[0] {
      assert multiset([x] + s) == multiset([x]) + multiset(s);
    } else {
      InsertCounts(x, s[1..]);
      assert s == [s[0]] + s[1..];
      assert multiset([s[0]] + Insert(x, s[1..])) == multiset([s[0]]) + multiset(Insert(x, s[1..]));
    }
  }

  /** Sorting orders the samples and neither loses nor adds one. */
  lemma {:induction false} SortKeeps(s: seq<real>)
    ensures Ordered(Sort(s)) && multiset(Sort(s)) == multiset(s)
  {
    if s != [] {
      SortKeeps(s[1..]);
      InsertOrdered(s[0], Sort(s[1..]));
      InsertCounts(s[0], Sort(s[1..]));
      assert s == [s[0]] + s[1..];
    }
  }

  lemma {:induction false} OrderedAt(s: seq<real>, i: nat, j: nat)
    requires Ordered(s) && i <= j < |s|
    ensures s[i] <= s[j]
  {
    if i < j {
      if i == 0 {
        OrderedAt(s[1..], 0, j - 1);
      } else {
        OrderedAt(s[1..], i - 1, j - 1);
      }
    }
  }

  lemma FirstIsLeast(a: seq<real>, b: seq<real>)
    requires Ordered(a) && multiset(a) == multiset(b) && a != [] && b != []
    ensures a[0] <= b[0]
  {
    assert b[0] in multiset(a);
    var i :| 0 <= i < |a| && a[i] == b[0];
    OrderedAt(a, 0, i);
  }

  lemma SameSize(a: seq<real>, b: seq<real>)
    requires multiset(a) == multiset(b)
    ensures |a| == |b|
  {
    assert |multiset(a)| == |a| && |multiset(b)| == |b|;
  }

  lemma TailCounts(a: seq<real>)
    requires a != []
    ensures multiset(a[1..]) == multiset(a) - multiset{a[0]}
  {
    assert a == [a[0]] + a[1..];
  }

  /** There is one way to put the same values in order. */
  lemma {:induction false} OrderedUnique(a: seq<real>, b: seq<real>)
    requires Ordered(a) && Ordered(b) && multiset(a) == multiset(b)
    ensures a == b
  {
    SameSize(a, b);
    if a != [] {
      FirstIsLeast(a, b);
      FirstIsLeast(b, a);
      TailCounts(a);
      TailCounts(b);
      OrderedUnique(a[1..], b[1..]);
      assert a == [a[0]] + a[1..] && b == [b[0]] + b[1..];
    }
  }

  // ----- the quantile -----

  lemma ProductNonNegative(f: real, d: real)
    requires 0.0 <= f && 0.0 <= d
    ensures 0.0 <= f * d
  {
  }

  /** `q * (n - 1)`. */
  function Rank(q: real, last: nat): (r: real)
    requires 0.0 <= q <= 1.0
    ensures 0.0 <= r <= last as real
  {
    ProductNonNegative(q, last as real);
    ProductNonNegative(1.0 - q, last as real);
    assert (1.0 - q) * last as real == last as real - q * last as real;
    q * last as real
  }

  function Ceiling(x: real): int
  {
    if x.Floor as real == x then x.Floor else x.Floor + 1
  }

  function Lerp(a: real, b: real, f: real): real
  {
    a + f * (b - a)
  }

  /** The value at a fractional rank of ordered data. */
  function At(sorted: seq<real>, rank: real): real
    requires sorted != [] && 0.0 <= rank <= (|sorted| - 1) as real
  {
    var (lo, hi) := (rank.Floor, Ceiling(rank));
    Lerp(sorted[lo], sorted[hi], rank - lo as real)
  }

  /** `percentile`. */
  function Percentile(data: seq<real>, q: real): real
    requires 0.0 <= q <= 1.0
  {
    if data == [] then 0.0 else Round2(At(Sort(data), Rank(q, |data| - 1)))
  }

  lemma LerpBetween(a: real, b: real, f: real)
    requires a <= b && 0.0 <= f <= 1.0
    ensures a <= Lerp(a, b, f) <= b
  {
    ProductNonNegative(f, b - a);
    ProductNonNegative(1.0 - f, b - a);
    assert (1.0 - f) * (b - a) == (b - a) - f * (b - a);
  }

  lemma LerpMonotone(a: real, b: real, f: real, g: real)
    requires a <= b && f <= g
    ensures Lerp(a, b, f) <= Lerp(a, b, g)
  {
    ProductNonNegative(g - f, b - a);
    assert (g - f) * (b - a) == g * (b - a) - f * (b - a);
  }

  lemma LerpAtStart(a: real, b: real)
    ensures Lerp(a, b, 0.0) == a
  {
  }

  lemma AtBetween(s: seq<real>, rank: real)
    requires Ordered(s) && s != [] && 0.0 <= rank <= (|s| - 1) as real
    ensures s[rank.Floor] <= At(s, rank) <= s[Ceiling(rank)]
  {
    var (lo, hi) := (rank.Floor, Ceiling(rank));
    OrderedAt(s, lo, hi);
    LerpBetween(s[lo], s[hi], rank - lo as real);
  }

  lemma AtInteger(s: seq<real>, k: nat)
    requires k < |s|
    ensures At(s, k as real) == s[k]
  {
    LerpAtStart(s[k], s[k]);
  }

  /** A higher rank never has a lower value. */
  lemma AtMonotone(s: seq<real>, r: real, t: real)
    requires Ordered(s) && s != [] && 0.0 <= r <= t <= (|s| - 1) as real
    ensures At(s, r) <= At(s, t)
  {
    AtBetween(s, r);
    AtBetween(s, t);
    if r.Floor == t.Floor {
      var (lo, hi) := (r.Floor, Ceiling(t));
      if r == lo as real {
        AtInteger(s, lo);
      } else {
        OrderedAt(s, lo, hi);
        LerpMonotone(s[lo], s[hi], r - lo as real, t - lo as real);
      }
    } else {
      OrderedAt(s, Ceiling(r), t.Floor);
    }
  }

  lemma RankMonotone(q: real, r: real, last: nat)
    requires 0.0 <= q <= r <= 1.0
    ensures Rank(q, last) <= Rank(r, last)
  {
    ProductNonNegative(r - q, last as real);
    assert (r - q) * last as real == r * last as real - q * last as real;
  }

  /** The order of the samples does not matter. */
  lemma OrderDoesNotMatter(a: seq<real>, b: seq<real>, q: real)
    requires 0.0 <= q <= 1.0 && multiset(a) == multiset(b)
    ensures Percentile(a, q) == Percentile(b, q)
  {
    SameSize(a, b);
    SortKeeps(a);
    SortKeeps(b);
    OrderedUnique(Sort(a), Sort(b));
  }

  /** A higher quantile is never lower. */
  lemma QuantilesOrdered(data: seq<real>, q: real, r: real)
    requires 0.0 <= q <= r <= 1.0
    ensures Percentile(data, q) <= Percentile(data, r)
  {
    if data != [] {
      SortKeeps(data);
      var s := Sort(data);
      var (i, j) := (Rank(q, |data| - 1), Rank(r, |data| - 1));
      RankMonotone(q, r, |data| - 1);
      AtMonotone(s, i, j);
      Round2Monotone(At(s, i), At(s, j));
    }
  }

  /** Every quantile lies between the rounded least and greatest sample, which are quantiles 0 and 1. */
  lemma WithinExtremes(data: seq<real>, q: real, least: real, greatest: real)
    requires 0.0 <= q <= 1.0 && least in data && greatest in data
    requires forall i :: 0 <= i < |data| ==> least <= data[i] <= greatest
    ensures Percentile(data, 0.0) == Round2(least) && Percentile(data, 1.0) == Round2(greatest)
    ensures Round2(least) <= Percentile(data, q) <= Round2(greatest)
  {
    SortEnds(data, least, greatest);
    AtInteger(Sort(data), 0);
    AtInteger(Sort(data), |data| - 1);
    assert Rank(0.0, |data| - 1) == 0.0 && Rank(1.0, |data| - 1) == (|data| - 1) as real;
    QuantilesOrdered(data, 0.0, q);
    QuantilesOrdered(data, q, 1.0);
  }

  lemma SortEnds(data: seq<real>, least: real, greatest: real)
    requires least in data && greatest in data
    requires forall i :: 0 <= i < |data| ==> least <= data[i] <= greatest
    ensures Sort(data)[0] == least && Sort(data)[|data| - 1] == greatest
  {
    SortKeeps(data);
    var s := Sort(data);
    var i := FoundIn(data, s, least);
    var j := FoundIn(data, s, greatest);
    OrderedAt(s, 0, i);
    OrderedAt(s, j, |s| - 1);
    var k := FoundIn(s, data, s[0]);
    var l := FoundIn(s, data, s[|s| - 1]);
  }

  lemma FoundIn(a: seq<real>, b: seq<real>, x: real) returns (i: nat)
    requires multiset(a) == multiset(b) && x in a
    ensures i < |b| && b[i] == x
  {
    assert x in multiset(b);
    i :| 0 <= i < |b| && b[i] == x;
  }
}
