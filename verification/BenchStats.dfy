/**
  Online statistics (Welford's update) and their parallel merge, over the reals:
  `double` is modelled without rounding.
 */
module BenchStats {
  import opened Sequences

  const INT64_MAX: int := 0x7fff_ffff_ffff_ffff
  const INT64_MIN: int := -0x8000_0000_0000_0000

  type int64 = x: int | INT64_MIN <= x <= INT64_MAX

  /* ---------- what the numbers mean ---------- */

  function Sum(s: seq<int64>): real {
    if s == [] then 0.0 else Sum(s[..|s| - 1]) + s[|s| - 1] as real
  }

  /** The sum of squared deviations from `a`. */
  function Deviation(s: seq<int64>, a: real): real {
    if s == [] then 0.0 else Deviation(s[..|s| - 1], a) + Square(s[|s| - 1] as real - a)
  }

  function Square(x: real): real { x * x }

  function Least(s: seq<int64>): int64 {
    if s == [] then INT64_MAX
    else if s[|s| - 1] < Least(s[..|s| - 1]) then s[|s| - 1] else Least(s[..|s| - 1])
  }

  function Greatest(s: seq<int64>): int64 {
    if s == [] then INT64_MIN
    else if s[|s| - 1] > Greatest(s[..|s| - 1]) then s[|s| - 1] else Greatest(s[..|s| - 1])
  }

  datatype Stats = Stats(avg: real, count: int, min: int64, max: int64, m2: real)

  /** The accumulator describes the samples: the average times the count is their sum,
      and m2 is the sum of their squared deviations from the average. */
  ghost predicate Describes(t: Stats, s: seq<int64>) {
    && t.count == |s|
    && t.avg * |s| as real == Sum(s)
    && t.m2 == Deviation(s, t.avg)
    && t.min == Least(s)
    && t.max == Greatest(s)
  }

  /* ---------- algebra ---------- */

  function SumSquares(s: seq<int64>): real {
    if s == [] then 0.0 else SumSquares(s[..|s| - 1]) + Square(s[|s| - 1] as real)
  }

  /** The sum of squared deviations from `a`, given the sum of squares, the sum and the count. */
  function Expanded(q: real, t: real, n: real, a: real): real {
    q - 2.0 * a * t + n * Square(a)
  }

  lemma {:induction false} Expand(s: seq<int64>, a: real)
    ensures Deviation(s, a) == Expanded(SumSquares(s), Sum(s), |s| as real, a)
  {
    if s != [] {
      var p, x := s[..|s| - 1], s[|s| - 1] as real;
      Expand(p, a);
      ExpandStep(SumSquares(p), Sum(p), |p| as real, a, x);
      hide Expanded, Square;
      assert |s| as real == |p| as real + 1.0;
    }
  }

  lemma ExpandStep(q: real, t: real, n: real, a: real, x: real)
    ensures Expanded(q, t, n, a) + Square(x - a) == Expanded(q + Square(x), t + x, n + 1.0, a)
  {}

  /** Deviations from another point, when `a` is the average. */
  lemma DeviationFromAverage(s: seq<int64>, a: real, b: real)
    requires a * |s| as real == Sum(s)
    ensures Deviation(s, b) == Deviation(s, a) + |s| as real * Square(b - a)
  {
    hide Expanded, Square;
    Expand(s, a);
    Expand(s, b);
    Recentre(SumSquares(s), |s| as real, a, b, Sum(s));
  }

  lemma Recentre(q: real, n: real, a: real, b: real, t: real)
    requires a * n == t
    ensures Expanded(q, t, n, b) == Expanded(q, t, n, a) + n * Square(b - a)
  {
    assert b * t == b * a * n;
    assert a * t == a * a * n;
  }

  lemma {:induction false} DeviationAppend(s: seq<int64>, t: seq<int64>, a: real)
    ensures Deviation(s + t, a) == Deviation(s, a) + Deviation(t, a)
    ensures Sum(s + t) == Sum(s) + Sum(t)
    ensures Least(s + t) == if Least(t) < Least(s) then Least(t) else Least(s)
    ensures Greatest(s + t) == if Greatest(t) > Greatest(s) then Greatest(t) else Greatest(s)
  {
    hide Square;
    if t == [] {
      assert s + t == s;
    } else {
      var n := |t| - 1;
      DeviationAppend(s, t[..n], a);
      assert (s + t)[..|s + t| - 1] == s + t[..n];
    }
  }

  /* ---------- the accumulator, updated in place ---------- */

  /** What one more sample does to average and deviation. */
  lemma WelfordStep(n: real, avg: real, x: real, avg': real)
    requires n >= 0.0 && avg' == avg + (x - avg) / (n + 1.0)
    ensures avg' * (n + 1.0) == avg * n + x
    ensures n * Square(avg' - avg) + Square(x - avg') == (x - avg') * (x - avg)
  {
    var d := avg' - avg;
    assert d * (n + 1.0) == x - avg;
    assert x - avg' == n * d;
  }

  /** One sample more, whatever the numbers are about. */
  lemma OneMore(s: seq<int64>, x: int64, a: real)
    ensures Sum(s + [x]) == Sum(s) + x as real
    ensures Deviation(s + [x], a) == Deviation(s, a) + Square(x as real - a)
    ensures Least(s + [x]) == if x < Least(s) then x else Least(s)
    ensures Greatest(s + [x]) == if x > Greatest(s) then x else Greatest(s)
  {
    hide Square;
    assert (s + [x])[..|s|] == s;
  }

  lemma UpdateInReals(s: seq<int64>, x: int64, n: real, y: real, avg: real, avg': real)
    requires n == |s| as real && y == x as real && avg * n == Sum(s)
    requires avg' == avg + (y - avg) / (n + 1.0)
    ensures avg' * (n + 1.0) == Sum(s + [x])
    ensures Deviation(s, avg) + (y - avg') * (y - avg) == Deviation(s + [x], avg')
  {
    hide *;
    WelfordStep(n, avg, y, avg');
    DeviationFromAverage(s, avg, avg');
    OneMore(s, x, avg');
  }

  lemma Counts(t: Stats, s: seq<int64>)
    requires Describes(t, s)
    ensures t.count == |s|
  {}

  /** An update describes the samples and one more. */
  lemma UpdateDescribes(s: seq<int64>, x: int64, t: Stats, u: Stats)
    requires Describes(t, s)
    requires u.count == t.count + 1
    requires u.avg == t.avg + (x as real - t.avg) / u.count as real
    requires u.m2 == t.m2 + (x as real - u.avg) * (x as real - t.avg)
    requires u.max == if x > t.max then x else t.max
    requires u.min == if x < t.min then x else t.min
    ensures Describes(u, s + [x])
  {
    hide Sum, Deviation, Least, Greatest;
    OneMore(s, x, u.avg);
    UpdateInReals(s, x, |s| as real, x as real, t.avg, u.avg);
  }

  /** What a merge does to average and deviation. */
  lemma MergeStep(n: real, m: real, a: real, b: real, avg: real)
    requires n >= 0.0 && m >= 0.0 && n + m > 0.0
    requires avg == (a * n + b * m) / (n + m)
    ensures avg * (n + m) == a * n + b * m
    ensures n * Square(avg - a) + m * Square(avg - b) == Square(a - b) * (n * m / (n + m))
  {
    var d, w := (b - a) / (n + m), n + m;
    assert avg * w == a * n + b * m;
    assert d * w == b - a;
    assert avg - a == m * d;
    assert avg - b == -(n * d);
    assert n * m / w * w == n * m;
  }

  lemma ProductOverSum(x: nat, y: nat)
    requires x + y > 0
    ensures ProdOverSum(x, y) == x as real * y as real / (x as real + y as real)
  {
    ProductAsReal(x, y);
  }

  lemma {:induction false} ProductAsReal(x: nat, y: nat)
    ensures (x * y) as real == x as real * y as real
  {
    if x > 0 {
      ProductAsReal(x - 1, y);
      assert x * y == (x - 1) * y + y;
      assert x as real == (x - 1) as real + 1.0;
    }
  }

  lemma MergeInReals(s: seq<int64>, t: seq<int64>, n: real, m: real, a: real, b: real, avg: real)
    requires n == |s| as real && m == |t| as real && n + m > 0.0
    requires a * n == Sum(s) && b * m == Sum(t)
    requires avg == (a * n + b * m) / (n + m)
    ensures avg * (n + m) == Sum(s + t)
    ensures Deviation(s, a) + (Deviation(t, b) + Square(a - b) * (n * m / (n + m))) == Deviation(s + t, avg)
  {
    hide Square, Deviation, Sum;
    MergeStep(n, m, a, b, avg);
    DeviationFromAverage(s, a, avg);
    DeviationFromAverage(t, b, avg);
    DeviationAppend(s, t, avg);
  }

  /** A merge describes the samples of both, if there is one. */
  lemma MergeDescribes(s: seq<int64>, t: seq<int64>, p: Stats, q: Stats, r: Stats)
    requires Describes(p, s) && Describes(q, t) && p.count + q.count > 0
    requires r.count == p.count + q.count
    requires r.avg == (p.avg * p.count as real + q.avg * q.count as real) / r.count as real
    requires r.m2 == p.m2 + (q.m2 + Square(p.avg - q.avg) * ProdOverSum(p.count, q.count))
    requires r.max == if q.max > p.max then q.max else p.max
    requires r.min == if q.min < p.min then q.min else p.min
    ensures Describes(r, s + t)
  {
    hide Square, Deviation, Sum, ProdOverSum, Least, Greatest;
    ProductOverSum(|s|, |t|);
    MergeInReals(s, t, |s| as real, |t| as real, p.avg, q.avg, r.avg);
    DeviationAppend(s, t, r.avg);
  }

  /** `prod_over_sum`. */
  function ProdOverSum(x: int, y: int): real
    requires x + y != 0
  {
    (x * y) as real / (x + y) as real
  }

  class Accumulator {
    var avg: real
    var count: int
    var min: int64
    var max: int64
    var m2: real
    /** Everything accumulated since the reset. */
    ghost var samples: seq<int64>

    ghost function View(): Stats
      reads this
    {
      Stats(avg, count, min, max, m2)
    }

    ghost predicate Valid()
      reads this
    {
      Describes(View(), samples)
    }

    /** `bench_stats_reset`. */
    method Reset()
      modifies this
      ensures Valid() && samples == []
    {
      avg, count := 0.0, 0;
      min, max := INT64_MAX, INT64_MIN;
      m2 := 0.0;
      samples := [];
    }

    /** `bench_stats_update`. */
    method Update(x: int64)
      requires Valid()
      modifies this
      ensures Valid() && samples == old(samples) + [x]
    {
      hide Describes;
      ghost var before := View();
      Counts(before, samples);
      var oldAvg := avg;
      count := count + 1;
      avg := avg + (x as real - avg) / count as real;
      m2 := m2 + (x as real - avg) * (x as real - oldAvg);
      if x > max {
        max := x;
      }
      if x < min {
        min := x;
      }
      UpdateDescribes(samples, x, before, View());
      samples := samples + [x];
    }

    /** `bench_stats_merge`, without the square root kept in `var`.  Both may be the
        same accumulator; at least one of them has a sample. */
    method Merge(other: Accumulator)
      requires Valid() && other.Valid()
      requires |samples| + |other.samples| > 0
      modifies this
      ensures Valid() && samples == old(samples) + old(other.samples)
    {
      hide Square, ProdOverSum, Describes;
      ghost var s, t, p, q := samples, other.samples, View(), other.View();
      Counts(p, s);
      Counts(q, t);
      var newCount := count + other.count;
      var delta := avg - other.avg;
      m2 := m2 + (other.m2 + Square(delta) * ProdOverSum(count, other.count));
      avg := (avg * count as real + other.avg * other.count as real) / newCount as real;
      count := newCount;
      if other.max > max {
        max := other.max;
      }
      if other.min < min {
        min := other.min;
      }
      samples := s + t;
      MergeDescribes(s, t, p, q, View());
    }
  }

  /* ---------- the order of merging ---------- */

  /** Minimum and maximum of a nonempty set of samples are what they are called. */
  lemma {:induction false} ExtremesAreExtreme(s: seq<int64>)
    requires s != []
    ensures Least(s) in s && Greatest(s) in s
    ensures forall x :: x in s ==> Least(s) <= x <= Greatest(s)
  {
    var n := |s| - 1;
    assert s == s[..n] + [s[n]];
    if n > 0 {
      ExtremesAreExtreme(s[..n]);
    }
  }

  /** Where the last element of `t` stands in a rearrangement of `t`; the rests are
      rearrangements of each other. */
  lemma FindLast<T>(s: seq<T>, t: seq<T>) returns (i: nat)
    requires multiset(s) == multiset(t) && t != []
    ensures i < |s| && s[i] == t[|t| - 1]
    ensures multiset(s[..i] + s[i + 1..]) == multiset(t[..|t| - 1])
  {
    var n := |t| - 1;
    assert t[n] in multiset(s);
    i :| 0 <= i < |s| && s[i] == t[n];
    RemoveAt(s, i);
    RemoveAt(t, n);
    assert t[..n] + t[n + 1..] == t[..n];
  }

  lemma RemoveAt<T>(s: seq<T>, i: nat)
    requires i < |s|
    ensures multiset(s[..i] + s[i + 1..]) == multiset(s) - multiset{s[i]}
  {
    var a, b := s[..i], s[i + 1..];
    assert s == a + ([s[i]] + b);
    assert multiset(s) == multiset(a) + (multiset{s[i]} + multiset(b));
    assert multiset(a + b) == multiset(a) + multiset(b);
  }

  /** Taking a sample out of the middle. */
  lemma OneLess(s: seq<int64>, i: nat, a: real)
    requires i < |s|
    ensures var r, x := s[..i] + s[i + 1..], s[i];
      && Sum(s) == Sum(r) + x as real
      && Deviation(s, a) == Deviation(r, a) + Square(x as real - a)
      && Least(s) == (if x < Least(r) then x else Least(r))
      && Greatest(s) == (if x > Greatest(r) then x else Greatest(r))
  {
    var front, x, back := s[..i], s[i], s[i + 1..];
    assert s == (front + [x]) + back;
    hide *;
    DeviationAppend(front, back, a);
    DeviationAppend(front + [x], back, a);
    OneMore(front, x, a);
  }

  /** Nothing the accumulator keeps depends on the order of the samples. */
  lemma {:induction false} Permuted(s: seq<int64>, t: seq<int64>, a: real)
    requires multiset(s) == multiset(t)
    ensures Sum(s) == Sum(t) && Deviation(s, a) == Deviation(t, a)
    ensures Least(s) == Least(t) && Greatest(s) == Greatest(t)
    decreases |t|
  {
    hide *;
    if t == [] {
      assert |multiset(s)| == |s|;
    } else {
      var n := |t| - 1;
      var i := FindLast(s, t);
      Permuted(s[..i] + s[i + 1..], t[..n], a);
      OneLess(s, i, a);
      OneLess(t, n, a);
      assert t[..n] + t[n + 1..] == t[..n];
    }
  }

  function Concat(parts: seq<seq<int64>>): seq<int64> {
    if parts == [] then [] else Concat(parts[..|parts| - 1]) + parts[|parts| - 1]
  }

  lemma ConcatSnoc(ps: seq<seq<int64>>, p: seq<int64>)
    ensures Concat(ps + [p]) == Concat(ps) + p
  {
    assert (ps + [p])[..|ps|] == ps;
  }

  lemma {:induction false} ConcatAppend(ps: seq<seq<int64>>, qs: seq<seq<int64>>)
    ensures Concat(ps + qs) == Concat(ps) + Concat(qs)
  {
    if qs == [] {
      assert ps + qs == ps;
    } else {
      var front, last := qs[..|qs| - 1], qs[|qs| - 1];
      assert qs == front + [last] && ps + qs == (ps + front) + [last];
      ConcatAppend(ps, front);
      ConcatSnoc(front, last);
      ConcatSnoc(ps + front, last);
      hide Concat;
      Associative(Concat(ps), Concat(front), last);
    }
  }

  lemma {:induction false} ConcatPermuted(ps: seq<seq<int64>>, qs: seq<seq<int64>>)
    requires multiset(ps) == multiset(qs)
    ensures multiset(Concat(ps)) == multiset(Concat(qs))
    decreases |qs|
  {
    if qs == [] {
      assert |multiset(ps)| == |ps|;
    } else {
      var n := |qs| - 1;
      var i := FindLast(ps, qs);
      ConcatPermuted(ps[..i] + ps[i + 1..], qs[..n]);
      assert ps == ps[..i] + [ps[i]] + ps[i + 1..];
      ConcatAppend(ps[..i], ps[i + 1..]);
      ConcatAppend(ps[..i], [ps[i]]);
      ConcatAppend(ps[..i] + [ps[i]], ps[i + 1..]);
      assert Concat([ps[i]]) == ps[i];
    }
  }

  /** The samples, in any order, determine the accumulator. */
  lemma SameSamplesSameStats(s: seq<int64>, t: seq<int64>, p: Stats, q: Stats)
    requires multiset(s) == multiset(t) && s != []
    requires Describes(p, s) && Describes(q, t)
    ensures p == q
  {
    hide Sum, Deviation, Least, Greatest;
    assert |multiset(s)| == |s| && |multiset(t)| == |t|;
    Permuted(s, t, p.avg);
    SameProduct(|s| as real, p.avg, q.avg);
  }

  /** The totals are the same number for number in whatever order the processes get
      hold of the lock and merge their samples. */
  lemma MergeOrderIrrelevant(ps: seq<seq<int64>>, qs: seq<seq<int64>>, p: Stats, q: Stats)
    requires multiset(ps) == multiset(qs) && Concat(ps) != []
    requires Describes(p, Concat(ps)) && Describes(q, Concat(qs))
    ensures p == q
  {
    hide Concat, Describes;
    ConcatPermuted(ps, qs);
    SameSamplesSameStats(Concat(ps), Concat(qs), p, q);
  }

  lemma SameProduct(n: real, a: real, b: real)
    requires n > 0.0 && a * n == b * n
    ensures a == b
  {}

  ghost function Samples(procs: seq<Accumulator>): seq<seq<int64>>
    reads procs
  {
    seq(|procs|, i requires 0 <= i < |procs| reads procs => procs[i].samples)
  }

  /** The merges of all processes into the shared total, one after the other.  A process
      without samples may come anywhere but first, where it would divide 0 by 0. */
  method MergeAll(total: Accumulator, procs: seq<Accumulator>)
    requires total !in procs
    requires forall p :: p in procs ==> p.Valid()
    requires procs != [] ==> procs[0].samples != []
    modifies total
    ensures total.Valid() && total.samples == Concat(Samples(procs))
  {
    total.Reset();
    ghost var parts := Samples(procs);
    for i := 0 to |procs|
      invariant total.Valid() && total.samples == Concat(parts[..i])
      invariant i > 0 ==> total.samples != []
    {
      total.Merge(procs[i]);
      assert parts[..i + 1][..i] == parts[..i];
    }
    assert parts[..|procs|] == parts == Samples(procs);
  }
}
