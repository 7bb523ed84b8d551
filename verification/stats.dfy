/** The order statistics the services compute with pandas: sorting the
    values of a column, `Series.quantile` with its default linear
    interpolation, the interquartile-range outlier rule, and
    `value_counts().head(k)`. Values are exact reals; floating-point rounding
    is not modelled. */
module Stats {
  import opened Common
  import opened Tables

  predicate Sorted(s: seq<real>) {
    forall i, j :: 0 <= i < j < |s| ==> s[i] <= s[j]
  }

  function Insert(x: real, s: seq<real>): (r: seq<real>)
    requires Sorted(s)
    ensures Sorted(r)
    ensures forall y :: y in r <==> y == x || y in s
    ensures multiset(r) == multiset(s) + multiset{x}
  {
    if |s| == 0 then [x]
    else if x <= s[0] then [x] + s
    else
      var rest := Insert(x, s[1..]);
      assert s == [s[0]] + s[1..];
      assert forall i :: 0 <= i < |rest| ==> s[0] <= rest[i] by {
        forall i | 0 <= i < |rest| ensures s[0] <= rest[i] {
          assert rest[i] in rest;
        }
      }
      [s[0]] + rest
  }

  /** The values in ascending order. */
  function Sort(s: seq<real>): (r: seq<real>)
    ensures Sorted(r)
    ensures multiset(r) == multiset(s)
  {
    if |s| == 0 then []
    else
      assert s == [s[0]] + s[1..];
      Insert(s[0], Sort(s[1..]))
  }

  lemma {:induction false} SortOfSorted(s: seq<real>)
    requires Sorted(s)
    ensures Sort(s) == s
  {
    if |s| > 0 {
      SortOfSorted(s[1..]);
      assert s == [s[0]] + s[1..];
    }
  }

  /** `quantile(k / 4)` of sorted values with pandas' default linear
      interpolation: the value at the fractional position `(k / 4) * (n - 1)`,
      interpolated between the two closest ranks. */
  function Quantile(s: seq<real>, k: nat): (r: real)
    requires |s| > 0 && k <= 4
    ensures Sorted(s) ==> s[0] <= r <= s[|s| - 1]
  {
    var pos := Position(|s|, k);
    var lo := pos.Floor;
    if lo + 1 < |s| then
      assert Sorted(s) ==> s[0] <= s[lo] <= s[lo + 1] <= s[|s| - 1];
      Lerp(s[lo], s[lo + 1], pos - lo as real)
    else
      assert Sorted(s) ==> s[0] <= s[lo];
      s[lo]
  }

  /** The point a fraction `f` of the way from `a` to `b`. */
  function Lerp(a: real, b: real, f: real): (r: real)
    requires 0.0 <= f <= 1.0
    ensures a <= b ==> a <= r <= b
  {
    var x := f * (b - a);
    Between(a, b, f);
    a + x
  }

  /** The fractional rank `(k / 4) * (n - 1)` of quantile `k / 4` among `n` values. */
  function Position(n: nat, k: nat): (pos: real)
    requires n > 0 && k <= 4
    ensures 0.0 <= pos <= (n - 1) as real
    ensures 0 <= pos.Floor <= n - 1
  {
    MulBound(k, n - 1);
    (k * (n - 1)) as real / 4.0
  }

  lemma MulBound(k: nat, m: nat)
    requires k <= 4
    ensures k * m <= 4 * m
  {
    assert (4 - k) * m >= 0;
  }

  lemma MulMonotone(a: nat, b: nat, m: nat)
    requires a <= b
    ensures a * m <= b * m
  {
    assert (b - a) * m >= 0;
  }

  lemma MulNonneg(x: real, y: real)
    requires 0.0 <= x && 0.0 <= y
    ensures 0.0 <= x * y
  {
  }

  /** With a weight in [0, 1], the step from `a` stays within `[0, b - a]`. */
  lemma Between(a: real, b: real, f: real)
    requires 0.0 <= f <= 1.0
    ensures a <= b ==> 0.0 <= f * (b - a) <= b - a
  {
    if a <= b {
      MulNonneg(f, b - a);
      MulNonneg(1.0 - f, b - a);
      assert (1.0 - f) * (b - a) == (b - a) - f * (b - a);
    }
  }

  /** Moving the weight towards `b` moves the point towards `b`. */
  lemma LerpMonotone(a: real, b: real, f: real, g: real)
    requires a <= b && 0.0 <= f <= g <= 1.0
    ensures Lerp(a, b, f) <= Lerp(a, b, g)
  {
    MulNonneg(g - f, b - a);
    assert (g - f) * (b - a) == g * (b - a) - f * (b - a);
  }

  /** A larger fraction gives a quantile at least as large. */
  lemma QuantileMonotone(s: seq<real>, a: nat, b: nat)
    requires Sorted(s) && |s| > 0 && a <= b <= 4
    ensures Quantile(s, a) <= Quantile(s, b)
  {
    var pa, pb := Position(|s|, a), Position(|s|, b);
    MulMonotone(a, b, |s| - 1);
    var la, lb := pa.Floor, pb.Floor;
    assert la <= lb;
    if la == lb {
      if la + 1 < |s| {
        assert s[la] <= s[la + 1];
        LerpMonotone(s[la], s[la + 1], pa - la as real, pb - la as real);
      }
    } else {
      assert la + 1 < |s|;
      assert s[la] <= s[la + 1] && s[la + 1] <= s[lb];
      assert Quantile(s, a) <= s[la + 1];
      if lb + 1 < |s| {
        assert s[lb] <= s[lb + 1];
      }
      assert s[lb] <= Quantile(s, b);
    }
  }

  /** The interquartile fences `[Q1 - 1.5 IQR, Q3 + 1.5 IQR]` of a
      non-empty list of values. */
  function Fences(vals: seq<real>): (f: (real, real))
    requires |vals| > 0
    ensures f.0 <= Quantile(Sort(vals), 1) <= Quantile(Sort(vals), 3) <= f.1
  {
    var s := Sort(vals);
    QuantileMonotone(s, 1, 3);
    IqrFences(Quantile(s, 1), Quantile(s, 3))
  }

  /** The fences one and a half interquartile ranges beyond the quartiles. */
  function IqrFences(q1: real, q3: real): (f: (real, real))
    ensures q1 <= q3 ==> f.0 <= q1 && q3 <= f.1
    ensures q1 <= q3 ==> f.1 - f.0 == 4.0 * (q3 - q1)
  {
    (q1 - 1.5 * (q3 - q1), q3 + 1.5 * (q3 - q1))
  }

  /** A cell lies strictly outside the fences. NaN compares false with
      every bound, so a null cell never does. */
  predicate Outside(c: Cell, lo: real, hi: real) {
    c.Val? && c.v.Num? && (c.v.x < lo || c.v.x > hi)
  }

  predicate Increasing(xs: seq<nat>) {
    forall i, j :: 0 <= i < j < |xs| ==> xs[i] < xs[j]
  }

  /** The row positions, in ascending order, of the cells outside `[lo, hi]`. */
  function OutsideRows(cells: seq<Cell>, lo: real, hi: real): (r: seq<nat>)
    ensures forall i: nat :: i in r <==> i < |cells| && Outside(cells[i], lo, hi)
    ensures Increasing(r)
  {
    if |cells| == 0 then []
    else
      var init := cells[..|cells| - 1];
      var rest := OutsideRows(init, lo, hi);
      assert forall i :: 0 <= i < |rest| ==> rest[i] in rest;
      if Outside(cells[|cells| - 1], lo, hi) then rest + [|cells| - 1] else rest
  }

  /** The outlier rows of one column, or `None` when the column is entirely
      null and the rule is not applied to it. */
  function ColumnOutliers(c: Column, rows: nat): (r: Option<seq<nat>>)
    requires FitsRows(c, rows) && c.dtype == NumberType
    ensures r.None? <==> CountPresent(c.cells) == 0
    ensures r.Some? ==> |Numbers(c.cells)| > 0
    ensures r.Some? ==>
              var f := Fences(Numbers(c.cells));
              forall i: nat :: i in r.value <==> i < rows && Outside(c.cells[i], f.0, f.1)
  {
    if CountPresent(c.cells) > 0 then
      NumbersOfNumericColumn(c, rows);
      var f := Fences(Numbers(c.cells));
      Some(OutsideRows(c.cells, f.0, f.1))
    else
      None
  }

  /** The worked example: in `[1, 2, 3, 4, 100]` only the row holding 100
      lies outside the fences (Q1 = 2, Q3 = 4, fences [-1, 7]). */
  lemma OutlierExample()
    ensures var cells := [Val(Num(1.0)), Val(Num(2.0)), Val(Num(3.0)), Val(Num(4.0)), Val(Num(100.0))];
            var f := Fences(Numbers(cells));
            OutsideRows(cells, f.0, f.1) == [4]
  {
    ExampleFences();
    ExampleOutside();
  }

  lemma ExampleOutside()
    ensures OutsideRows([Val(Num(1.0)), Val(Num(2.0)), Val(Num(3.0)), Val(Num(4.0)), Val(Num(100.0))], -1.0, 7.0) == [4]
  {
    var cells := [Val(Num(1.0)), Val(Num(2.0)), Val(Num(3.0)), Val(Num(4.0)), Val(Num(100.0))];
    var none: seq<nat> := [];
    assert cells[..1][..0] == [];
    assert OutsideRows(cells[..1], -1.0, 7.0) == none;
    assert cells[..2][..1] == cells[..1];
    assert OutsideRows(cells[..2], -1.0, 7.0) == none;
    assert cells[..3][..2] == cells[..2];
    assert OutsideRows(cells[..3], -1.0, 7.0) == none;
    assert cells[..4][..3] == cells[..3];
    assert OutsideRows(cells[..4], -1.0, 7.0) == none;
    assert cells[..4] == cells[..|cells| - 1];
  }

  lemma ExampleFences()
    ensures Fences(Numbers([Val(Num(1.0)), Val(Num(2.0)), Val(Num(3.0)), Val(Num(4.0)), Val(Num(100.0))])) == (-1.0, 7.0)
  {
    ExampleNumbers();
    ExampleSortedFences([1.0, 2.0, 3.0, 4.0, 100.0]);
  }

  /** The example values are already in order, so their fences come from
      the quartiles 2 and 4 directly. (The values are a parameter so that
      the sort is not unfolded on a literal.) */
  lemma ExampleSortedFences(vals: seq<real>)
    requires vals == [1.0, 2.0, 3.0, 4.0, 100.0]
    ensures Fences(vals) == (-1.0, 7.0)
  {
    ExampleSorted(vals);
    ExampleQuartiles();
    FencesOfSorted(vals);
  }

  lemma ExampleSorted(vals: seq<real>)
    requires vals == [1.0, 2.0, 3.0, 4.0, 100.0]
    ensures Sorted(vals)
  {
  }

  /** Values already in order have their fences read off their own quartiles. */
  lemma FencesOfSorted(vals: seq<real>)
    requires |vals| > 0 && Sorted(vals)
    ensures Fences(vals) == IqrFences(Quantile(vals, 1), Quantile(vals, 3))
  {
    SortOfSorted(vals);
  }

  lemma ExampleNumbers()
    ensures Numbers([Val(Num(1.0)), Val(Num(2.0)), Val(Num(3.0)), Val(Num(4.0)), Val(Num(100.0))]) == [1.0, 2.0, 3.0, 4.0, 100.0]
  {
    var cells := [Val(Num(1.0)), Val(Num(2.0)), Val(Num(3.0)), Val(Num(4.0)), Val(Num(100.0))];
    assert cells[4..][1..] == [];
    assert Numbers(cells[4..]) == [100.0];
    assert cells[3..][1..] == cells[4..];
    assert Numbers(cells[3..]) == [4.0, 100.0];
    assert cells[2..][1..] == cells[3..];
    assert Numbers(cells[2..]) == [3.0, 4.0, 100.0];
    assert cells[1..][1..] == cells[2..];
    assert Numbers(cells[1..]) == [2.0, 3.0, 4.0, 100.0];
  }

  lemma ExampleQuartiles()
    ensures Quantile([1.0, 2.0, 3.0, 4.0, 100.0], 1) == 2.0
    ensures Quantile([1.0, 2.0, 3.0, 4.0, 100.0], 3) == 4.0
  {
    assert Position(5, 1) == 1.0;
    assert Position(5, 3) == 3.0;
  }

  /** An increasing list whose only member is `x` is `[x]`. */
  lemma SingletonIncreasing(r: seq<nat>, x: nat)
    requires Increasing(r) && forall i: nat :: i in r <==> i == x
    ensures r == [x]
  {
    assert forall i :: 0 <= i < |r| ==> r[i] == x by {
      forall i | 0 <= i < |r| ensures r[i] == x {
        assert r[i] in r;
      }
    }
    IncreasingHead(r);
    assert x in r;
  }

  lemma IncreasingHead(r: seq<nat>)
    requires Increasing(r)
    ensures |r| >= 2 ==> r[0] < r[1]
  {
  }

  // ---- value_counts ----

  function Keys(ps: seq<(Value, nat)>): (r: seq<Value>)
    ensures |r| == |ps|
    ensures forall i :: 0 <= i < |ps| ==> r[i] == ps[i].0
  {
    seq(|ps|, i requires 0 <= i < |ps| => ps[i].0)
  }

  predicate CountsDescending(ps: seq<(Value, nat)>) {
    forall i, j :: 0 <= i < j < |ps| ==> ps[i].1 >= ps[j].1
  }

  /** Place `p` before the first pair whose count is not larger. */
  function InsertByCount(p: (Value, nat), ps: seq<(Value, nat)>): (r: seq<(Value, nat)>)
    requires CountsDescending(ps)
    ensures CountsDescending(r)
    ensures |r| == |ps| + 1
    ensures forall q :: q in r <==> q == p || q in ps
    ensures Distinct(ps) && p !in ps ==> Distinct(r)
  {
    if |ps| == 0 then [p]
    else if p.1 >= ps[0].1 then [p] + ps
    else
      var rest := InsertByCount(p, ps[1..]);
      assert ps == [ps[0]] + ps[1..];
      assert forall i :: 0 <= i < |rest| ==> rest[i].1 <= ps[0].1 && (Distinct(ps) && p !in ps ==> rest[i] != ps[0]) by {
        forall i | 0 <= i < |rest| ensures rest[i].1 <= ps[0].1 && (Distinct(ps) && p !in ps ==> rest[i] != ps[0]) {
          assert rest[i] in rest;
        }
      }
      [ps[0]] + rest
  }

  /** Pairs ordered by descending count; equal counts keep their order. */
  function SortByCount(ps: seq<(Value, nat)>): (r: seq<(Value, nat)>)
    ensures CountsDescending(r)
    ensures |r| == |ps|
    ensures forall q :: q in r <==> q in ps
    ensures Distinct(ps) ==> Distinct(r)
  {
    if |ps| == 0 then []
    else
      var rest := SortByCount(ps[1..]);
      assert ps == [ps[0]] + ps[1..];
      InsertByCount(ps[0], rest)
  }

  /** Each distinct value with the number of times it occurs, in order of
      first appearance. */
  function Tally(vs: seq<Value>): (r: seq<(Value, nat)>)
    ensures Keys(r) == Unique(vs)
    ensures Distinct(r)
    ensures forall q :: q in r <==> q.0 in vs && q.1 == multiset(vs)[q.0]
  {
    var u := Unique(vs);
    var r := seq(|u|, i requires 0 <= i < |u| => (u[i], multiset(vs)[u[i]]));
    TallyFacts(vs, u, r);
    r
  }

  lemma TallyFacts(vs: seq<Value>, u: seq<Value>, r: seq<(Value, nat)>)
    requires (forall v :: v in u <==> v in vs) && Distinct(u)
    requires |r| == |u| && forall i :: 0 <= i < |u| ==> r[i] == (u[i], multiset(vs)[u[i]])
    ensures Keys(r) == u
    ensures Distinct(r)
    ensures forall q :: q in r <==> q.0 in vs && q.1 == multiset(vs)[q.0]
  {
    forall v | v in vs ensures (v, multiset(vs)[v]) in r {
      var k := FirstIndex(u, v);
      assert r[k] == (v, multiset(vs)[v]);
    }
  }

  /** Pairs that each carry their key's count cannot repeat a key unless
      they repeat a pair. */
  lemma DistinctKeys(ps: seq<(Value, nat)>, vs: seq<Value>)
    requires Distinct(ps)
    requires forall i :: 0 <= i < |ps| ==> ps[i].1 == multiset(vs)[ps[i].0]
    ensures Distinct(Keys(ps))
  {
    forall i, j | 0 <= i < j < |ps| ensures Keys(ps)[i] != Keys(ps)[j] {
      assert ps[i] != ps[j];
      assert ps[i] == (ps[i].0, ps[i].1) && ps[j] == (ps[j].0, ps[j].1);
    }
  }

  /** `value_counts().head(k)`: at most `k` distinct values with their
      exact counts, most frequent first; every value left out occurs no
      more often than any value kept. */
  function TopCounts(vs: seq<Value>, k: nat): (r: seq<(Value, nat)>)
    ensures |r| == Min(k, |Unique(vs)|)
    ensures forall i :: 0 <= i < |r| ==> r[i].0 in vs && r[i].1 == multiset(vs)[r[i].0]
    ensures Distinct(Keys(r))
    ensures CountsDescending(r)
    ensures forall v :: v in vs && v !in Keys(r) ==>
              forall i :: 0 <= i < |r| ==> multiset(vs)[v] <= r[i].1
  {
    var t := Tally(vs);
    var s := SortByCount(t);
    assert |Keys(t)| == |t|;
    var r := s[..Min(k, |s|)];
    TopCountsPrefix(vs, s, r);
    r
  }

  /** What a prefix of the sorted tally keeps of it. */
  lemma TopCountsPrefix(vs: seq<Value>, s: seq<(Value, nat)>, r: seq<(Value, nat)>)
    requires Distinct(s) && CountsDescending(s) && r <= s
    requires forall q :: q in s <==> q.0 in vs && q.1 == multiset(vs)[q.0]
    ensures forall i :: 0 <= i < |r| ==> r[i].0 in vs && r[i].1 == multiset(vs)[r[i].0]
    ensures Distinct(Keys(r))
    ensures CountsDescending(r)
    ensures forall v :: v in vs && v !in Keys(r) ==>
              forall i :: 0 <= i < |r| ==> multiset(vs)[v] <= r[i].1
  {
    assert forall i :: 0 <= i < |r| ==> r[i] == s[i] && s[i] in s;
    DistinctKeys(r, vs);
    TopCountsComplete(vs, s, r);
  }

  lemma TopCountsComplete(vs: seq<Value>, s: seq<(Value, nat)>, r: seq<(Value, nat)>)
    requires CountsDescending(s) && r <= s
    requires forall q :: q in s <==> q.0 in vs && q.1 == multiset(vs)[q.0]
    ensures forall v :: v in vs && v !in Keys(r) ==>
              forall i :: 0 <= i < |r| ==> multiset(vs)[v] <= r[i].1
  {
    forall v | v in vs && v !in Keys(r)
      ensures forall i :: 0 <= i < |r| ==> multiset(vs)[v] <= r[i].1
    {
      var q := (v, multiset(vs)[v]);
      assert q in s;
      var j :| 0 <= j < |s| && s[j] == q;
      assert forall i :: 0 <= i < |r| ==> Keys(r)[i] == s[i].0;
      assert j >= |r|;
    }
  }

  // ---- Sums, means and the histogram ----

  function Sum(xs: seq<real>): real {
    if |xs| == 0 then 0.0 else xs[0] + Sum(xs[1..])
  }

  /** Values within `[lo, hi]` sum to between `n * lo` and `n * hi`. */
  lemma {:induction false} SumBounds(xs: seq<real>, lo: real, hi: real)
    requires forall i :: 0 <= i < |xs| ==> lo <= xs[i] <= hi
    ensures |xs| as real * lo <= Sum(xs) <= |xs| as real * hi
  {
    if |xs| > 0 {
      SumBounds(xs[1..], lo, hi);
      assert |xs| as real * lo == (|xs| - 1) as real * lo + lo;
      assert |xs| as real * hi == (|xs| - 1) as real * hi + hi;
    }
  }

  /** `Series.mean()` of the non-null values: between the smallest and the largest. */
  function Mean(xs: seq<real>): (m: real)
    requires |xs| > 0
    ensures |Sort(xs)| == |xs| && Sort(xs)[0] <= m <= Sort(xs)[|xs| - 1]
  {
    SortedEnds(xs);
    AverageBetween(xs, Sort(xs)[0], Sort(xs)[|xs| - 1]);
    Sum(xs) / |xs| as real
  }

  lemma AverageBetween(xs: seq<real>, lo: real, hi: real)
    requires |xs| > 0 && forall i :: 0 <= i < |xs| ==> lo <= xs[i] <= hi
    ensures lo <= Sum(xs) / |xs| as real <= hi
  {
    SumBounds(xs, lo, hi);
    DivBounds(Sum(xs), |xs| as real, lo, hi);
  }

  lemma DivBounds(s: real, n: real, lo: real, hi: real)
    requires n > 0.0 && n * lo <= s <= n * hi
    ensures lo <= s / n <= hi
  {
    assert (s / n) * n == s;
    MulOrder(s / n, lo, n);
    MulOrder(hi, s / n, n);
  }

  /** Multiplying by a positive factor keeps the order. */
  lemma MulOrder(x: real, y: real, d: real)
    requires d > 0.0
    ensures x < y ==> x * d < y * d
  {
    if x < y {
      assert (y - x) * d > 0.0;
    }
  }

  /** The smallest and the largest of some values, from their sorted order. */
  lemma SortedEnds(xs: seq<real>)
    requires |xs| > 0
    ensures |Sort(xs)| == |xs|
    ensures forall i :: 0 <= i < |xs| ==> Sort(xs)[0] <= xs[i] <= Sort(xs)[|xs| - 1]
    ensures Sort(xs)[0] in xs && Sort(xs)[|xs| - 1] in xs
  {
    SortedPermutationEnds(xs, Sort(xs));
  }

  lemma SortedPermutationEnds(xs: seq<real>, s: seq<real>)
    requires |xs| > 0 && Sorted(s) && multiset(s) == multiset(xs)
    ensures |s| == |xs|
    ensures forall i :: 0 <= i < |xs| ==> s[0] <= xs[i] <= s[|s| - 1]
    ensures s[0] in xs && s[|s| - 1] in xs
  {
    assert |s| == |xs| by {
      assert |multiset(s)| == |multiset(xs)|;
    }
    forall i | 0 <= i < |xs| ensures s[0] <= xs[i] <= s[|s| - 1] {
      assert xs[i] in multiset(s);
      var k :| 0 <= k < |s| && s[k] == xs[i];
      SortedBetween(s, k);
    }
    assert s[0] in multiset(xs) && s[|s| - 1] in multiset(xs);
  }

  lemma SortedBetween(s: seq<real>, k: nat)
    requires Sorted(s) && k < |s|
    ensures s[0] <= s[k] <= s[|s| - 1]
  {
  }

  function SumCounts(cs: seq<nat>): nat {
    if |cs| == 0 then 0 else cs[0] + SumCounts(cs[1..])
  }

  /** One more value in bin `b`. */
  function Tick(cs: seq<nat>, b: nat): (r: seq<nat>)
    requires b < |cs|
    ensures |r| == |cs| && SumCounts(r) == SumCounts(cs) + 1
    ensures forall i :: 0 <= i < |cs| ==> r[i] == if i == b then cs[i] + 1 else cs[i]
  {
    TickSum(cs, b);
    cs[b := cs[b] + 1]
  }

  lemma {:induction false} TickSum(cs: seq<nat>, b: nat)
    requires b < |cs|
    ensures SumCounts(cs[b := cs[b] + 1]) == SumCounts(cs) + 1
  {
    if b > 0 {
      TickSum(cs[1..], b - 1);
      assert cs[b := cs[b] + 1][1..] == cs[1..][b - 1 := cs[1..][b - 1] + 1];
    }
  }

  const NoCounts: seq<nat> := [0, 0, 0, 0, 0, 0, 0, 0, 0, 0]

  /** `np.histogram`'s range: the values' span, widened by a half on each side
      when all values are equal. */
  function HistogramRange(xs: seq<real>): (r: (real, real))
    requires |xs| > 0
    ensures r.0 < r.1
    ensures forall i :: 0 <= i < |xs| ==> r.0 <= xs[i] <= r.1
  {
    SortedEnds(xs);
    var s := Sort(xs);
    if s[0] == s[|s| - 1] then (s[0] - 0.5, s[0] + 0.5) else (s[0], s[|s| - 1])
  }

  /** The bin of one of 10 equal-width bins; the right edge belongs to the last bin. */
  function BinOf(x: real, lo: real, hi: real): (b: nat)
    requires lo < hi && lo <= x <= hi
    ensures b < 10
  {
    if x == hi then 9
    else
      var f := (x - lo) * 10.0 / (hi - lo);
      FractionBelow(x - lo, hi - lo);
      f.Floor
  }

  lemma FractionBelow(a: real, d: real)
    requires 0.0 <= a < d
    ensures 0.0 <= a * 10.0 / d < 10.0
  {
    assert (a * 10.0 / d) * d == a * 10.0;
    MulOrder(a * 10.0 / d, 0.0, d);
    MulOrder(10.0, a * 10.0 / d, d);
  }

  /** The bin counts of values that all lie in `[lo, hi]`. */
  function BinCounts(xs: seq<real>, lo: real, hi: real): (cs: seq<nat>)
    requires lo < hi
    requires forall i :: 0 <= i < |xs| ==> lo <= xs[i] <= hi
    ensures |cs| == 10 && SumCounts(cs) == |xs|
  {
    if |xs| == 0 then
      assert SumCounts(NoCounts) == 0;
      NoCounts
    else
      Tick(BinCounts(xs[..|xs| - 1], lo, hi), BinOf(xs[|xs| - 1], lo, hi))
  }

  /** 11 evenly spaced edges from `lo` to `hi`. */
  function BinEdges(lo: real, hi: real): (es: seq<real>)
    requires lo < hi
    ensures |es| == 11 && es[0] == lo && es[10] == hi
    ensures forall i, j :: 0 <= i < j < 11 ==> es[i] < es[j]
  {
    var es := seq(11, i requires 0 <= i < 11 => Edge(lo, hi, i));
    forall i, j | 0 <= i < j < 11 ensures es[i] < es[j] {
      assert es[i] == Edge(lo, hi, i) && es[j] == Edge(lo, hi, j);
      EdgesIncrease(lo, hi, i, j);
    }
    es
  }

  /** The `i`-th of the edges. */
  function Edge(lo: real, hi: real, i: nat): real {
    lo + (hi - lo) * (i as real) / 10.0
  }

  lemma EdgesIncrease(lo: real, hi: real, i: nat, j: nat)
    requires lo < hi && i < j
    ensures Edge(lo, hi, i) < Edge(lo, hi, j)
  {
    var d := hi - lo;
    var x, y := d * (i as real), d * (j as real);
    MulOrder(i as real, j as real, d);
    assert x < y;
    assert Edge(lo, hi, i) == lo + x / 10.0 && Edge(lo, hi, j) == lo + y / 10.0;
  }

  /** `np.histogram(values, bins=10)`: every value is counted once, and the
      edges run from the range's low end to its high end. */
  function Histogram(xs: seq<real>): (h: (seq<nat>, seq<real>))
    requires |xs| > 0
    ensures |h.0| == 10 && SumCounts(h.0) == |xs|
    ensures |h.1| == 11 && forall i :: 0 <= i < |xs| ==> h.1[0] <= xs[i] <= h.1[10]
    ensures forall i, j :: 0 <= i < j < 11 ==> h.1[i] < h.1[j]
  {
    var r := HistogramRange(xs);
    (BinCounts(xs, r.0, r.1), BinEdges(r.0, r.1))
  }
}
