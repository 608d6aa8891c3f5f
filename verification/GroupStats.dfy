/** Mean and standard deviation of scores by group, from one pass over the scores. Scores are real
    numbers; a standard deviation stands here as its square. */
module GroupStats {
  import opened Options
  import opened Reals
  import opened Sequences

  datatype Fault = ValueError

  datatype Stats = Stats(mean: seq<real>, variance: seq<real>, count: seq<real>)

  // ----- sums over a list -----

  function Total(xs: seq<real>, f: real -> real): real {
    if xs == [] then 0.0 else Total(xs[..|xs| - 1], f) + f(xs[|xs| - 1])
  }

  function Itself(x: real): real {
    x
  }

  function Square(x: real): real {
    x * x
  }

  function Deviation(mean: real): real -> real {
    x => (x - mean) * (x - mean)
  }

  function Sum(xs: seq<real>): real {
    Total(xs, Itself)
  }

  function SumOfSquares(xs: seq<real>): real {
    Total(xs, Square)
  }

  /** The two-pass numerator: squared deviations from the mean. */
  function Spread(xs: seq<real>): real
    requires xs != []
  {
    Total(xs, Deviation(Sum(xs) / |xs| as real))
  }

  /** The sum of squared deviations from m, multiplied out. */
  function Expanded(s2: real, s1: real, n: real, m: real): real {
    s2 - 2.0 * m * s1 + n * (m * m)
  }

  lemma {:induction false} DeviationExpands(xs: seq<real>, m: real)
    ensures Total(xs, Deviation(m)) == Expanded(SumOfSquares(xs), Sum(xs), |xs| as real, m)
  {
    hide Expanded;
    if xs == [] {
      NothingExpanded(m);
    } else {
      var front, x := xs[..|xs| - 1], xs[|xs| - 1];
      DeviationExpands(front, m);
      assert |xs| as real == |front| as real + 1.0;
      ExpandedStep(SumOfSquares(front), Sum(front), |front| as real, m, x);
    }
  }

  lemma NothingExpanded(m: real)
    ensures Expanded(0.0, 0.0, 0.0, m) == 0.0
  {
  }

  lemma ExpandedStep(s2: real, s1: real, n: real, m: real, x: real)
    ensures Expanded(s2 + Square(x), s1 + Itself(x), n + 1.0, m) == Expanded(s2, s1, n, m) + Deviation(m)(x)
  {
  }

  /** The one-pass numerator is the two-pass one. */
  lemma OnePassIsTwoPass(xs: seq<real>)
    requires xs != []
    ensures SumOfSquares(xs) - Sum(xs) * Sum(xs) / |xs| as real == Spread(xs)
    ensures Spread(xs) >= 0.0
  {
    var s1, n := Sum(xs), |xs| as real;
    var m := s1 / n;
    DeviationExpands(xs, m);
    MeanTerms(SumOfSquares(xs), s1, n, m);
    SpreadNonNegative(xs, m);
  }

  lemma MeanTerms(s2: real, s1: real, n: real, m: real)
    requires n > 0.0 && m == s1 / n
    ensures s2 - s1 * s1 / n == Expanded(s2, s1, n, m)
  {
    assert m * n == s1;
    assert s1 * s1 / n == m * s1 by {
      assert m * s1 * n == s1 * s1;
    }
    assert n * (m * m) == m * s1;
  }

  lemma {:induction false} SpreadNonNegative(xs: seq<real>, m: real)
    ensures Total(xs, Deviation(m)) >= 0.0
  {
    if xs != [] {
      SpreadNonNegative(xs[..|xs| - 1], m);
      var d := xs[|xs| - 1] - m;
      assert d * d >= 0.0;
    }
  }

  // ----- groups -----

  /** The scores of one group, in order. */
  function Members(scores: seq<real>, gidx: seq<nat>, g: nat): seq<real>
    requires |scores| == |gidx|
  {
    if scores == [] then []
    else
      var n := |scores| - 1;
      Members(scores[..n], gidx[..n], g) + if gidx[n] == g then [scores[n]] else []
  }

  lemma MembersStep(scores: seq<real>, gidx: seq<nat>, g: nat, n: nat)
    requires |scores| == |gidx| && n < |scores|
    ensures Members(scores[..n + 1], gidx[..n + 1], g) == Members(scores[..n], gidx[..n], g) +
              if gidx[n] == g then [scores[n]] else []
  {
    assert scores[..n + 1][..n] == scores[..n] && gidx[..n + 1][..n] == gidx[..n];
  }

  lemma TotalAppend(xs: seq<real>, x: real, f: real -> real)
    ensures Total(xs + [x], f) == Total(xs, f) + f(x)
  {
    assert (xs + [x])[..|xs|] == xs;
  }

  /** The number of groups: one more than the largest index. */
  function Groups(gidx: seq<nat>): (n: nat)
    ensures forall i :: 0 <= i < |gidx| ==> gidx[i] < n
    ensures n > 0 ==> exists i :: 0 <= i < |gidx| && gidx[i] == n - 1
  {
    if gidx == [] then 0
    else
      var front := gidx[..|gidx| - 1];
      var n := Groups(front);
      assert forall i :: 0 <= i < |front| ==> front[i] == gidx[i];
      if gidx[|gidx| - 1] >= n then gidx[|gidx| - 1] + 1 else n
  }

  function SumSizes(scores: seq<real>, gidx: seq<nat>, n: nat): nat
    requires |scores| == |gidx|
  {
    if n == 0 then 0 else SumSizes(scores, gidx, n - 1) + |Members(scores, gidx, n - 1)|
  }

  /** The groups' sizes add up to the number of scores. */
  lemma {:induction false} SizesAddUp(scores: seq<real>, gidx: seq<nat>, n: nat)
    requires |scores| == |gidx| && forall i :: 0 <= i < |gidx| ==> gidx[i] < n
    ensures SumSizes(scores, gidx, n) == |scores|
    decreases |scores|
  {
    if scores == [] {
      NoSizes(n);
    } else {
      var k := |scores| - 1;
      SizesAddUp(scores[..k], gidx[..k], n);
      OneMoreSize(scores, gidx, n);
    }
  }

  lemma {:induction false} NoSizes(n: nat)
    ensures SumSizes([], [], n) == 0
  {
    if n > 0 {
      NoSizes(n - 1);
    }
  }

  lemma {:induction false} OneMoreSize(scores: seq<real>, gidx: seq<nat>, n: nat)
    requires |scores| == |gidx| && scores != []
    ensures var k := |scores| - 1;
            SumSizes(scores, gidx, n) == SumSizes(scores[..k], gidx[..k], n) + if gidx[k] < n then 1 else 0
  {
    if n > 0 {
      OneMoreSize(scores, gidx, n - 1);
    }
  }

  // ----- the order of the scores does not matter -----

  function Pairs(scores: seq<real>, gidx: seq<nat>): (r: seq<(real, nat)>)
    requires |scores| == |gidx|
    ensures |r| == |scores|
  {
    if scores == [] then []
    else Pairs(scores[..|scores| - 1], gidx[..|scores| - 1]) + [(scores[|scores| - 1], gidx[|scores| - 1])]
  }

  lemma {:induction false} MembersCount(scores: seq<real>, gidx: seq<nat>, g: nat, x: real)
    requires |scores| == |gidx|
    ensures multiset(Members(scores, gidx, g))[x] == multiset(Pairs(scores, gidx))[(x, g)]
  {
    if scores != [] {
      var n := |scores| - 1;
      MembersCount(scores[..n], gidx[..n], g, x);
    }
  }

  lemma TotalSplit(a: seq<real>, b: seq<real>, f: real -> real)
    ensures Total(a + b, f) == Total(a, f) + Total(b, f)
    decreases |b|
  {
    if b == [] {
      assert a + b == a;
    } else {
      var front := b[..|b| - 1];
      assert (a + b)[..|a + b| - 1] == a + front;
      TotalSplit(a, front, f);
    }
  }

  lemma TotalAround(lo: seq<real>, x: real, hi: seq<real>, f: real -> real)
    ensures Total(lo + [x] + hi, f) == Total(lo + hi, f) + f(x)
  {
    hide Total;
    TotalSplit(lo, hi, f);
    TotalSplit(lo + [x], hi, f);
    TotalAppend(lo, x, f);
  }

  /** A sum depends on the values only, not on their order. */
  lemma {:induction false} TotalPermutes(a: seq<real>, b: seq<real>, f: real -> real)
    requires multiset(a) == multiset(b)
    ensures Total(a, f) == Total(b, f) && |a| == |b|
    decreases |a|
  {
    hide Total;
    assert |multiset(a)| == |a| && |multiset(b)| == |b|;
    if a == [] {
      assert b == [];
    } else {
      var front, x := a[..|a| - 1], a[|a| - 1];
      assert a == front + [x];
      assert x in multiset(b);
      var i :| 0 <= i < |b| && b[i] == x;
      var lo, hi := b[..i], b[i + 1..];
      assert b == lo + [x] + hi;
      TakenOut(front, x, lo, hi);
      TotalPermutes(front, lo + hi, f);
      TotalAppend(front, x, f);
      TotalAround(lo, x, hi, f);
    }
  }

  /** Permuting scores together with their groups changes no group's statistics. */
  lemma OrderDoesNotMatter(scores: seq<real>, gidx: seq<nat>, scores': seq<real>, gidx': seq<nat>, g: nat)
    requires |scores| == |gidx| && |scores'| == |gidx'|
    requires multiset(Pairs(scores, gidx)) == multiset(Pairs(scores', gidx'))
    ensures var a, b := Members(scores, gidx, g), Members(scores', gidx', g);
            && |a| == |b| && Sum(a) == Sum(b) && SumOfSquares(a) == SumOfSquares(b)
            && (a != [] ==> Spread(a) == Spread(b))
  {
    var a, b := Members(scores, gidx, g), Members(scores', gidx', g);
    forall x
      ensures multiset(a)[x] == multiset(b)[x]
    {
      MembersCount(scores, gidx, g, x);
      MembersCount(scores', gidx', g, x);
    }
    assert multiset(a) == multiset(b);
    TotalPermutes(a, b, Itself);
    TotalPermutes(a, b, Square);
    if a != [] {
      TotalPermutes(a, b, Deviation(Sum(a) / |a| as real));
    }
  }

  // ----- the one-pass computation -----

  /** `index_add_`: every value is added to the cell its index names. */
  method IndexAdd(cells: array<real>, gidx: seq<nat>, values: seq<real>)
    requires |values| == |gidx| && forall i :: 0 <= i < |gidx| ==> gidx[i] < cells.Length
    modifies cells
    ensures forall g :: 0 <= g < cells.Length ==> cells[g] == old(cells[g]) + Sum(Members(values, gidx, g))
  {
    hide Total, Members;
    NoMembers();
    assert values[..0] == [] && gidx[..0] == [];
    for i := 0 to |values|
      invariant forall g :: 0 <= g < cells.Length ==>
                  cells[g] == old(cells[g]) + Sum(Members(values[..i], gidx[..i], g))
    {
      forall g | 0 <= g < cells.Length
        ensures Sum(Members(values[..i + 1], gidx[..i + 1], g)) ==
                Sum(Members(values[..i], gidx[..i], g)) + if gidx[i] == g then values[i] else 0.0
      {
        MembersStep(values, gidx, g, i);
        TotalAppend(Members(values[..i], gidx[..i], g), values[i], Itself);
        assert Members(values[..i], gidx[..i], g) + [] == Members(values[..i], gidx[..i], g);
      }
      cells[gidx[i]] := cells[gidx[i]] + values[i];
    }
    assert values[..|values|] == values && gidx[..|gidx|] == gidx;
  }

  lemma NoMembers()
    ensures forall g :: Sum(Members([], [], g)) == 0.0
  {
  }

  lemma {:induction false} OnesCount(scores: seq<real>, ones: seq<real>, gidx: seq<nat>, g: nat)
    requires |scores| == |ones| == |gidx| && forall i :: 0 <= i < |ones| ==> ones[i] == 1.0
    ensures Sum(Members(ones, gidx, g)) == |Members(scores, gidx, g)| as real
  {
    if scores != [] {
      var n := |scores| - 1;
      var before := Members(ones[..n], gidx[..n], g);
      OnesCount(scores[..n], ones[..n], gidx[..n], g);
      TotalAppend(before, 1.0, Itself);
      assert Members(ones, gidx, g) == if gidx[n] == g then before + [1.0] else before;
    }
  }

  lemma {:induction false} SquaresSum(scores: seq<real>, squares: seq<real>, gidx: seq<nat>, g: nat)
    requires |scores| == |squares| == |gidx| && forall i :: 0 <= i < |scores| ==> squares[i] == scores[i] * scores[i]
    ensures Sum(Members(squares, gidx, g)) == SumOfSquares(Members(scores, gidx, g))
  {
    if scores != [] {
      var n := |scores| - 1;
      var before, scoresBefore := Members(squares[..n], gidx[..n], g), Members(scores[..n], gidx[..n], g);
      SquaresSum(scores[..n], squares[..n], gidx[..n], g);
      TotalAppend(before, squares[n], Itself);
      TotalAppend(scoresBefore, scores[n], Square);
      assert Members(squares, gidx, g) == if gidx[n] == g then before + [squares[n]] else before;
      assert Members(scores, gidx, g) == if gidx[n] == g then scoresBefore + [scores[n]] else scoresBefore;
    }
  }

  /** What the statistics of one group should be: the textbook mean and sample variance, floored. */
  predicate GroupIs(xs: seq<real>, eps: real, mean: real, variance: real, count: real) {
    && count == |xs| as real
    && (|xs| <= 1 ==> mean == 0.0 && variance == 1.0)
    && (|xs| > 1 ==> mean == Sum(xs) / |xs| as real && variance == Max(Spread(xs) / (|xs| - 1) as real, eps))
  }

  function Less(mean: real): real -> real {
    x => x - mean
  }

  lemma {:induction false} LessSum(xs: seq<real>, m: real)
    ensures Total(xs, Less(m)) == Sum(xs) - |xs| as real * m
  {
    if xs != [] {
      LessSum(xs[..|xs| - 1], m);
      var n := (|xs| - 1) as real;
      assert |xs| as real == n + 1.0 && (n + 1.0) * m == n * m + m;
    }
  }

  lemma QuotientTimes(a: real, b: real)
    requires b != 0.0
    ensures b * (a / b) == a
  {
  }

  lemma GroupStandard(xs: seq<real>, eps: real, mean: real, variance: real, count: real)
    requires GroupIs(xs, eps, mean, variance, count)
    ensures |xs| > 1 ==>
              && Total(xs, Less(mean)) == 0.0
              && variance >= eps
              && Total(xs, Deviation(mean)) <= (|xs| - 1) as real * variance
              && (variance > eps ==> Total(xs, Deviation(mean)) == (|xs| - 1) as real * variance)
    ensures |xs| == 1 ==> (xs[0] - mean) / variance == xs[0]
  {
    hide Total, Sum, SumOfSquares, Spread;
    if |xs| > 1 {
      MeanCentres(xs);
      SpreadIs(xs);
      Floored(Spread(xs), (|xs| - 1) as real, eps, variance);
    }
  }

  lemma MeanCentres(xs: seq<real>)
    requires xs != []
    ensures Total(xs, Less(Sum(xs) / |xs| as real)) == 0.0
  {
    hide Total, Sum;
    var m := Sum(xs) / |xs| as real;
    LessSum(xs, m);
    QuotientTimes(Sum(xs), |xs| as real);
  }

  lemma SpreadIs(xs: seq<real>)
    requires xs != []
    ensures Spread(xs) == Total(xs, Deviation(Sum(xs) / |xs| as real))
  {
  }

  lemma Floored(spread: real, n: real, eps: real, variance: real)
    requires n > 0.0 && variance == Max(spread / n, eps)
    ensures variance >= eps && spread <= n * variance && (variance > eps ==> spread == n * variance)
  {
    var v := spread / n;
    QuotientTimes(spread, n);
    if variance > v {
      assert n * (variance - v) >= 0.0;
    }
  }

  /** One group's entries, from its three sums. */
  method Entry(count: real, s1: real, s2: real, eps: real, ghost xs: seq<real>) returns (mean: real, variance: real)
    requires count == |xs| as real && s1 == Sum(xs) && s2 == SumOfSquares(xs)
    ensures GroupIs(xs, eps, mean, variance, count)
  {
    hide Sum, SumOfSquares, Spread;
    mean := s1 / Max(count, 1.0);
    var varNum := s2 - s1 * s1 / Max(count, 1.0);
    var denom := Max(count - 1.0, 1.0);
    variance := Max(varNum / denom, eps);
    if count <= 1.0 {
      mean, variance := 0.0, 1.0;
    } else {
      OnePassIsTwoPass(xs);
      assert Max(count, 1.0) == count && denom == (|xs| - 1) as real;
      assert varNum == Spread(xs);
    }
  }

  /** The statistics of every group, one entry a group. */
  predicate StatsAre(scores: seq<real>, gidx: seq<nat>, eps: real, s: Stats)
    requires |scores| == |gidx|
  {
    && |s.mean| == |s.variance| == |s.count| == Groups(gidx)
    && forall g :: 0 <= g < Groups(gidx) ==>
      GroupIs(Members(scores, gidx, g), eps, s.mean[g], s.variance[g], s.count[g])
  }

  /** What the statistics are for: the scores of a group less their mean add up to nothing, and the squares of
      those add up to the variance once for every score but one, unless the variance was raised to eps. A
      score alone in its group is left as it is. */
  lemma StandardScores(scores: seq<real>, gidx: seq<nat>, eps: real, s: Stats, g: nat)
    requires |scores| == |gidx| && StatsAre(scores, gidx, eps, s) && g < Groups(gidx)
    ensures g < |s.mean| && g < |s.variance| && g < |s.count|
    ensures var xs, mean, variance := Members(scores, gidx, g), s.mean[g], s.variance[g];
            && s.count[g] == |xs| as real
            && (|xs| > 1 ==>
                  && Total(xs, Less(mean)) == 0.0
                  && variance >= eps
                  && Total(xs, Deviation(mean)) <= (|xs| - 1) as real * variance
                  && (variance > eps ==> Total(xs, Deviation(mean)) == (|xs| - 1) as real * variance))
            && (|xs| == 1 ==> variance != 0.0 && (xs[0] - mean) / variance == xs[0])
  {
    hide Total, Members, Groups;
    var xs := Members(scores, gidx, g);
    assert GroupIs(xs, eps, s.mean[g], s.variance[g], s.count[g]);
    GroupStandard(xs, eps, s.mean[g], s.variance[g], s.count[g]);
    GroupOfOne(xs, eps, s.mean[g], s.variance[g], s.count[g]);
  }

  lemma GroupOfOne(xs: seq<real>, eps: real, mean: real, variance: real, count: real)
    requires GroupIs(xs, eps, mean, variance, count)
    ensures count == |xs| as real && (|xs| == 1 ==> variance == 1.0)
  {
  }

  /** `group_mean_std`. */
  method GroupMeanStd(scores: seq<real>, gidx: seq<nat>, eps: real) returns (r: Result<Stats, Fault>)
    ensures r.Failure? <==> |scores| != |gidx|
    ensures r.Success? ==> StatsAre(scores, gidx, eps, r.value)
  {
    hide Total, Members, GroupIs;
    if |scores| != |gidx| {
      return Failure(ValueError);
    }
    var n := Groups(gidx);
    if n == 0 {
      return Success(Stats([], [], []));
    }
    var ones := seq(|scores|, _ => 1.0);
    var squares := seq(|scores|, i requires 0 <= i < |scores| => scores[i] * scores[i]);
    var count := GroupSums(n, gidx, ones);
    var s1 := GroupSums(n, gidx, scores);
    var s2 := GroupSums(n, gidx, squares);
    var mean: seq<real>, variance: seq<real> := [], [];
    for g := 0 to n
      invariant |mean| == |variance| == g
      invariant forall h :: 0 <= h < g ==> GroupIs(Members(scores, gidx, h), eps, mean[h], variance[h], count[h])
    {
      OnesCount(scores, ones, gidx, g);
      SquaresSum(scores, squares, gidx, g);
      var m, v := Entry(count[g], s1[g], s2[g], eps, Members(scores, gidx, g));
      mean, variance := mean + [m], variance + [v];
    }
    return Success(Stats(mean, variance, count));
  }

  /** A zero tensor with one cell a group, after `index_add_`. */
  method GroupSums(n: nat, gidx: seq<nat>, values: seq<real>) returns (sums: seq<real>)
    requires |values| == |gidx| && forall i :: 0 <= i < |gidx| ==> gidx[i] < n
    ensures |sums| == n && forall g :: 0 <= g < n ==> sums[g] == Sum(Members(values, gidx, g))
  {
    hide Total, Members;
    var cells := new real[n](_ => 0.0);
    IndexAdd(cells, gidx, values);
    return cells[..];
  }

  lemma {:induction false} PairsAt(scores: seq<real>, gidx: seq<nat>, i: nat)
    requires |scores| == |gidx| && i < |scores|
    ensures Pairs(scores, gidx)[i] == (scores[i], gidx[i])
  {
    if i < |scores| - 1 {
      PairsAt(scores[..|scores| - 1], gidx[..|gidx| - 1], i);
    }
  }

  /** The highest group of one list is a group of its permutation. */
  lemma GroupsBound(scores: seq<real>, gidx: seq<nat>, scores': seq<real>, gidx': seq<nat>)
    requires |scores| == |gidx| && |scores'| == |gidx'|
    requires multiset(Pairs(scores, gidx)) == multiset(Pairs(scores', gidx'))
    ensures Groups(gidx) <= Groups(gidx')
  {
    hide Groups;
    if Groups(gidx) > 0 {
      var i :| 0 <= i < |gidx| && gidx[i] == Groups(gidx) - 1;
      PairsAt(scores, gidx, i);
      assert Pairs(scores, gidx)[i] in multiset(Pairs(scores', gidx'));
      var j :| 0 <= j < |scores'| && Pairs(scores', gidx')[j] == (scores[i], gidx[i]);
      PairsAt(scores', gidx', j);
    }
  }

  /** Permuting scores together with their groups changes nothing in the result. */
  lemma ResultIgnoresOrder(scores: seq<real>, gidx: seq<nat>, scores': seq<real>, gidx': seq<nat>, eps: real,
                           s: Stats, s': Stats)
    requires |scores| == |gidx| && |scores'| == |gidx'|
    requires multiset(Pairs(scores, gidx)) == multiset(Pairs(scores', gidx'))
    requires StatsAre(scores, gidx, eps, s) && StatsAre(scores', gidx', eps, s')
    ensures s == s'
  {
    hide Groups, Members, Sum, SumOfSquares, Spread, Pairs;
    GroupsBound(scores, gidx, scores', gidx');
    GroupsBound(scores', gidx', scores, gidx);
    forall g | 0 <= g < Groups(gidx)
      ensures s.mean[g] == s'.mean[g] && s.variance[g] == s'.variance[g] && s.count[g] == s'.count[g]
    {
      OrderDoesNotMatter(scores, gidx, scores', gidx', g);
    }
    assert s.mean == s'.mean && s.variance == s'.variance && s.count == s'.count;
  }
}
