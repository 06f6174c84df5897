/** `_auc` of scripts/evaluate_scenarios.py: a rank sum that is the Mann-Whitney count. */
module RankAuc {
  import opened Wrappers
  import opened Ranks
  import Sequences

  /** The distinct values. */
  function Unique(s: seq<real>): (unique: seq<real>)
    ensures forall x :: x in unique <==> x in s
    ensures forall i, j | 0 <= i < j < |unique| :: unique[i] != unique[j]
  {
    if s == [] then []
    else
      var front := Unique(s[..|s| - 1]);
      assert s == s[..|s| - 1] + [s[|s| - 1]];
      if s[|s| - 1] in front then front else front + [s[|s| - 1]]
  }

  /** `data` where the value is `x`, and 0 elsewhere. */
  function Masked(values: seq<real>, data: seq<real>, x: real): seq<real>
    requires |values| == |data|
  {
    seq(|values|, p requires 0 <= p < |values| => if values[p] == x then data[p] else 0.0)
  }

  function Ones(n: nat): seq<real> { seq(n, p requires 0 <= p < n => 1.0) }

  /** k + 1 in the block and 0 outside it. */
  function Ramp(n: nat, low: nat, high: nat): seq<real> {
    seq(n, k requires 0 <= k < n => if low <= k < high then (k + 1) as real else 0.0)
  }

  lemma {:induction false} RampSum(n: nat, low: nat, high: nat)
    requires low <= high <= n
    ensures Sum(Ramp(n, low, high)) == ((high - low) * (low + high + 1)) as real / 2.0
    decreases n
  {
    if n > 0 {
      var h, l := if high == n then n - 1 else high, if low == n then n - 1 else low;
      assert Ramp(n, low, high)[..n - 1] == Ramp(n - 1, l, h);
      RampSum(n - 1, l, h);
      if high == n && low < n {
        assert (n - low) * (low + n + 1) == (n - 1 - low) * (low + n) + 2 * n;
      }
    }
  }

  function Step(n: nat, low: nat, high: nat): seq<real> {
    seq(n, k requires 0 <= k < n => if low <= k < high then 1.0 else 0.0)
  }

  lemma {:induction false} StepSum(n: nat, low: nat, high: nat)
    requires low <= high <= n
    ensures Sum(Step(n, low, high)) == (high - low) as real
  {
    if n > 0 {
      var h, l := if high == n then n - 1 else high, if low == n then n - 1 else low;
      assert Step(n, low, high)[..n - 1] == Step(n - 1, l, h);
      StepSum(n - 1, l, h);
    }
  }

  /** The count and the total of the ordinal ranks tied at `x`, read off its block. */
  lemma TiedSums(values: seq<real>, order: seq<nat>, ranks: seq<real>, x: real, low: nat, high: nat)
    requires Permutes(order, |values|) && |ranks| == |values| && Block(Pick(values, order), x, low, high)
    requires forall k | low <= k < high :: ranks[order[k]] == (k + 1) as real
    ensures Sum(Masked(values, Ones(|values|), x)) == (high - low) as real
    ensures Sum(Masked(values, ranks, x)) == ((high - low) * (low + high + 1)) as real / 2.0
  {
    var n := |values|;
    PermutedSum(Masked(values, Ones(n), x), order);
    PermutedSum(Masked(values, ranks, x), order);
    assert forall k | 0 <= k < n :: Pick(values, order)[k] == values[order[k]];
    assert Pick(Masked(values, Ones(n), x), order) == Step(n, low, high);
    assert Pick(Masked(values, ranks, x), order) == Ramp(n, low, high);
    StepSum(n, low, high);
    RampSum(n, low, high);
  }

  lemma MeanOfBlock(low: nat, high: nat, count: nat, total: real)
    requires low < high && count == high - low && total == ((high - low) * (low + high + 1)) as real / 2.0
    ensures total / count as real == (low + high + 1) as real / 2.0
  {
    var size, ends := (high - low) as real, (low + high + 1) as real;
    assert ((high - low) * (low + high + 1)) as real == size * ends;
    assert size * ends / 2.0 / size == ends / 2.0;
  }

  /** While the ties are averaged: the values already `done` have their mid-rank, the others still their
      place in the order. */
  ghost predicate Averaging(values: seq<real>, order: seq<nat>, done: seq<real>, ranks: seq<real>) {
    && Permutes(order, |values|) && |ranks| == |values|
    && forall k | 0 <= k < |order| ::
         ranks[order[k]] == if values[order[k]] in done then MidRank(values, values[order[k]]) else (k + 1) as real
  }

  /** `ranks[tied] = ranks[tied].mean()` is the mid-rank. */
  lemma TiedMean(values: seq<real>, order: seq<nat>, done: seq<real>, ranks: seq<real>, x: real, count: nat,
                 total: real)
    requires Averaging(values, order, done, ranks) && Sequences.Ascending(Pick(values, order))
    requires x !in done && x in values
    requires count as real == Sum(Masked(values, Ones(|values|), x)) && total == Sum(Masked(values, ranks, x))
    ensures count > 0 && total / count as real == MidRank(values, x)
    ensures count == 1 ==> forall p | 0 <= p < |values| && values[p] == x :: ranks[p] == MidRank(values, x)
  {
    var t := Pick(values, order);
    var low, high := BlockExists(t, x);
    forall k | low <= k < high ensures ranks[order[k]] == (k + 1) as real {
      assert t[k] == x && values[order[k]] == x;
    }
    TiedSums(values, order, ranks, x, low, high);
    var p :| 0 <= p < |values| && values[p] == x;
    assert Has(order, p);
    var k :| 0 <= k < |order| && order[k] == p;
    assert t[k] == x && low <= k < high;
    MidRankOfBlock(values, order, x, low, high);
    MeanOfBlock(low, high, count, total);
    forall q | 0 <= q < |values| && values[q] == x && count == 1 ensures ranks[q] == MidRank(values, x) {
      assert Has(order, q);
      var m :| 0 <= m < |order| && order[m] == q;
      assert t[m] == x;
    }
  }

  lemma AveragedMore(values: seq<real>, order: seq<nat>, done: seq<real>, x: real, before: seq<real>, after: seq<real>)
    requires Averaging(values, order, done, before) && |after| == |before|
    requires forall p | 0 <= p < |values| :: after[p] == if values[p] == x then MidRank(values, x) else before[p]
    ensures Averaging(values, order, done + [x], after)
  {}

  /** The tied entries: how many, and their total. */
  method Tied(values: seq<real>, ranks: array<real>, x: real) returns (count: nat, total: real)
    requires ranks.Length == |values|
    ensures count as real == Sum(Masked(values, Ones(|values|), x)) && total == Sum(Masked(values, ranks[..], x))
  {
    count, total := 0, 0.0;
    ghost var n := |values|;
    for p := 0 to |values|
      invariant count as real == Sum(Masked(values, Ones(n), x)[..p]) && total == Sum(Masked(values, ranks[..], x)[..p])
    {
      assert Masked(values, Ones(n), x)[..p + 1][..p] == Masked(values, Ones(n), x)[..p];
      assert Masked(values, ranks[..], x)[..p + 1][..p] == Masked(values, ranks[..], x)[..p];
      if values[p] == x {
        count, total := count + 1, total + ranks[p];
      }
    }
    assert Masked(values, Ones(n), x)[..n] == Masked(values, Ones(n), x);
    assert Masked(values, ranks[..], x)[..n] == Masked(values, ranks[..], x);
  }

  method SetTied(values: seq<real>, ranks: array<real>, x: real, mean: real)
    requires ranks.Length == |values|
    modifies ranks
    ensures forall p | 0 <= p < |values| :: ranks[p] == if values[p] == x then mean else old(ranks[p])
  {
    for p := 0 to |values|
      invariant forall q | 0 <= q < p :: ranks[q] == if values[q] == x then mean else old(ranks[q])
      invariant forall q | p <= q < |values| :: ranks[q] == old(ranks[q])
    {
      if values[p] == x {
        ranks[p] := mean;
      }
    }
  }

  /** `ranks[order] = arange(1, n + 1)`. */
  method Ordinal(order: seq<nat>) returns (ranks: array<real>)
    requires Permutes(order, |order|)
    ensures fresh(ranks) && ranks.Length == |order|
    ensures forall k | 0 <= k < |order| :: ranks[order[k]] == (k + 1) as real
  {
    ranks := new real[|order|];
    for k := 0 to |order|
      invariant forall j | 0 <= j < k :: ranks[order[j]] == (j + 1) as real
    {
      ranks[order[k]] := (k + 1) as real;
    }
  }

  /** The tie-averaged ranks are the mid-ranks. */
  method AveragedRanks(values: seq<real>) returns (ranks: array<real>)
    ensures fresh(ranks) && ranks[..] == MidRanks(values)
  {
    var order := ArgSort(values);
    ArgSortSorts(values);
    ranks := Ordinal(order);
    var unique := Unique(values);
    for u := 0 to |unique|
      invariant fresh(ranks) && ranks.Length == |values| && Averaging(values, order, unique[..u], ranks[..])
    {
      var x := unique[u];
      assert x in unique && x !in unique[..u];
      var count, total := Tied(values, ranks, x);
      ghost var before := ranks[..];
      TiedMean(values, order, unique[..u], before, x, count, total);
      if count > 1 {
        SetTied(values, ranks, x, total / count as real);
      }
      AveragedMore(values, order, unique[..u], x, before, ranks[..]);
      assert unique[..u + 1] == unique[..u] + [x];
    }
    AllAveraged(values, order, unique, ranks[..]);
  }

  lemma AllAveraged(values: seq<real>, order: seq<nat>, unique: seq<real>, ranks: seq<real>)
    requires Averaging(values, order, unique[..|unique|], ranks) && forall x | x in values :: x in unique
    ensures ranks == MidRanks(values)
  {
    assert unique[..|unique|] == unique;
    forall p | 0 <= p < |values| ensures ranks[p] == MidRank(values, values[p]) {
      assert Has(order, p);
      var k :| 0 <= k < |order| && order[k] == p;
      assert values[p] in values;
    }
  }

  // ---- the Mann-Whitney count ---------------------------------------------------------

  /** Pairs with the positive above the negative, and half the tied pairs. */
  function Wins(positive: seq<real>, negative: seq<real>): real { Sum(Rows(positive, negative)) }

  /** `_auc`; None is the NaN of an empty side. */
  method Auc(positive: seq<real>, negative: seq<real>) returns (r: Option<real>)
    ensures r.None? <==> positive == [] || negative == []
    ensures r.Some? ==> r.value == Wins(positive, negative) / (|positive| * |negative|) as real
  {
    if positive == [] || negative == [] {
      return None;
    }
    var ranks := AveragedRanks(positive + negative);
    var total, m := 0.0, |positive|;
    for p := 0 to m
      invariant total == Sum(ranks[..p])
    {
      assert ranks[..p + 1][..p] == ranks[..p];
      total := total + ranks[p];
    }
    RankSum(positive, negative);
    assert |positive| * |negative| > 0;
    r := Some((total - (m * (m + 1)) as real / 2.0) / (m * |negative|) as real);
  }

  lemma RankSum(positive: seq<real>, negative: seq<real>)
    ensures Sum(MidRanks(positive + negative)[..|positive|]) - (|positive| * (|positive| + 1)) as real / 2.0
         == Wins(positive, negative)
  {
    var m := |positive|;
    var ranks := MidRanks(positive + negative)[..m];
    var within := MidRanks(positive);
    forall i | 0 <= i < m ensures ranks[i] == within[i] + Rows(positive, negative)[i] {
      assert Scores(positive + negative, positive[i]) == Scores(positive, positive[i]) + Scores(negative, positive[i]);
      SumJoin(Scores(positive, positive[i]), Scores(negative, positive[i]));
    }
    SumAdd(within, Rows(positive, negative), ranks);
    MidRanksTotal(positive);
  }

  lemma WinsBounded(positive: seq<real>, negative: seq<real>)
    ensures 0.0 <= Wins(positive, negative) <= (|positive| * |negative|) as real
  {
    forall i | 0 <= i < |positive| ensures 0.0 <= Rows(positive, negative)[i] <= |negative| as real {
      SumBounds(Scores(negative, positive[i]), 0.0, 1.0);
    }
    SumBounds(Rows(positive, negative), 0.0, |negative| as real);
    assert (|negative| * |positive|) as real == |negative| as real * |positive| as real;
  }

  lemma RowsAppend(s: seq<real>, y: real, t: seq<real>)
    ensures Sum(Rows(s + [y], t)) == Sum(Rows(s, t)) + Sum(Scores(t, y))
  {
    assert Rows(s + [y], t) == Rows(s, t) + [Sum(Scores(t, y))];
    SumMore(Rows(s, t), Sum(Scores(t, y)));
  }

  /** One more negative: against each positive it wins, loses or ties. */
  lemma OneMoreNegative(positive: seq<real>, front: seq<real>, y: real)
    ensures Wins(positive, front + [y]) + Wins(front + [y], positive)
         == Wins(positive, front) + Wins(front, positive) + |positive| as real
  {
    hide Sum;
    RowsMore(positive, front, y);
    RowsAppend(front, y, positive);
    ScoresOpposed(positive, y);
  }

  /** Swapping the two sides turns the count around. */
  lemma {:induction false} WinsReversed(positive: seq<real>, negative: seq<real>)
    ensures Wins(positive, negative) + Wins(negative, positive) == (|positive| * |negative|) as real
  {
    if negative == [] {
      SumConstant(Rows(positive, negative), 0.0);
    } else {
      var front, y := negative[..|negative| - 1], negative[|negative| - 1];
      WinsReversed(positive, front);
      assert negative == front + [y];
      OneMoreNegative(positive, front, y);
      Grow(|positive|, |front|);
    }
  }

  lemma Grow(m: nat, n: nat)
    ensures (m * (n + 1)) as real == (m * n) as real + m as real
  {
    assert m * (n + 1) == m * n + m;
  }

  /** An AUC lies in [0, 1], and the AUC the other way round is its complement. */
  lemma AucRange(positive: seq<real>, negative: seq<real>)
    requires positive != [] && negative != []
    ensures var pairs := (|positive| * |negative|) as real;
      && 0.0 <= Wins(positive, negative) / pairs <= 1.0
      && Wins(positive, negative) / pairs + Wins(negative, positive) / pairs == 1.0
  {
    WinsBounded(positive, negative);
    WinsReversed(positive, negative);
    var pairs := |positive| * |negative|;
    assert pairs > 0;
    Fraction(Wins(positive, negative), Wins(negative, positive), pairs as real);
  }

  lemma Fraction(a: real, b: real, n: real)
    requires n > 0.0 && 0.0 <= a <= n && a + b == n
    ensures 0.0 <= a / n <= 1.0 && a / n + b / n == 1.0
  {
    assert a / n + b / n == (a + b) / n;
  }
}
