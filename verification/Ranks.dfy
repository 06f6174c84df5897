/** Mid-ranks: the tie-averaged ranks of scripts/evaluate_scenarios.py and scripts/phase5b_compare.py,
    both against one definition. Reals stand for floats. */
module Ranks {
  import opened Sequences

  function Sum(s: seq<real>): real {
    if s == [] then 0.0 else Sum(s[..|s| - 1]) + s[|s| - 1]
  }

  /** What `y` adds to the score of `x`: 1 below it, 1/2 beside it, 0 above. */
  function PairScore(x: real, y: real): real {
    if y < x then 1.0 else if y == x then 0.5 else 0.0
  }

  function Scores(s: seq<real>, x: real): seq<real> {
    seq(|s|, i requires 0 <= i < |s| => PairScore(x, s[i]))
  }

  /** (number below) + (number equal + 1) / 2. */
  function MidRank(s: seq<real>, x: real): real { Sum(Scores(s, x)) + 0.5 }

  function MidRanks(s: seq<real>): seq<real> {
    seq(|s|, i requires 0 <= i < |s| => MidRank(s, s[i]))
  }

  // ---- sums ----------------------------------------------------------------------

  lemma {:induction false} SumJoin(s: seq<real>, t: seq<real>)
    ensures Sum(s + t) == Sum(s) + Sum(t)
  {
    if t == [] {
      assert s + t == s;
    } else {
      SumJoin(s, t[..|t| - 1]);
      assert (s + t)[..|s + t| - 1] == s + t[..|t| - 1];
    }
  }

  lemma SumOne(x: real)
    ensures Sum([x]) == x
  {
    assert [x][..0] == [];
  }

  lemma SumMore(s: seq<real>, x: real)
    ensures Sum(s + [x]) == Sum(s) + x
  {
    assert (s + [x])[..|s|] == s;
  }

  lemma {:induction false} SumAdd(s: seq<real>, t: seq<real>, both: seq<real>)
    requires |s| == |t| == |both| && forall i | 0 <= i < |s| :: both[i] == s[i] + t[i]
    ensures Sum(both) == Sum(s) + Sum(t)
  {
    if s != [] {
      var n := |s| - 1;
      SumAdd(s[..n], t[..n], both[..n]);
    }
  }

  lemma {:induction false} SumScaled(s: seq<real>, c: real, scaled: seq<real>)
    requires |s| == |scaled| && forall i | 0 <= i < |s| :: scaled[i] == c * s[i]
    ensures Sum(scaled) == c * Sum(s)
  {
    if s != [] {
      var n := |s| - 1;
      SumScaled(s[..n], c, scaled[..n]);
    }
  }

  lemma {:induction false} SumConstant(s: seq<real>, c: real)
    requires forall i | 0 <= i < |s| :: s[i] == c
    ensures Sum(s) == c * |s| as real
  {
    if s != [] {
      SumConstant(s[..|s| - 1], c);
    }
  }

  lemma {:induction false} SumBounds(s: seq<real>, low: real, high: real)
    requires forall i | 0 <= i < |s| :: low <= s[i] <= high
    ensures low * |s| as real <= Sum(s) <= high * |s| as real
  {
    if s != [] {
      SumBounds(s[..|s| - 1], low, high);
    }
  }

  // ---- permutations ----------------------------------------------------------------

  predicate InRange(order: seq<nat>, n: nat) {
    forall i | 0 <= i < |order| :: order[i] < n
  }

  ghost predicate Has(order: seq<nat>, k: nat) {
    exists i :: 0 <= i < |order| && order[i] == k
  }

  lemma HasMore(s: seq<nat>, n: nat)
    ensures forall k: nat :: Has(s + [n], k) <==> Has(s, k) || k == n
  {
    forall k: nat ensures Has(s + [n], k) <==> Has(s, k) || k == n {
      if Has(s, k) {
        var i :| 0 <= i < |s| && s[i] == k;
        assert (s + [n])[i] == k;
      }
      assert (s + [n])[|s|] == n;
    }
  }

  ghost predicate Permutes(order: seq<nat>, n: nat) {
    && |order| == n && InRange(order, n)
    && (forall i, j | 0 <= i < j < |order| :: order[i] != order[j])
    && (forall k: nat | k < n :: Has(order, k))
  }

  function Pick(s: seq<real>, order: seq<nat>): seq<real>
    requires InRange(order, |s|)
  {
    seq(|order|, i requires 0 <= i < |order| => s[order[i]])
  }

  lemma SumWithout(s: seq<real>, q: nat)
    requires q < |s|
    ensures Sum(s) == Sum(s[..q] + s[q + 1..]) + s[q]
  {
    assert s == s[..q] + ([s[q]] + s[q + 1..]);
    SumAround(s[..q], s[q], s[q + 1..]);
  }

  lemma SumAround(front: seq<real>, x: real, back: seq<real>)
    ensures Sum(front + ([x] + back)) == Sum(front + back) + x
  {
    hide Sum;
    SumJoin(front, [x] + back);
    SumJoin([x], back);
    SumJoin(front, back);
    SumOne(x);
  }

  /** A permutation of `n` without its largest index is a permutation of `n - 1`. */
  lemma WithoutLast(order: seq<nat>, q: nat)
    requires |order| > 0 && Permutes(order, |order|) && q < |order| && order[q] == |order| - 1
    ensures Permutes(order[..q] + order[q + 1..], |order| - 1)
  {
    var less := order[..q] + order[q + 1..];
    forall k: nat | k < |order| - 1 ensures Has(less, k) {
      assert Has(order, k);
      var i :| 0 <= i < |order| && order[i] == k;
      assert less[if i < q then i else i - 1] == k;
    }
  }

  lemma PickWithout(s: seq<real>, order: seq<nat>, q: nat)
    requires s != [] && Permutes(order, |s|) && q < |order| && order[q] == |s| - 1
    ensures var less := order[..q] + order[q + 1..];
      InRange(less, |s| - 1) && Sum(Pick(s, order)) == Sum(Pick(s[..|s| - 1], less)) + s[|s| - 1]
  {
    var n := |s| - 1;
    WithoutLast(order, q);
    var less := order[..q] + order[q + 1..];
    var picked := Pick(s, order);
    SumWithout(picked, q);
    assert picked[..q] + picked[q + 1..] == Pick(s[..n], less);
  }

  /** A sum does not depend on the order. */
  lemma {:induction false} PermutedSum(s: seq<real>, order: seq<nat>)
    requires Permutes(order, |s|)
    ensures Sum(Pick(s, order)) == Sum(s)
  {
    if s != [] {
      var n := |s| - 1;
      assert Has(order, n);
      var q :| 0 <= q < |order| && order[q] == n;
      WithoutLast(order, q);
      PickWithout(s, order, q);
      PermutedSum(s[..n], order[..q] + order[q + 1..]);
    }
  }

  // ---- sorting ------------------------------------------------------------------------

  /** Where index `k` goes: before the first larger value. */
  function Place(s: seq<real>, order: seq<nat>, k: nat): (p: nat)
    requires k < |s| && InRange(order, |s|)
    ensures p <= |order|
    ensures forall i | 0 <= i < p :: s[order[i]] <= s[k]
    ensures p < |order| ==> s[k] < s[order[p]]
  {
    if order == [] then 0
    else if s[order[0]] <= s[k] then 1 + Place(s, order[1..], k)
    else 0
  }

  /** The stable sorting of the first `n` indices. */
  function SortFirst(s: seq<real>, n: nat): (order: seq<nat>)
    requires n <= |s|
    ensures InRange(order, n)
  {
    if n == 0 then []
    else
      var front := SortFirst(s, n - 1);
      var p := Place(s, front, n - 1);
      Inserted(front, p, n - 1)
  }

  function Inserted(order: seq<nat>, p: nat, k: nat): seq<nat>
    requires p <= |order|
  {
    order[..p] + [k] + order[p..]
  }

  /** `argsort(kind="stable")` and `sorted(range(n), key=...)`. */
  function ArgSort(s: seq<real>): (order: seq<nat>)
    ensures InRange(order, |s|)
  {
    SortFirst(s, |s|)
  }

  /** The indices in order of value, ties in order of index. */
  ghost predicate StablySorts(s: seq<real>, order: seq<nat>) {
    && InRange(order, |s|)
    && forall i, j | 0 <= i < j < |order| ::
         s[order[i]] < s[order[j]] || (s[order[i]] == s[order[j]] && order[i] < order[j])
  }

  lemma InsertPermutes(order: seq<nat>, p: nat, k: nat)
    requires Permutes(order, k) && p <= k
    ensures Permutes(Inserted(order, p, k), k + 1)
  {
    forall m: nat | m < k + 1 ensures Has(Inserted(order, p, k), m) {
      if m < k {
        assert Has(order, m);
        var i :| 0 <= i < |order| && order[i] == m;
        assert Inserted(order, p, k)[if i < p then i else i + 1] == m;
      } else {
        assert Inserted(order, p, k)[p] == m;
      }
    }
  }

  lemma InsertSorts(s: seq<real>, order: seq<nat>, p: nat, k: nat)
    requires k < |s| && p <= |order| && InRange(order, k) && StablySorts(s, order)
    requires forall i | 0 <= i < p :: s[order[i]] <= s[k]
    requires forall i | p <= i < |order| :: s[k] < s[order[i]]
    ensures StablySorts(s, Inserted(order, p, k))
  {
    var more := Inserted(order, p, k);
    assert forall i | 0 <= i < |more| :: more[i] == if i < p then order[i] else if i == p then k else order[i - 1];
  }

  lemma {:induction false} SortFirstSorts(s: seq<real>, n: nat)
    requires n <= |s|
    ensures Permutes(SortFirst(s, n), n) && StablySorts(s, SortFirst(s, n))
  {
    hide StablySorts, Permutes;
    if n == 0 {
      NothingToSort(s);
    } else {
      SortFirstSorts(s, n - 1);
      var front := SortFirst(s, n - 1);
      PermutesLength(front, n - 1);
      var p := Place(s, front, n - 1);
      InsertPermutes(front, p, n - 1);
      AfterPlace(s, front, p, s[n - 1]);
      InsertSorts(s, front, p, n - 1);
    }
  }

  lemma NothingToSort(s: seq<real>)
    ensures Permutes([], 0) && StablySorts(s, [])
  {}

  lemma PermutesLength(order: seq<nat>, n: nat)
    requires Permutes(order, n)
    ensures |order| == n
  {}

  lemma AfterPlace(s: seq<real>, order: seq<nat>, p: nat, x: real)
    requires StablySorts(s, order) && (p < |order| ==> x < s[order[p]])
    ensures forall i | p <= i < |order| :: x < s[order[i]]
  {
    forall i | p <= i < |order| ensures x < s[order[i]] {
      assert s[order[p]] <= s[order[i]];
    }
  }

  lemma ArgSortSorts(s: seq<real>)
    ensures Permutes(ArgSort(s), |s|) && StablySorts(s, ArgSort(s)) && Ascending(Pick(s, ArgSort(s)))
  {
    SortFirstSorts(s, |s|);
  }

  // ---- tied blocks ----------------------------------------------------------------------

  /** In sorted `t`, the values below `x` are the first `low`, those equal to it run up to `high`. */
  ghost predicate Block(t: seq<real>, x: real, low: nat, high: nat) {
    && low <= high <= |t|
    && (forall k | 0 <= k < |t| :: t[k] < x <==> k < low)
    && (forall k | 0 <= k < |t| :: t[k] <= x <==> k < high)
  }

  lemma {:induction false} BlockExists(t: seq<real>, x: real) returns (low: nat, high: nat)
    requires Ascending(t)
    ensures Block(t, x, low, high)
  {
    if t == [] {
      low, high := 0, 0;
    } else {
      var n := |t| - 1;
      low, high := BlockExists(t[..n], x);
      if t[n] < x { low := n + 1; }
      if t[n] <= x { high := n + 1; }
      assert forall k | 0 <= k < n :: t[..n][k] == t[k] <= t[n];
    }
  }

  lemma {:induction false} BlockScore(t: seq<real>, x: real, low: nat, high: nat)
    requires Block(t, x, low, high)
    ensures Sum(Scores(t, x)) == low as real + (high - low) as real / 2.0
  {
    if t != [] {
      var n := |t| - 1;
      assert Scores(t, x)[..n] == Scores(t[..n], x);
      assert Block(t[..n], x, if low <= n then low else n, if high <= n then high else n);
      BlockScore(t[..n], x, if low <= n then low else n, if high <= n then high else n);
    }
  }

  /** The mid-rank is the middle of the ranks low + 1 .. high of the block. */
  lemma MidRankOfBlock(s: seq<real>, order: seq<nat>, x: real, low: nat, high: nat)
    requires Permutes(order, |s|) && Block(Pick(s, order), x, low, high)
    ensures MidRank(s, x) == (low + high + 1) as real / 2.0
  {
    BlockScore(Pick(s, order), x, low, high);
    assert Pick(Scores(s, x), order) == Scores(Pick(s, order), x);
    PermutedSum(Scores(s, x), order);
  }

  // ---- what the mid-ranks are --------------------------------------------------------------

  lemma ScoreBothWays(x: real, y: real)
    ensures PairScore(x, y) + PairScore(y, x) == 1.0
  {}

  /** The scores of all of `s` against `x`. */
  function ScoresAgainst(s: seq<real>, x: real): seq<real> {
    seq(|s|, i requires 0 <= i < |s| => PairScore(s[i], x))
  }

  lemma ScoresOpposed(s: seq<real>, x: real)
    ensures Sum(Scores(s, x)) + Sum(ScoresAgainst(s, x)) == |s| as real
  {
    var ones := seq(|s|, i requires 0 <= i < |s| => 1.0);
    forall i | 0 <= i < |s| ensures ones[i] == Scores(s, x)[i] + ScoresAgainst(s, x)[i] {
      ScoreBothWays(x, s[i]);
    }
    SumAdd(Scores(s, x), ScoresAgainst(s, x), ones);
    SumConstant(ones, 1.0);
  }

  /** Row sums of the score matrix of `s` against `t`. */
  function Rows(s: seq<real>, t: seq<real>): seq<real> {
    seq(|s|, i requires 0 <= i < |s| => Sum(Scores(t, s[i])))
  }

  lemma RowsMore(s: seq<real>, t: seq<real>, y: real)
    ensures Sum(Rows(s, t + [y])) == Sum(Rows(s, t)) + Sum(ScoresAgainst(s, y))
  {
    forall i | 0 <= i < |s| ensures Rows(s, t + [y])[i] == Rows(s, t)[i] + ScoresAgainst(s, y)[i] {
      assert Scores(t + [y], s[i]) == Scores(t, s[i]) + [PairScore(s[i], y)];
      SumMore(Scores(t, s[i]), PairScore(s[i], y));
    }
    SumAdd(Rows(s, t), ScoresAgainst(s, y), Rows(s, t + [y]));
  }

  lemma RowsBoth(front: seq<real>, x: real)
    ensures Sum(Rows(front + [x], front + [x])) == Sum(Rows(front, front)) + |front| as real + 0.5
  {
    hide Sum;
    var s := front + [x];
    RowsMore(front, front, x);
    assert Rows(s, s) == Rows(front, s) + [Sum(Scores(s, x))];
    SumMore(Rows(front, s), Sum(Scores(s, x)));
    assert Scores(s, x) == Scores(front, x) + [0.5];
    SumMore(Scores(front, x), 0.5);
    ScoresOpposed(front, x);
  }

  lemma SquareGrows(n: nat)
    ensures ((n + 1) * (n + 1)) as real / 2.0 == (n * n) as real / 2.0 + n as real + 0.5
  {
    assert (n + 1) * (n + 1) == n * n + 2 * n + 1;
  }

  /** Every pair is scored both ways, and each value half against itself. */
  lemma {:induction false} SelfScores(s: seq<real>)
    ensures Sum(Rows(s, s)) == (|s| * |s|) as real / 2.0
  {
    if s != [] {
      var n := |s| - 1;
      SelfScores(s[..n]);
      assert s == s[..n] + [s[n]];
      RowsBoth(s[..n], s[n]);
      SquareGrows(n);
    }
  }

  /** The mid-ranks add up to 1 + 2 + ... + n, whatever the ties. */
  lemma MidRanksTotal(s: seq<real>)
    ensures Sum(MidRanks(s)) == (|s| * (|s| + 1)) as real / 2.0
  {
    var halves := seq(|s|, i requires 0 <= i < |s| => 0.5);
    SumAdd(Rows(s, s), halves, MidRanks(s));
    SumConstant(halves, 0.5);
    SelfScores(s);
    assert |s| * (|s| + 1) == |s| * |s| + |s|;
  }

  lemma {:induction false} ScoreGrows(s: seq<real>, x: real, y: real)
    requires x < y
    ensures Sum(Scores(s, x)) <= Sum(Scores(s, y))
    ensures x in s ==> Sum(Scores(s, x)) < Sum(Scores(s, y))
  {
    if s != [] {
      var n := |s| - 1;
      ScoreGrows(s[..n], x, y);
      assert Scores(s, x)[..n] == Scores(s[..n], x) && Scores(s, y)[..n] == Scores(s[..n], y);
      assert s == s[..n] + [s[n]];
    }
  }

  /** The ranks order the values as they are, and tie exactly the equal ones. */
  lemma MidRanksKeepOrder(s: seq<real>, i: nat, j: nat)
    requires i < |s| && j < |s|
    ensures MidRanks(s)[i] < MidRanks(s)[j] <==> s[i] < s[j]
  {
    if s[i] < s[j] {
      ScoreGrows(s, s[i], s[j]);
    } else if s[j] < s[i] {
      ScoreGrows(s, s[j], s[i]);
    }
  }

  /** Values in the same order get the same ranks. */
  lemma SameOrderSameRanks(s: seq<real>, t: seq<real>)
    requires |s| == |t| && forall i, j | 0 <= i < |s| && 0 <= j < |s| :: s[i] < s[j] <==> t[i] < t[j]
    ensures MidRanks(s) == MidRanks(t)
  {
    forall i | 0 <= i < |s| ensures Scores(s, s[i]) == Scores(t, t[i]) {}
  }

  /** Values in the opposite order get the ranks counted from the other end. */
  lemma OppositeOrderRanks(s: seq<real>, t: seq<real>, i: nat)
    requires |s| == |t| && forall i, j | 0 <= i < |s| && 0 <= j < |s| :: s[i] < s[j] <==> t[j] < t[i]
    requires i < |s|
    ensures MidRanks(t)[i] == (|s| + 1) as real - MidRanks(s)[i]
  {
    assert Scores(t, t[i]) == ScoresAgainst(s, s[i]);
    ScoresOpposed(s, s[i]);
  }
}
