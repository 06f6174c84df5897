/** `spearman` of scripts/phase5b_compare.py: its ranks are the mid-ranks, and the correlation is in [-1, 1]. */
module Spearman {
  import opened Wrappers
  import opened Ranks
  import Sequences

  /** Tied runs of the order get the middle of their ranks. */
  method RankRuns(values: seq<real>) returns (result: array<real>)
    ensures fresh(result) && result[..] == MidRanks(values)
  {
    hide Permutes, StablySorts, Block, MidRank;
    var n := |values|;
    var order := ArgSort(values);
    ArgSortSorts(values);
    ghost var t := Pick(values, order);
    result := new real[n];
    var i := 0;
    while i < n
      invariant 0 <= i <= n
      invariant 0 < i < n ==> t[i - 1] < t[i]
      invariant forall k | 0 <= k < i :: result[order[k]] == MidRank(values, t[k])
    {
      var j := EndOfRun(values, order, i);
      RunIsBlock(t, i, j);
      MidRankOfBlock(values, order, t[i], i, j + 1);
      SetRun(result, order, i, j, (i + j) as real / 2.0 + 1.0);
      i := j + 1;
    }
    AllRanked(values, order, result[..]);
  }

  lemma AllRanked(values: seq<real>, order: seq<nat>, result: seq<real>)
    requires Permutes(order, |values|) && |result| == |values|
    requires forall k | 0 <= k < |order| :: result[order[k]] == MidRank(values, Pick(values, order)[k])
    ensures result == MidRanks(values)
  {
    forall p | 0 <= p < |values| ensures result[p] == MidRanks(values)[p] {
      assert Has(order, p);
      var k :| 0 <= k < |order| && order[k] == p;
    }
  }

  /** The last place with the value of place `i`. */
  method EndOfRun(values: seq<real>, order: seq<nat>, i: nat) returns (j: nat)
    requires InRange(order, |values|) && i < |order|
    ensures i <= j < |order| && forall k | i <= k <= j :: values[order[k]] == values[order[i]]
    ensures j + 1 < |order| ==> values[order[j + 1]] != values[order[i]]
  {
    j := i;
    while j + 1 < |order| && values[order[j + 1]] == values[order[i]]
      invariant i <= j < |order| && forall k | i <= k <= j :: values[order[k]] == values[order[i]]
    {
      j := j + 1;
    }
  }

  method SetRun(result: array<real>, order: seq<nat>, i: nat, j: nat, average: real)
    requires Permutes(order, result.Length) && i <= j < result.Length
    modifies result
    ensures forall m | 0 <= m < |order| :: result[order[m]] == if i <= m <= j then average else old(result[order[m]])
  {
    for k := i to j + 1
      invariant forall m | 0 <= m < |order| :: result[order[m]] == if i <= m < k then average else old(result[order[m]])
    {
      result[order[k]] := average;
    }
  }

  lemma RunIsBlock(t: seq<real>, i: nat, j: nat)
    requires Sequences.Ascending(t) && i <= j < |t| && (i > 0 ==> t[i - 1] < t[i])
    requires forall k | i <= k <= j :: t[k] == t[i]
    requires j + 1 < |t| ==> t[j + 1] != t[i]
    ensures Block(t, t[i], i, j + 1)
  {
    forall k | 0 <= k < |t| ensures (t[k] < t[i] <==> k < i) && (t[k] <= t[i] <==> k < j + 1) {
      if k < i {
        assert t[k] <= t[i - 1];
      } else if k > j {
        assert t[j + 1] <= t[k] && t[i] <= t[j + 1];
      }
    }
  }

  // ---- the correlation -----------------------------------------------------------------

  function Deviations(s: seq<real>, mean: real): seq<real> {
    seq(|s|, i requires 0 <= i < |s| => s[i] - mean)
  }

  function Centred(s: seq<real>): seq<real>
    requires s != []
  {
    Deviations(s, Sum(s) / |s| as real)
  }

  function Dot(x: seq<real>, y: seq<real>): real
    requires |x| == |y|
  {
    if x == [] then 0.0 else Dot(x[..|x| - 1], y[..|y| - 1]) + x[|x| - 1] * y[|y| - 1]
  }

  ghost predicate SquareRoot(sqrt: real -> real) {
    forall x: real | x >= 0.0 :: sqrt(x) >= 0.0 && sqrt(x) * sqrt(x) == x
  }

  /** Covariance over the root of the variances; 1 where one of them is 0. */
  function Quotient(varA: real, varB: real, cov: real, sqrt: real -> real): real
    requires SquareRoot(sqrt) && varA >= 0.0 && varB >= 0.0
  {
    if varA == 0.0 || varB == 0.0 then 1.0
    else
      RootPositive(varA, varB, sqrt);
      cov / sqrt(varA * varB)
  }

  function Correlation(x: seq<real>, y: seq<real>, sqrt: real -> real): real
    requires |x| == |y| && x != [] && SquareRoot(sqrt)
  {
    var dx, dy := Centred(x), Centred(y);
    DotSquare(dx);
    DotSquare(dy);
    Quotient(Dot(dx, dx), Dot(dy, dy), Dot(dx, dy), sqrt)
  }

  lemma Square(x: real, square: real)
    requires square == x * x
    ensures square >= 0.0 && (square == 0.0 ==> x == 0.0)
  {
    if x != 0.0 {
      assert square / x == x;
    }
  }

  lemma {:induction false} DotSquare(x: seq<real>)
    ensures Dot(x, x) >= 0.0
    ensures Dot(x, x) == 0.0 ==> forall i | 0 <= i < |x| :: x[i] == 0.0
  {
    if x != [] {
      var n := |x| - 1;
      DotSquare(x[..n]);
      var front, square := Dot(x[..n], x[..n]), x[n] * x[n];
      assert Dot(x, x) == front + square;
      Square(x[n], square);
      assert forall i | 0 <= i < n :: x[..n][i] == x[i];
    }
  }

  lemma RootPositive(a: real, b: real, sqrt: real -> real)
    requires SquareRoot(sqrt) && a > 0.0 && b > 0.0
    ensures sqrt(a * b) > 0.0 && sqrt(a * b) * sqrt(a * b) == a * b
  {
    assert a * b > 0.0;
  }

  function Combined(x: seq<real>, y: seq<real>, b: real, c: real): seq<real>
    requires |x| == |y|
  {
    seq(|x|, i requires 0 <= i < |x| => b * x[i] - c * y[i])
  }

  /** What the sum of (b x - c y)^2 comes to. */
  lemma {:induction false} DotExpanded(x: seq<real>, y: seq<real>, b: real, c: real, z: seq<real>)
    requires |x| == |y| == |z| && forall i | 0 <= i < |x| :: z[i] == b * x[i] - c * y[i]
    ensures Dot(z, z) == b * b * Dot(x, x) - 2.0 * b * c * Dot(x, y) + c * c * Dot(y, y)
  {
    if x != [] {
      var n := |x| - 1;
      DotExpanded(x[..n], y[..n], b, c, z[..n]);
      SquareExpanded(x[n], y[n], b, c);
      Regroup(Dot(x[..n], x[..n]), Dot(x[..n], y[..n]), Dot(y[..n], y[..n]),
              x[n] * x[n], x[n] * y[n], y[n] * y[n], b, c);
    }
  }

  lemma SquareExpanded(x: real, y: real, b: real, c: real)
    ensures (b * x - c * y) * (b * x - c * y) == b * b * (x * x) - 2.0 * b * c * (x * y) + c * c * (y * y)
  {}

  lemma Regroup(xx: real, xy: real, yy: real, u: real, v: real, w: real, b: real, c: real)
    ensures b * b * (xx + u) - 2.0 * b * c * (xy + v) + c * c * (yy + w)
         == b * b * xx - 2.0 * b * c * xy + c * c * yy + (b * b * u - 2.0 * b * c * v + c * c * w)
  {}

  lemma {:induction false} DotZero(x: seq<real>, y: seq<real>)
    requires |x| == |y| && forall i | 0 <= i < |y| :: y[i] == 0.0
    ensures Dot(x, y) == 0.0
  {
    if x != [] {
      DotZero(x[..|x| - 1], y[..|y| - 1]);
    }
  }

  /** Cauchy-Schwarz: the squared covariance is at most the product of the variances. */
  lemma CovarianceBounded(x: seq<real>, y: seq<real>)
    requires |x| == |y|
    ensures Dot(x, y) * Dot(x, y) <= Dot(x, x) * Dot(y, y)
  {
    hide Dot;
    var b, c := Dot(y, y), Dot(x, y);
    DotSquare(y);
    if b == 0.0 {
      DotZero(x, y);
    } else {
      var z := Combined(x, y, b, c);
      DotExpanded(x, y, b, c, z);
      DotSquare(z);
      Divided(Dot(x, x), b, c);
    }
  }

  lemma Divided(a: real, b: real, c: real)
    requires b > 0.0 && b * b * a - 2.0 * b * c * c + c * c * b >= 0.0
    ensures c * c <= a * b
  {
    assert b * b * a - 2.0 * b * c * c + c * c * b == b * (a * b - c * c);
    assert a * b - c * c < 0.0 ==> b * (a * b - c * c) < 0.0;
  }

  lemma SquareOrder(c: real, r: real)
    requires r > 0.0 && c * c <= r * r
    ensures -r <= c <= r
  {
    assert c > r ==> c * c > r * r;
    assert -c > r ==> (-c) * (-c) > r * r;
  }

  lemma Within(c: real, r: real)
    requires r > 0.0 && -r <= c <= r
    ensures -1.0 <= c / r <= 1.0
  {}

  lemma QuotientBounded(varA: real, varB: real, cov: real, sqrt: real -> real)
    requires SquareRoot(sqrt) && varA >= 0.0 && varB >= 0.0 && cov * cov <= varA * varB
    ensures -1.0 <= Quotient(varA, varB, cov, sqrt) <= 1.0
  {
    if varA != 0.0 && varB != 0.0 {
      RootPositive(varA, varB, sqrt);
      SquareOrder(cov, sqrt(varA * varB));
      Within(cov, sqrt(varA * varB));
    }
  }

  lemma CorrelationBounded(x: seq<real>, y: seq<real>, sqrt: real -> real)
    requires |x| == |y| && x != [] && SquareRoot(sqrt)
    ensures -1.0 <= Correlation(x, y, sqrt) <= 1.0
  {
    var dx, dy := Centred(x), Centred(y);
    DotSquare(dx);
    DotSquare(dy);
    CovarianceBounded(dx, dy);
    QuotientBounded(Dot(dx, dx), Dot(dy, dy), Dot(dx, dy), sqrt);
  }

  lemma {:induction false} DotIsSum(x: seq<real>, y: seq<real>, z: seq<real>)
    requires |x| == |y| == |z| && forall i | 0 <= i < |x| :: z[i] == x[i] * y[i]
    ensures Dot(x, y) == Sum(z)
  {
    if x != [] {
      DotIsSum(x[..|x| - 1], y[..|y| - 1], z[..|z| - 1]);
    }
  }

  /** `z` holds the products of the deviations of `x` and `y` from their means. */
  ghost predicate DeviationProducts(x: seq<real>, y: seq<real>, z: seq<real>) {
    && |x| == |y| == |z| && x != []
    && var meanX, meanY := Sum(x) / |x| as real, Sum(y) / |y| as real;
      forall i | 0 <= i < |x| :: z[i] == (x[i] - meanX) * (y[i] - meanY)
  }

  lemma ProductsOfDeviations(x: seq<real>, y: seq<real>, z: seq<real>)
    requires DeviationProducts(x, y, z)
    ensures Dot(Centred(x), Centred(y)) == Sum(z)
  {
    hide Dot, Sum;
    DotIsSum(Centred(x), Centred(y), z);
  }

  /** Pearson's formula: the sum of the products of the deviations, over the root of the product of the sums of their
      squares; 1 where one of these is 0. */
  lemma CorrelationIs(x: seq<real>, y: seq<real>, sqrt: real -> real, products: seq<real>, squaresX: seq<real>,
                      squaresY: seq<real>, varX: real, varY: real)
    requires |x| == |y| && x != [] && SquareRoot(sqrt) && DeviationProducts(x, y, products)
    requires DeviationProducts(x, x, squaresX) && DeviationProducts(y, y, squaresY)
    requires varX == Sum(squaresX) && varY == Sum(squaresY)
    ensures if varX == 0.0 || varY == 0.0 then Correlation(x, y, sqrt) == 1.0
      else Correlation(x, y, sqrt) * sqrt(varX * varY) == Sum(products) && sqrt(varX * varY) > 0.0
  {
    hide Dot, Sum, Correlation, Centred, SquareRoot, DeviationProducts;
    CentredLength(x);
    CentredLength(y);
    ProductsOfDeviations(x, y, products);
    ProductsOfDeviations(x, x, squaresX);
    ProductsOfDeviations(y, y, squaresY);
    CorrelationOfDots(x, y, sqrt, varX, varY, Sum(products));
  }

  lemma CentredLength(x: seq<real>)
    requires x != []
    ensures |Centred(x)| == |x|
  {}

  lemma CorrelationOfDots(x: seq<real>, y: seq<real>, sqrt: real -> real, a: real, b: real, c: real)
    requires |x| == |y| && x != [] && SquareRoot(sqrt)
    requires a == Dot(Centred(x), Centred(x)) && b == Dot(Centred(y), Centred(y)) && c == Dot(Centred(x), Centred(y))
    ensures if a == 0.0 || b == 0.0 then Correlation(x, y, sqrt) == 1.0
      else Correlation(x, y, sqrt) * sqrt(a * b) == c && sqrt(a * b) > 0.0
  {
    hide Dot, Centred;
    DotSquare(Centred(x));
    DotSquare(Centred(y));
    if a != 0.0 && b != 0.0 {
      RootPositive(a, b, sqrt);
      Undo(c, sqrt(a * b));
    }
  }

  lemma Undo(c: real, r: real)
    requires r > 0.0
    ensures c / r * r == c
  {}

  /** `spearman`: vectors of different lengths are the ValueError of the strict zip. */
  method Rho(a: seq<real>, b: seq<real>, sqrt: real -> real) returns (r: Result<real, string>)
    requires SquareRoot(sqrt)
    ensures |a| < 2 ==> r == Ok(1.0)
    ensures r.Err? <==> |a| >= 2 && |a| != |b|
    ensures |a| >= 2 && r.Ok? ==> r.value == Correlation(MidRanks(a), MidRanks(b), sqrt) && -1.0 <= r.value <= 1.0
  {
    var n := |a|;
    if n < 2 {
      return Ok(1.0);
    }
    var ra := RankRuns(a);
    var rb := RankRuns(b);
    if |a| != |b| {
      return Err("zip() argument 2 has another length");
    }
    CorrelationBounded(ra[..], rb[..], sqrt);
    r := Ok(Correlation(ra[..], rb[..], sqrt));
  }

  // ---- perfect agreement and disagreement ---------------------------------------------------

  lemma SelfCorrelation(x: seq<real>, sqrt: real -> real)
    requires x != [] && SquareRoot(sqrt)
    ensures Correlation(x, x, sqrt) == 1.0
  {
    var dx := Centred(x);
    DotSquare(dx);
    QuotientOfEquals(Dot(dx, dx), sqrt);
  }

  lemma QuotientOfEquals(a: real, sqrt: real -> real)
    requires SquareRoot(sqrt) && a >= 0.0
    ensures Quotient(a, a, a, sqrt) == 1.0
    ensures a > 0.0 ==> Quotient(a, a, -a, sqrt) == -1.0
  {
    if a > 0.0 {
      RootPositive(a, a, sqrt);
      RootOfSquare(a, sqrt(a * a));
    }
  }

  lemma RootOfSquare(a: real, r: real)
    requires a > 0.0 && r > 0.0 && r * r == a * a
    ensures a / r == 1.0 && -a / r == -1.0
  {
    assert r > a ==> r * r > a * a;
    assert r < a ==> r * r < a * a;
  }

  /** Lists in the same order correlate fully, whatever the values. */
  lemma SameOrderIsOne(a: seq<real>, b: seq<real>, sqrt: real -> real)
    requires |a| == |b| && a != [] && SquareRoot(sqrt)
    requires forall i, j | 0 <= i < |a| && 0 <= j < |a| :: a[i] < a[j] <==> b[i] < b[j]
    ensures Correlation(MidRanks(a), MidRanks(b), sqrt) == 1.0
  {
    SameOrderSameRanks(a, b);
    SelfCorrelation(MidRanks(a), sqrt);
  }

  lemma {:induction false} DotOpposed(x: seq<real>, y: seq<real>)
    requires |x| == |y| && forall i | 0 <= i < |x| :: y[i] == -x[i]
    ensures Dot(x, y) == -Dot(x, x) && Dot(y, y) == Dot(x, x)
  {
    if x != [] {
      DotOpposed(x[..|x| - 1], y[..|y| - 1]);
    }
  }

  lemma OpposedCentred(a: seq<real>, b: seq<real>)
    requires |a| == |b| && a != []
    requires forall i, j | 0 <= i < |a| && 0 <= j < |a| :: a[i] < a[j] <==> b[j] < b[i]
    ensures forall i | 0 <= i < |a| :: Centred(MidRanks(b))[i] == -Centred(MidRanks(a))[i]
  {
    hide MidRank, MidRanks, Sum;
    assert |MidRanks(a)| == |MidRanks(b)| == |a| by { RanksLength(a); RanksLength(b); }
    MidRanksTotal(a);
    MidRanksTotal(b);
    MeanRank(|a|);
    forall i | 0 <= i < |a| ensures Centred(MidRanks(b))[i] == -Centred(MidRanks(a))[i] {
      OppositeOrderRanks(a, b, i);
    }
  }

  lemma RanksLength(a: seq<real>)
    ensures |MidRanks(a)| == |a|
  {}

  lemma MeanRank(n: nat)
    requires n > 0
    ensures (n * (n + 1)) as real / 2.0 / n as real == (n + 1) as real / 2.0
  {
    assert (n * (n + 1)) as real == n as real * (n + 1) as real;
  }

  /** Lists in the opposite order correlate at -1, unless all values are equal. */
  lemma OppositeOrderIsMinusOne(a: seq<real>, b: seq<real>, sqrt: real -> real)
    requires |a| == |b| && a != [] && SquareRoot(sqrt)
    requires forall i, j | 0 <= i < |a| && 0 <= j < |a| :: a[i] < a[j] <==> b[j] < b[i]
    ensures Correlation(MidRanks(a), MidRanks(b), sqrt) ==
      if forall i | 0 <= i < |a| :: a[i] == a[0] then 1.0 else -1.0
  {
    var dx, dy := Centred(MidRanks(a)), Centred(MidRanks(b));
    OpposedCentred(a, b);
    DotOpposed(dx, dy);
    ConstantRanks(a);
    DotSquare(dx);
    QuotientOfEquals(Dot(dx, dx), sqrt);
  }

  lemma Cancel(x: real, n: real)
    requires n != 0.0
    ensures x * n / n == x
  {}

  /** The ranks vary exactly when the values do. */
  lemma ConstantRanks(a: seq<real>)
    requires a != []
    ensures var dx := Centred(MidRanks(a)); Dot(dx, dx) == 0.0 <==> forall i | 0 <= i < |a| :: a[i] == a[0]
  {
    var ranks := MidRanks(a);
    var dx := Centred(ranks);
    DotSquare(dx);
    if Dot(dx, dx) == 0.0 {
      forall i | 0 <= i < |a| ensures a[i] == a[0] {
        assert dx[i] == dx[0] == 0.0;
        MidRanksKeepOrder(a, i, 0);
        MidRanksKeepOrder(a, 0, i);
      }
    }
    if forall i | 0 <= i < |a| :: a[i] == a[0] {
      SumConstant(ranks, ranks[0]);
      Cancel(ranks[0], |a| as real);
      DotZero(dx, dx);
    }
  }
}
