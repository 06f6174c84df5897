/** Calibrated confidence: the interpolation of app/engine/confidence.py over the maps that
    scripts/calibrate_confidence.py builds. Reals stand for floats. */
module Calibration {
  import opened Wrappers
  import opened Sequences

  const MIN_FINDINGS: nat := 30

  ghost predicate Strict(s: seq<real>) { forall i, j | 0 <= i < j < |s| :: s[i] < s[j] }

  // ---- interpolation --------------------------------------------------------------------

  /** `bisect.bisect_right`. */
  function BisectRight(xs: seq<real>, value: real): (index: nat)
    requires Ascending(xs)
    ensures index <= |xs|
    ensures forall i | 0 <= i < index :: xs[i] <= value
    ensures forall i | index <= i < |xs| :: value < xs[i]
  {
    if xs == [] then 0
    else if xs[|xs| - 1] <= value then |xs|
    else BisectRight(xs[..|xs| - 1], value)
  }

  function Share(d: real, part: real, whole: real): real
    requires whole != 0.0
  {
    d * part / whole
  }

  function Line(x0: real, x1: real, y0: real, y1: real, value: real): real {
    if x1 == x0 then y0 else y0 + Share(y1 - y0, value - x0, x1 - x0)
  }

  /** `_interpolate`; None is the NaN of an empty map. */
  function Interpolate(xs: seq<real>, ys: seq<real>, value: real): (r: Option<real>)
    requires Ascending(xs) && |xs| == |ys|
    ensures r.None? <==> xs == []
  {
    if xs == [] then None
    else if value <= xs[0] then Some(ys[0])
    else if value >= xs[|xs| - 1] then Some(ys[|ys| - 1])
    else
      var index := BisectRight(xs, value);
      Some(Line(xs[index - 1], xs[index], ys[index - 1], ys[index], value))
  }

  lemma ShareOf(d: real, part: real, whole: real)
    requires d >= 0.0 && whole > 0.0 && 0.0 <= part <= whole
    ensures 0.0 <= Share(d, part, whole) <= d
  {
    var share := d * part / whole;
    assert share * whole == d * part;
    assert d * part >= 0.0;
    assert d * part <= d * whole;
    assert share < 0.0 ==> share * whole < 0.0;
    assert share > d ==> share * whole > d * whole;
  }

  lemma LineBetween(x0: real, x1: real, y0: real, y1: real, value: real)
    requires x0 < x1 && x0 <= value <= x1 && y0 <= y1
    ensures y0 <= Line(x0, x1, y0, y1, value) <= y1
  {
    ShareOf(y1 - y0, value - x0, x1 - x0);
  }

  lemma LineRises(x0: real, x1: real, y0: real, y1: real, v: real, w: real)
    requires x0 < x1 && v <= w && y0 <= y1
    ensures Line(x0, x1, y0, y1, v) <= Line(x0, x1, y0, y1, w)
  {
    ShareRises(y1 - y0, v - x0, w - x0, x1 - x0);
  }

  lemma ShareRises(d: real, a: real, b: real, whole: real)
    requires d >= 0.0 && a <= b && whole > 0.0
    ensures Share(d, a, whole) <= Share(d, b, whole)
  {
    Product(d, b - a);
    assert d * (b - a) == d * b - d * a;
    Divide(d * a, d * b, whole);
  }

  lemma Product(a: real, b: real)
    requires a >= 0.0 && b >= 0.0
    ensures a * b >= 0.0
  {}

  lemma Divide(a: real, b: real, c: real)
    requires a <= b && c > 0.0
    ensures a / c <= b / c
  {
    assert (b - a) / c >= 0.0;
    assert b / c == a / c + (b - a) / c;
  }

  /** The value stays between the first and the last y. */
  lemma InterpolateBounded(xs: seq<real>, ys: seq<real>, value: real)
    requires Ascending(xs) && Ascending(ys) && |xs| == |ys| && xs != []
    ensures ys[0] <= Interpolate(xs, ys, value).value <= ys[|ys| - 1]
  {
    if xs[0] < value < xs[|xs| - 1] {
      var index := BisectRight(xs, value);
      LineBetween(xs[index - 1], xs[index], ys[index - 1], ys[index], value);
      assert ys[0] <= ys[index - 1] && ys[index] <= ys[|ys| - 1];
    }
  }

  /** Inside the map the value lies between the y of its two knots. */
  lemma BetweenKnots(xs: seq<real>, ys: seq<real>, value: real)
    requires Ascending(xs) && Ascending(ys) && |xs| == |ys| && xs != [] && xs[0] < value < xs[|xs| - 1]
    ensures var index := BisectRight(xs, value);
      0 < index < |xs| && ys[index - 1] <= Interpolate(xs, ys, value).value <= ys[index]
  {
    var index := BisectRight(xs, value);
    LineBetween(xs[index - 1], xs[index], ys[index - 1], ys[index], value);
  }

  lemma BisectRises(xs: seq<real>, v: real, w: real)
    requires Ascending(xs) && v <= w
    ensures BisectRight(xs, v) <= BisectRight(xs, w)
  {
    var i, j := BisectRight(xs, v), BisectRight(xs, w);
    if i > 0 {
      assert xs[i - 1] <= v;
      assert i - 1 < j;
    }
  }

  /** A higher score never gets a lower value. */
  lemma InterpolateMonotone(xs: seq<real>, ys: seq<real>, v: real, w: real)
    requires Ascending(xs) && Ascending(ys) && |xs| == |ys| && xs != [] && v <= w
    ensures Interpolate(xs, ys, v).value <= Interpolate(xs, ys, w).value
  {
    InterpolateBounded(xs, ys, v);
    InterpolateBounded(xs, ys, w);
    if xs[0] < v && w < xs[|xs| - 1] {
      BetweenKnots(xs, ys, v);
      BetweenKnots(xs, ys, w);
      var i, j := BisectRight(xs, v), BisectRight(xs, w);
      if i < j {
        assert ys[i] <= ys[j - 1];
      } else {
        BisectRises(xs, v, w);
        LineRises(xs[i - 1], xs[i], ys[i - 1], ys[i], v, w);
      }
    }
  }

  /** Strictly increasing knots are hit exactly. */
  lemma KnotsAreHit(xs: seq<real>, ys: seq<real>, k: nat)
    requires Strict(xs) && Ascending(xs) && |xs| == |ys| && k < |xs|
    ensures Interpolate(xs, ys, xs[k]) == Some(ys[k])
  {
    if 0 < k < |xs| - 1 {
      assert xs[k] < xs[k + 1];
      assert BisectRight(xs, xs[k]) == k + 1;
      ZeroShare(ys[k + 1] - ys[k], xs[k + 1] - xs[k]);
    }
  }

  /** Between two knots the value lies on the line through them; outside it is that of the first or the last. */
  lemma InterpolateIsLinear(xs: seq<real>, ys: seq<real>, k: nat, value: real)
    requires Strict(xs) && Ascending(xs) && |xs| == |ys| && k + 1 < |xs|
    ensures xs[k] <= value <= xs[k + 1] ==> var r := Interpolate(xs, ys, value);
      r.Some? && (r.value - ys[k]) * (xs[k + 1] - xs[k]) == (ys[k + 1] - ys[k]) * (value - xs[k])
    ensures value <= xs[0] ==> Interpolate(xs, ys, value) == Some(ys[0])
    ensures value >= xs[|xs| - 1] ==> Interpolate(xs, ys, value) == Some(ys[|ys| - 1])
  {
    if value == xs[k] {
      KnotsAreHit(xs, ys, k);
    } else if value == xs[k + 1] {
      KnotsAreHit(xs, ys, k + 1);
    } else if xs[k] < value < xs[k + 1] {
      assert xs[0] <= xs[k] && xs[k + 1] <= xs[|xs| - 1];
      assert BisectRight(xs, value) == k + 1;
      ShareTimes(ys[k + 1] - ys[k], value - xs[k], xs[k + 1] - xs[k]);
    }
  }

  lemma ShareTimes(d: real, part: real, whole: real)
    requires whole != 0.0
    ensures Share(d, part, whole) * whole == d * part
  {}

  lemma ZeroShare(d: real, whole: real)
    requires whole > 0.0
    ensures d * 0.0 / whole == 0.0
  {}

  // ---- the maps ----------------------------------------------------------------------------

  datatype Entry = Constant(rate: real) | Isotonic(xs: seq<real>, ys: seq<real>)

  function Positives(labels: seq<bool>): (n: nat)
    ensures n <= |labels|
  {
    if labels == [] then 0 else Positives(labels[..|labels| - 1]) + if labels[|labels| - 1] then 1 else 0
  }

  lemma {:induction false} PositivesAre(labels: seq<bool>)
    ensures Positives(labels) == |set k | 0 <= k < |labels| && labels[k]|
  {
    if labels != [] {
      var n := |labels| - 1;
      PositivesAre(labels[..n]);
      var less := set k | 0 <= k < n && labels[..n][k];
      assert (set k | 0 <= k < |labels| && labels[k]) == less + if labels[n] then {n} else {};
    }
  }

  function Laplace(positives: nat, n: nat): real { (positives + 1) as real / (n + 2) as real }

  function Shrunk(y: real, mean: real, n: nat): real { (y * n as real + mean) / (n + 1) as real }

  /** The fitted isotonic thresholds: ascending, with y in [0, 1]. */
  ghost predicate Fit(xs: seq<real>, ys: seq<real>) {
    && |xs| == |ys| && xs != [] && Ascending(xs) && Ascending(ys)
    && forall i | 0 <= i < |ys| :: 0.0 <= ys[i] <= 1.0
  }

  predicate Few(labels: seq<bool>) {
    |labels| < MIN_FINDINGS || Positives(labels) == 0 || Positives(labels) == |labels|
  }

  /** The entry of one rule: a smoothed rate for few or one-sided findings, else the shrunk thresholds. */
  method Calibrate(labels: seq<bool>, xs: seq<real>, fitted: seq<real>) returns (entry: Entry)
    requires !Few(labels) ==> Fit(xs, fitted)
    ensures Sound(entry)
    ensures var n, positive := |labels|, |set k | 0 <= k < |labels| && labels[k]|;
      if n < 30 || positive == 0 || positive == n then entry == Constant((positive + 1) as real / (n + 2) as real)
      else
        && entry.Isotonic? && entry.xs == xs && |entry.ys| == |fitted|
        && forall i | 0 <= i < |fitted| ::
             entry.ys[i] == (fitted[i] * n as real + positive as real / n as real) / (n + 1) as real
  {
    PositivesAre(labels);
    var n, positives := |labels|, Positives(labels);
    if n < MIN_FINDINGS || positives == 0 || positives == n {
      LaplaceInside(positives, n);
      return Constant(Laplace(positives, n));
    }
    var mean := positives as real / n as real;
    MeanInside(positives, n);
    var ys := new real[|fitted|];
    for i := 0 to |fitted|
      invariant forall j | 0 <= j < i :: ys[j] == Shrunk(fitted[j], mean, n)
    {
      ys[i] := Shrunk(fitted[i], mean, n);
    }
    ShrunkMap(xs, fitted, ys[..], mean, n);
    entry := Isotonic(xs, ys[..]);
  }

  /** A map whose every value is strictly between 0 and 1 and rises with the score. */
  ghost predicate Sound(entry: Entry) {
    match entry
    case Constant(rate) => 0.0 < rate < 1.0
    case Isotonic(xs, ys) =>
      && |xs| == |ys| && xs != [] && Ascending(xs) && Ascending(ys)
      && forall i | 0 <= i < |ys| :: 0.0 < ys[i] < 1.0
  }

  lemma LaplaceInside(positives: nat, n: nat)
    requires positives <= n
    ensures 0.0 < Laplace(positives, n) < 1.0
  {
    Inside((positives + 1) as real, (n + 2) as real);
  }

  lemma MeanInside(positives: nat, n: nat)
    requires 0 < positives < n
    ensures 0.0 < positives as real / n as real < 1.0
  {
    Inside(positives as real, n as real);
  }

  lemma DivideStrict(a: real, b: real, c: real)
    requires a < b && c > 0.0
    ensures a / c < b / c
  {
    assert b / c - a / c == (b - a) / c;
  }

  /** A proper fraction. */
  lemma Inside(a: real, b: real)
    requires 0.0 < a < b
    ensures 0.0 < a / b < 1.0
  {
    DivideStrict(0.0, a, b);
    DivideStrict(a, b, b);
    assert 0.0 / b == 0.0 && b / b == 1.0;
  }

  lemma ShrunkInside(y: real, mean: real, n: nat)
    requires 0.0 <= y <= 1.0 && 0.0 < mean < 1.0
    ensures 0.0 < Shrunk(y, mean, n) < 1.0
  {
    Product(y, n as real);
    Product(1.0 - y, n as real);
    assert (1.0 - y) * n as real == n as real - y * n as real;
    var total, whole := y * n as real + mean, (n + 1) as real;
    assert 0.0 < total < whole;
    Inside(total, whole);
    assert Shrunk(y, mean, n) == total / whole;
  }

  lemma ShrunkRises(y: real, z: real, mean: real, n: nat)
    requires y <= z
    ensures Shrunk(y, mean, n) <= Shrunk(z, mean, n)
  {
    Product(z - y, n as real);
    assert (z - y) * n as real == z * n as real - y * n as real;
    var a, b, whole := y * n as real + mean, z * n as real + mean, (n + 1) as real;
    Divide(a, b, whole);
    assert Shrunk(y, mean, n) == a / whole && Shrunk(z, mean, n) == b / whole;
  }

  lemma ShrunkMap(xs: seq<real>, fitted: seq<real>, ys: seq<real>, mean: real, n: nat)
    requires Fit(xs, fitted) && 0.0 < mean < 1.0
    requires |ys| == |fitted| && forall i | 0 <= i < |ys| :: ys[i] == Shrunk(fitted[i], mean, n)
    ensures Sound(Isotonic(xs, ys))
  {
    forall i | 0 <= i < |ys| ensures 0.0 < ys[i] < 1.0 {
      ShrunkInside(fitted[i], mean, n);
    }
    forall i, j | 0 <= i <= j < |ys| ensures ys[i] <= ys[j] {
      ShrunkRises(fitted[i], fitted[j], mean, n);
    }
  }

  /** The calibrated branch of `confidence_for`, before rounding. */
  function Confidence(entry: Entry, score: real): real
    requires Sound(entry)
  {
    match entry
    case Constant(rate) => rate
    case Isotonic(xs, ys) => Interpolate(xs, ys, score).value
  }

  /** No calibrated value is 0 or 1, and a higher score never has less confidence. */
  lemma NeverCertain(entry: Entry, score: real, higher: real)
    requires Sound(entry) && score <= higher
    ensures 0.0 < Confidence(entry, score) <= Confidence(entry, higher) < 1.0
  {
    if entry.Isotonic? {
      InterpolateBounded(entry.xs, entry.ys, score);
      InterpolateBounded(entry.xs, entry.ys, higher);
      InterpolateMonotone(entry.xs, entry.ys, score, higher);
    }
  }

  // ---- rounding ----------------------------------------------------------------------------------

  const MILLION: real := 1_000_000.0

  /** Nearest integer, ties to even. */
  function Nearest(x: real): int {
    var low := x.Floor;
    var rest := x - low as real;
    if rest < 0.5 then low else if rest > 0.5 then low + 1 else if low % 2 == 0 then low else low + 1
  }

  /** `round(value, 6)`. */
  function Round6(value: real): real { Nearest(value * MILLION) as real / MILLION }

  lemma NearestIs(x: real, k: int)
    ensures k as real - 0.5 < x < k as real + 0.5 ==> Nearest(x) == k
    ensures x == k as real + 0.5 ==> Nearest(x) == if k % 2 == 0 then k else k + 1
  {
    var low := x.Floor;
    assert low as real <= x < low as real + 1.0;
    if k as real - 0.5 < x < k as real + 0.5 {
      assert low == k || low == k - 1;
    }
    if x == k as real + 0.5 {
      assert low == k;
    }
  }

  /** The reported value is the nearest of six places, the even one of two. */
  lemma RoundsToNearest(value: real, k: int)
    ensures k as real - 0.5 < value * 1_000_000.0 < k as real + 0.5 ==> Round6(value) == k as real / 1_000_000.0
    ensures value * 1_000_000.0 == k as real + 0.5 ==>
      Round6(value) == (if k % 2 == 0 then k else k + 1) as real / 1_000_000.0
  {
    hide Nearest;
    NearestIs(value * 1_000_000.0, k);
  }

  lemma RoundsToEnd(value: real)
    requires 0.0 < value < 1.0
    ensures Round6(value) == 0.0 <==> value * MILLION <= 0.5
    ensures Round6(value) == 1.0 <==> value * MILLION >= MILLION - 0.5
  {
    var x := value * MILLION;
    var k := Nearest(x);
    assert Round6(value) * MILLION == k as real;
    assert Round6(value) == 0.0 <==> k == 0;
    assert Round6(value) == 1.0 <==> k == 1_000_000;
  }

  /** A map reports certainty somewhere exactly when its lowest value is at most half a millionth or its
      highest is that close to 1. */
  lemma ReportsCertainty(entry: Entry)
    requires Sound(entry)
    ensures (exists score :: Round6(Confidence(entry, score)) == 0.0 || Round6(Confidence(entry, score)) == 1.0) <==>
      Lowest(entry) * MILLION <= 0.5 || Highest(entry) * MILLION >= MILLION - 0.5
  {
    var low := if entry.Isotonic? then entry.xs[0] else 0.0;
    var high := if entry.Isotonic? then entry.xs[|entry.xs| - 1] else 0.0;
    NeverCertain(entry, low, low);
    NeverCertain(entry, high + 1.0, high + 1.0);
    RoundsToEnd(Confidence(entry, low));
    RoundsToEnd(Confidence(entry, high + 1.0));
    assert Confidence(entry, low) == Lowest(entry);
    assert Confidence(entry, high + 1.0) == Highest(entry);
    forall score
      ensures Lowest(entry) <= Confidence(entry, score) <= Highest(entry)
      ensures Round6(Confidence(entry, score)) == 0.0 <==> Confidence(entry, score) * MILLION <= 0.5
      ensures Round6(Confidence(entry, score)) == 1.0 <==> Confidence(entry, score) * MILLION >= MILLION - 0.5
    {
      NeverCertain(entry, score, score);
      RoundsToEnd(Confidence(entry, score));
      if entry.Isotonic? { InterpolateBounded(entry.xs, entry.ys, score); }
    }
  }

  function Lowest(entry: Entry): real
    requires Sound(entry)
  {
    if entry.Constant? then entry.rate else entry.ys[0]
  }

  function Highest(entry: Entry): real
    requires Sound(entry)
  {
    if entry.Constant? then entry.rate else entry.ys[|entry.ys| - 1]
  }

  /** The values the shrinking can give over `n` findings with `positives` positive ones. */
  ghost predicate Reachable(n: nat, positives: nat, y: real, value: real) {
    0 < positives < n && 0.0 <= y <= 1.0 && value == Shrunk(y, positives as real / n as real, n)
  }

  /** The shrinking survives the rounding for up to 1413 findings and no further: from 1414 on, a fitted 0
      over one positive finding is reported as 0. */
  lemma ShrinkingSurvivesRounding(n: nat)
    requires n >= 2
    ensures n <= 1413 <==>
      forall positives: nat, y, value | Reachable(n, positives, y, value) :: 0.0 < Round6(value) < 1.0
  {
    if n <= 1413 {
      forall positives: nat, y, value | Reachable(n, positives, y, value) ensures 0.0 < Round6(value) < 1.0 {
        SmallSample(n, positives, y);
        RoundsToEnd(value);
        RoundedInside(value);
      }
    } else {
      var value := Shrunk(0.0, 1.0 / n as real, n);
      assert Reachable(n, 1, 0.0, value);
      LargeSample(n);
      ShrunkInside(0.0, 1.0 / n as real, n);
      RoundsToEnd(value);
    }
  }

  lemma RoundedInside(value: real)
    requires 0.0 < value < 1.0
    ensures 0.0 <= Round6(value) <= 1.0
  {
    var k := Nearest(value * MILLION);
    assert 0 <= k <= 1_000_000;
  }

  lemma SmallSample(n: nat, positives: nat, y: real)
    requires 0 < positives < n <= 1413 && 0.0 <= y <= 1.0
    ensures var value := Shrunk(y, positives as real / n as real, n);
      0.5 < value * MILLION < MILLION - 0.5 && 0.0 < value < 1.0
  {
    MeanInside(positives, n);
    ShrunkInside(y, positives as real / n as real, n);
    MeanAway(positives, n);
    ShrunkRises(0.0, y, positives as real / n as real, n);
    ShrunkRises(y, 1.0, positives as real / n as real, n);
    Ends(positives as real / n as real, n);
  }

  /** A mean over n findings, positive and negative ones among them, keeps 1/n from both ends. */
  lemma MeanAway(positives: nat, n: nat)
    requires 0 < positives < n <= 1413
    ensures 1.0 / 1413.0 <= positives as real / n as real <= 1.0 - 1.0 / 1413.0
  {
    var mean, rest, whole := positives as real / n as real, (n - positives) as real / n as real, n as real;
    AtLeast(positives as real, whole, 1.0, 1413.0);
    AtLeast((n - positives) as real, whole, 1.0, 1413.0);
    OneLess(mean, rest, whole, positives as real, (n - positives) as real);
  }

  lemma Ends(mean: real, n: nat)
    requires n <= 1413 && 1.0 / 1413.0 <= mean <= 1.0 - 1.0 / 1413.0
    ensures Shrunk(0.0, mean, n) * MILLION > 0.5
    ensures Shrunk(1.0, mean, n) * MILLION < MILLION - 0.5
  {
    var whole, rest := (n + 1) as real, 1.0 - mean;
    assert Shrunk(0.0, mean, n) == mean / whole;
    AtLeast(mean, whole, 1.0 / 1413.0, 1414.0);
    var high, missing := Shrunk(1.0, mean, n), rest / whole;
    AtLeast(rest, whole, 1.0 / 1413.0, 1414.0);
    OneLess(high, missing, whole, n as real + mean, rest);
  }

  lemma OneLess(high: real, missing: real, whole: real, a: real, b: real)
    requires whole > 0.0 && high == a / whole && missing == b / whole && a + b == whole
    ensures high == 1.0 - missing
  {
    assert a / whole + b / whole == (a + b) / whole;
  }

  /** A larger denominator makes a smaller fraction. */
  lemma Denominators(a: real, low: real, high: real)
    requires a >= 0.0 && 0.0 < low <= high
    ensures a / high <= a / low
  {
    ShareOf(a, low, high);
    var share, part := Share(a, low, high), a / high;
    assert part * high == a;
    Reorder(part, high, low);
    assert share == part * low;
    Divide(share, a, low);
  }

  lemma Reorder(x: real, y: real, z: real)
    requires y != 0.0
    ensures x * y * z / y == x * z
  {
    assert x * y * z == x * z * y;
  }

  lemma AtLeast(a: real, b: real, low: real, high: real)
    requires low > 0.0 && a >= low && 0.0 < b <= high
    ensures a / b >= low / high
  {
    Divide(low, a, b);
    Denominators(low, b, high);
  }

  lemma LargeSample(n: nat)
    requires n >= 1414
    ensures Shrunk(0.0, 1.0 / n as real, n) * MILLION <= 0.5
    ensures 0.0 < 1.0 / n as real < 1.0
  {
    var mean := 1.0 / n as real;
    AtMost(1.0, n as real, 1.0, 1414.0);
    Inside(1.0, n as real);
    AtMost(mean, (n + 1) as real, 1.0 / 1414.0, 1415.0);
    assert Shrunk(0.0, mean, n) == mean / (n + 1) as real;
  }

  lemma AtMost(a: real, b: real, high: real, low: real)
    requires 0.0 <= a <= high && 0.0 < low <= b
    ensures a / b <= high / low
  {
    Divide(a, high, b);
    Denominators(high, low, b);
  }
}
