/** Two guards of scripts/ml_controlled_study.py against evidence from the future: `causal_facts` and
    `reference_masks`. */
module CausalSplit {
  import opened Wrappers
  import opened Ranks

  // ---- claimed prevouts -----------------------------------------------------------------

  /** The columns: which output an input claims (negative: none), the transaction of each input and of each
      output, and the time of each transaction. */
  datatype Facts = Facts(inPrev: seq<int>, inTx: seq<nat>, outTx: seq<nat>, time: seq<int>)

  predicate WellFormed(f: Facts) {
    && |f.inPrev| == |f.inTx|
    && (forall k | 0 <= k < |f.inTx| :: f.inTx[k] < |f.time|)
    && (forall o | 0 <= o < |f.outTx| :: f.outTx[o] < |f.time|)
    && (forall k | 0 <= k < |f.inPrev| :: f.inPrev[k] < |f.outTx|)
  }

  /** The transaction input `k` claims to spend from. */
  function Parent(f: Facts, k: nat): nat
    requires WellFormed(f) && k < |f.inPrev| && f.inPrev[k] >= 0
  {
    f.outTx[f.inPrev[k]]
  }

  predicate Prior(f: Facts, k: nat)
    requires WellFormed(f) && k < |f.inPrev|
  {
    f.inPrev[k] >= 0 && f.time[Parent(f, k)] < f.time[f.inTx[k]]
  }

  /** `causal_facts`: exactly the claims of strictly earlier parents are kept; the others become -1. */
  method KeepPrior(f: Facts) returns (kept: array<int>)
    requires WellFormed(f)
    ensures fresh(kept) && kept.Length == |f.inPrev|
    ensures forall k | 0 <= k < |f.inPrev| ::
      if f.inPrev[k] < 0 || f.time[f.outTx[f.inPrev[k]]] < f.time[f.inTx[k]] then kept[k] == f.inPrev[k]
      else kept[k] == -1
    ensures WellFormed(f.(inPrev := kept[..]))
  {
    kept := new int[|f.inPrev|](k requires 0 <= k < |f.inPrev| => f.inPrev[k]);
    for k := 0 to |f.inPrev|
      invariant forall j | 0 <= j < k ::
        if f.inPrev[j] < 0 || f.time[f.outTx[f.inPrev[j]]] < f.time[f.inTx[j]] then kept[j] == f.inPrev[j]
        else kept[j] == -1
      invariant forall j | k <= j < |f.inPrev| :: kept[j] == f.inPrev[j]
    {
      if f.inPrev[k] >= 0 && f.time[Parent(f, k)] >= f.time[f.inTx[k]] {
        kept[k] := -1;
      }
    }
  }

  ghost predicate AllPrior(f: Facts) {
    WellFormed(f) && forall k | 0 <= k < |f.inPrev| && f.inPrev[k] >= 0 :: Prior(f, k)
  }

  /** Each input's parent is the transaction of the next input. */
  ghost predicate Chain(f: Facts, path: seq<nat>) {
    && WellFormed(f)
    && (forall i | 0 <= i < |path| :: path[i] < |f.inPrev| && f.inPrev[path[i]] >= 0)
    && (forall i | 0 <= i < |path| - 1 :: f.inTx[path[i + 1]] == Parent(f, path[i]))
  }

  lemma {:induction false} ChainDescends(f: Facts, path: seq<nat>, i: nat, j: nat)
    requires AllPrior(f) && Chain(f, path) && i < j < |path|
    ensures f.time[f.inTx[path[j]]] < f.time[f.inTx[path[i]]]
  {
    assert Prior(f, path[j - 1]);
    if i + 1 < j {
      ChainDescends(f, path, i, j - 1);
    }
  }

  /** With only prior claims left, following parents never comes back to a transaction. */
  lemma NoCycle(f: Facts, path: seq<nat>, i: nat, j: nat)
    requires AllPrior(f) && Chain(f, path) && i < j < |path|
    ensures f.inTx[path[i]] != f.inTx[path[j]] && Parent(f, path[j]) != f.inTx[path[i]]
  {
    ChainDescends(f, path, i, j);
    assert Prior(f, path[j]);
  }

  /** `causal_facts` leaves only prior claims. */
  lemma KeptArePrior(f: Facts, kept: seq<int>)
    requires WellFormed(f) && WellFormed(f.(inPrev := kept))
    requires forall k | 0 <= k < |f.inPrev| :: if Prior(f, k) then kept[k] == f.inPrev[k] else kept[k] < 0
    ensures AllPrior(f.(inPrev := kept))
  {
    var g := f.(inPrev := kept);
    forall k | 0 <= k < |kept| && kept[k] >= 0 ensures Prior(g, k) {
      assert Prior(f, k);
    }
  }

  /** So what `causal_facts` leaves has no cycle: following kept parents never returns to a transaction. */
  lemma KeptHasNoCycle(f: Facts, kept: seq<int>, path: seq<nat>, i: nat, j: nat)
    requires WellFormed(f) && WellFormed(f.(inPrev := kept)) && Chain(f.(inPrev := kept), path) && i < j < |path|
    requires forall k | 0 <= k < |f.inPrev| :: if Prior(f, k) then kept[k] == f.inPrev[k] else kept[k] < 0
    ensures f.inTx[path[i]] != f.inTx[path[j]] && Parent(f.(inPrev := kept), path[j]) != f.inTx[path[i]]
  {
    KeptArePrior(f, kept);
    NoCycle(f.(inPrev := kept), path, i, j);
  }

  // ---- the calibration split ----------------------------------------------------------------

  /** `np.flatnonzero`. */
  function Selected(mask: seq<bool>): (indices: seq<nat>)
    ensures InRange(indices, |mask|)
    ensures forall k: nat :: Has(indices, k) <==> k < |mask| && mask[k]
  {
    if mask == [] then []
    else
      var n := |mask| - 1;
      var front := Selected(mask[..n]);
      if mask[n] then
        HasMore(front, n);
        front + [n]
      else front
  }

  function Below(mask: seq<bool>, times: seq<int>, boundary: int): seq<bool>
    requires |mask| == |times|
  {
    seq(|mask|, i requires 0 <= i < |mask| => mask[i] && times[i] < boundary)
  }

  function From(mask: seq<bool>, times: seq<int>, boundary: int): seq<bool>
    requires |mask| == |times|
  {
    seq(|mask|, i requires 0 <= i < |mask| => mask[i] && times[i] >= boundary)
  }

  /** The place of the boundary among `size` sorted rows: four fifths, but inside. */
  function Cut(size: nat): (cut: int)
    requires size >= 2
    ensures 1 <= cut < size && 5 * cut <= 4 * size < 5 * (cut + 1)
  {
    var fifths := size * 4 / 5;
    var inner := if fifths < 1 then 1 else fifths;
    if size - 1 < inner then size - 1 else inner
  }

  /** What a split may be: a partition of the reference rows, the training rows all strictly earlier, neither
      part empty. */
  ghost predicate GoodSplit(reference: seq<bool>, times: seq<int>, train: seq<bool>, calibration: seq<bool>) {
    && |train| == |calibration| == |reference| == |times|
    && (forall i | 0 <= i < |reference| ::
          reference[i] == (train[i] || calibration[i]) && !(train[i] && calibration[i]))
    && (forall i, j | 0 <= i < |train| && 0 <= j < |train| && train[i] && calibration[j] :: times[i] < times[j])
    && true in train && true in calibration
  }

  /** The boundary is the time of the row four fifths into the order of time: training rows are earlier, the row
      itself and those after it calibrate. */
  ghost predicate SplitAtFourFifths(times: seq<int>, reference: seq<bool>, order: seq<nat>, train: seq<bool>,
                                    calibration: seq<bool>)
  {
    var selected := Selected(reference);
    && |train| == |calibration| == |reference| == |times| && |selected| >= 2
    && Permutes(order, |selected|) && StablySorts(PickTimes(times, selected), order)
    && var boundary := times[selected[order[|selected| * 4 / 5]]];
      forall i | 0 <= i < |reference| ::
        && (train[i] <==> reference[i] && times[i] < boundary)
        && (calibration[i] <==> reference[i] && times[i] >= boundary)
  }

  function Marked(mask: seq<bool>): set<nat> { set k: nat | k < |mask| && mask[k] }

  function PickTimes(times: seq<int>, indices: seq<nat>): seq<real>
    requires InRange(indices, |times|)
  {
    seq(|indices|, i requires 0 <= i < |indices| => times[indices[i]] as real)
  }

  /** `reference_masks`. It fails for fewer than two rows, or when no row is strictly earlier than the one at
      the cut; otherwise at most `Cut` rows train. */
  method Masks(times: seq<int>, reference: seq<bool>) returns (r: Result<(seq<bool>, seq<bool>), string>)
    requires |times| == |reference|
    ensures r.Ok? ==> GoodSplit(reference, times, r.value.0, r.value.1)
    ensures r.Ok? ==> |Selected(reference)| >= 2 && |Marked(r.value.0)| <= Cut(|Selected(reference)|)
    ensures r.Ok? ==> exists order :: SplitAtFourFifths(times, reference, order, r.value.0, r.value.1)
    ensures var selected := Selected(reference);
      r.Err? <==> (|selected| < 2 || TooManyFirst(times, selected, ArgSort(PickTimes(times, selected))))
  {
    var indices := Selected(reference);
    if |indices| < 2 {
      return Err("insufficient reference rows for a separate calibration period");
    }
    var sortedBy := ArgSort(PickTimes(times, indices));
    ArgSortSorts(PickTimes(times, indices));
    var cut := Cut(|indices|);
    var boundary := times[indices[sortedBy[cut]]];
    var train, calibration := Below(reference, times, boundary), From(reference, times, boundary);
    InCalibration(times, reference, indices[sortedBy[cut]], boundary);
    AllFirst(times, reference, sortedBy, cut);
    if true !in train || true !in calibration {
      return Err("insufficient distinct reference timestamps for chronological calibration");
    }
    FewTrain(times, reference, sortedBy, cut);
    assert SplitAtFourFifths(times, reference, sortedBy, train, calibration);
    r := Ok((train, calibration));
  }

  /** In time order, the reference rows up to the cut all share the first time. */
  ghost predicate TooManyFirst(times: seq<int>, indices: seq<nat>, order: seq<nat>) {
    && InRange(indices, |times|) && |indices| >= 2 && Permutes(order, |indices|)
    && (forall k, l | 0 <= k <= l < |order| :: times[indices[order[k]]] <= times[indices[order[l]]])
    && (forall k | 0 <= k <= Cut(|indices|) :: times[indices[order[k]]] == times[indices[order[0]]])
  }

  lemma InCalibration(times: seq<int>, reference: seq<bool>, i: nat, boundary: int)
    requires |times| == |reference| && Has(Selected(reference), i) && times[i] == boundary
    ensures true in From(reference, times, boundary)
  {
    assert From(reference, times, boundary)[i];
  }

  lemma SortedByTime(times: seq<int>, indices: seq<nat>, order: seq<nat>)
    requires InRange(indices, |times|) && InRange(order, |indices|) && StablySorts(PickTimes(times, indices), order)
    ensures forall k, l | 0 <= k <= l < |order| :: times[indices[order[k]]] <= times[indices[order[l]]]
  {
    var s := PickTimes(times, indices);
    forall k, l | 0 <= k <= l < |order| ensures times[indices[order[k]]] <= times[indices[order[l]]] {
      assert s[order[k]] <= s[order[l]];
    }
  }

  lemma AllFirst(times: seq<int>, reference: seq<bool>, order: seq<nat>, cut: nat)
    requires |times| == |reference| && |Selected(reference)| >= 2 && cut == Cut(|Selected(reference)|)
    requires Permutes(order, |Selected(reference)|) && StablySorts(PickTimes(times, Selected(reference)), order)
    ensures true !in Below(reference, times, times[Selected(reference)[order[cut]]]) <==>
      TooManyFirst(times, Selected(reference), order)
  {
    var indices := Selected(reference);
    SortedByTime(times, indices, order);
    var below := Below(reference, times, times[indices[order[cut]]]);
    if true !in below {
      forall k | 0 <= k <= cut ensures times[indices[order[k]]] == times[indices[order[cut]]] {
        assert Has(indices, indices[order[k]]);
        assert !below[indices[order[k]]];
      }
    }
    if TooManyFirst(times, indices, order) {
      forall i | 0 <= i < |below| ensures !below[i] {
        if reference[i] {
          assert Has(indices, i);
          var p :| 0 <= p < |indices| && indices[p] == i;
          assert Has(order, p);
          var k :| 0 <= k < |order| && order[k] == p;
          assert times[indices[order[0]]] <= times[indices[order[k]]];
        }
      }
    }
  }

  lemma {:induction false} FewIn(s: seq<nat>, marked: set<nat>)
    requires forall k | k in marked :: Has(s, k)
    ensures |marked| <= |s|
  {
    if s == [] {
      assert marked == {};
    } else {
      var n := |s| - 1;
      forall k | k in marked - {s[n]} ensures Has(s[..n], k) {
        var i :| 0 <= i < |s| && s[i] == k;
        assert s[..n][i] == k;
      }
      FewIn(s[..n], marked - {s[n]});
    }
  }

  lemma FewTrain(times: seq<int>, reference: seq<bool>, order: seq<nat>, cut: nat)
    requires |times| == |reference| && Permutes(order, |Selected(reference)|) && cut < |order|
    requires StablySorts(PickTimes(times, Selected(reference)), order)
    ensures |Marked(Below(reference, times, times[Selected(reference)[order[cut]]]))| <= cut
  {
    var indices := Selected(reference);
    var marked := Marked(Below(reference, times, times[indices[order[cut]]]));
    SortedByTime(times, indices, order);
    var first := seq(cut, k requires 0 <= k < cut => indices[order[k]]);
    assert forall k | cut <= k < |order| :: times[indices[order[cut]]] <= times[indices[order[k]]];
    forall i | i in marked ensures Has(first, i) {
      assert Has(indices, i);
      var p :| 0 <= p < |indices| && indices[p] == i;
      assert Has(order, p);
      var k :| 0 <= k < |order| && order[k] == p;
      assert first[k] == i;
    }
    FewIn(first, marked);
  }
}
