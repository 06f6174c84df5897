/** The time-ordered merge of `build_part` in generator.py, and the remapping of index intervals. */
module Merging {
  import opened Wrappers
  import opened Sequences
  import opened Ledger
  import opened InjectedLedger

  /** A line of the base transactions file. */
  datatype BaseTx = BaseTx(txid: TxId, moment: int)

  // ---- two streams woven into one ---------------------------------------------------

  /** The two streams take the positions `0..|left| + |right|`, each position exactly once, and each
      stream in its own order. */
  ghost predicate Woven(left: seq<nat>, right: seq<nat>) {
    && Rising(left) && Rising(right)
    && (forall k | k in left :: k < |left| + |right|)
    && (forall k | k in right :: k < |left| + |right|)
    && (forall k | 0 <= k < |left| + |right| :: k in left <==> k !in right)
  }

  lemma MoreLeft(left: seq<nat>, right: seq<nat>)
    requires Woven(left, right)
    ensures Woven(left + [|left| + |right|], right)
  {
    var n := |left| + |right|;
    assert forall k | k in left :: k < n;
    forall i | 0 <= i < |left| ensures left[i] < n { assert left[i] in left; }
    assert n !in right;
  }

  lemma MoreRight(left: seq<nat>, right: seq<nat>)
    requires Woven(left, right)
    ensures Woven(left, right + [|left| + |right|])
  {
    var n := |left| + |right|;
    forall i | 0 <= i < |right| ensures right[i] < n { assert right[i] in right; }
    assert n !in left;
  }

  /** Some base transaction up to `x` is later than `moment`. */
  ghost predicate LaterBase(base: seq<BaseTx>, x: int, moment: int) {
    exists i :: 0 <= i <= x && i < |base| && moment < base[i].moment
  }

  /** An injected transaction stands before a base one exactly when that one, or a base transaction
      before it, is strictly later. */
  ghost predicate ByTime(base: seq<BaseTx>, injected: seq<Tx>, basePos: seq<nat>, injPos: seq<nat>) {
    && |basePos| <= |base| && |injPos| <= |injected|
    && forall x, y | 0 <= x < |basePos| && 0 <= y < |injPos| ::
         injPos[y] < basePos[x] <==> LaterBase(base, x, injected[y].moment)
  }

  /** `out` is the two row streams, woven. */
  ghost predicate Interleaves(left: seq<Row>, right: seq<Row>, out: seq<Row>, leftPos: seq<nat>, rightPos: seq<nat>) {
    && |leftPos| == |left| && |rightPos| == |right| && |out| == |left| + |right|
    && Woven(leftPos, rightPos)
    && (forall i | 0 <= i < |left| :: leftPos[i] < |out| && out[leftPos[i]] == left[i])
    && (forall j | 0 <= j < |right| :: rightPos[j] < |out| && out[rightPos[j]] == right[j])
  }

  lemma InterleaveLeft(left: seq<Row>, right: seq<Row>, out: seq<Row>, leftPos: seq<nat>, rightPos: seq<nat>, row: Row)
    requires Interleaves(left, right, out, leftPos, rightPos)
    ensures Interleaves(left + [row], right, out + [row], leftPos + [|out|], rightPos)
  {
    MoreLeft(leftPos, rightPos);
  }

  lemma InterleaveRight(left: seq<Row>, right: seq<Row>, out: seq<Row>, leftPos: seq<nat>, rightPos: seq<nat>, row: Row)
    requires Interleaves(left, right, out, leftPos, rightPos)
    ensures Interleaves(left, right + [row], out + [row], leftPos, rightPos + [|out|])
  {
    MoreRight(leftPos, rightPos);
  }

  // ---- the merge ---------------------------------------------------------------------

  /** Where the merge of transactions stands: `x` base and `y` injected transactions are written. */
  ghost predicate Merging(base: seq<BaseTx>, injected: seq<Tx>, x: nat, y: nat, basePos: seq<nat>, injPos: seq<nat>) {
    && x == |basePos| <= |base| && y == |injPos| <= |injected|
    && Woven(basePos, injPos) && ByTime(base, injected, basePos, injPos)
    && (forall i | y <= i < |injected| :: !LaterBase(base, x - 1, injected[i].moment))
  }

  lemma WriteBase(base: seq<BaseTx>, injected: seq<Tx>, basePos: seq<nat>, injPos: seq<nat>)
    requires Merging(base, injected, |basePos|, |injPos|, basePos, injPos) && |basePos| < |base|
    requires SortedByMoment(injected)
    requires forall j | 0 <= j < |injPos| :: LaterBase(base, |basePos|, injected[j].moment)
    requires |injPos| < |injected| ==> base[|basePos|].moment <= injected[|injPos|].moment
    ensures Merging(base, injected, |basePos| + 1, |injPos|, basePos + [|basePos| + |injPos|], injPos)
  {
    var x, y := |basePos|, |injPos|;
    MoreLeft(basePos, injPos);
    forall i | y <= i < |injected| ensures !LaterBase(base, x, injected[i].moment) {
      assert injected[y].moment <= injected[i].moment;
      assert !LaterBase(base, x - 1, injected[i].moment);
    }
    forall j | 0 <= j < y ensures injPos[j] < x + y { assert injPos[j] in injPos; }
  }

  lemma WriteInjected(base: seq<BaseTx>, injected: seq<Tx>, basePos: seq<nat>, injPos: seq<nat>)
    requires Merging(base, injected, |basePos|, |injPos|, basePos, injPos) && |injPos| < |injected|
    ensures Merging(base, injected, |basePos|, |injPos| + 1, basePos, injPos + [|basePos| + |injPos|])
  {
    var x, y := |basePos|, |injPos|;
    MoreRight(basePos, injPos);
    forall i | 0 <= i < x
      ensures basePos[i] < x + y && !LaterBase(base, i, injected[y].moment)
    {
      assert basePos[i] in basePos;
      assert !LaterBase(base, x - 1, injected[y].moment);
    }
  }

  // ---- where the rows go --------------------------------------------------------------

  /** The base rows `runs[x]..runs[x + 1]` are those of base transaction `x`: all that come next with its txid. */
  ghost predicate IsRun(base: seq<BaseTx>, baseRows: seq<Row>, runs: seq<nat>, x: nat) {
    && x < |base| && x + 1 < |runs| && runs[x] <= runs[x + 1] <= |baseRows|
    && (forall r | runs[x] <= r < runs[x + 1] :: baseRows[r].txid == base[x].txid)
    && (runs[x + 1] < |baseRows| ==> baseRows[runs[x + 1]].txid != base[x].txid)
  }

  ghost predicate AreRuns(base: seq<BaseTx>, baseRows: seq<Row>, runs: seq<nat>, n: nat) {
    |runs| == n + 1 && runs[0] == 0 && forall x: nat | x < n :: IsRun(base, baseRows, runs, x)
  }

  /** The rows of base transaction `x` stand to the injected rows as the transaction does. */
  ghost predicate RunInStep(runs: seq<nat>, leftPos: seq<nat>, rightPos: seq<nat>, basePos: seq<nat>, injPos: seq<nat>,
                            x: nat)
  {
    && x < |basePos| && x + 1 < |runs| && runs[x + 1] <= |leftPos| && |rightPos| == |injPos|
    && forall r, j | runs[x] <= r < runs[x + 1] && 0 <= j < |injPos| ::
         leftPos[r] < rightPos[j] <==> basePos[x] < injPos[j]
  }

  ghost predicate InStep(runs: seq<nat>, leftPos: seq<nat>, rightPos: seq<nat>, basePos: seq<nat>, injPos: seq<nat>) {
    forall x: nat | x < |basePos| :: RunInStep(runs, leftPos, rightPos, basePos, injPos, x)
  }

  /** The base rows from `from` on stand behind every injected row. */
  ghost predicate Behind(leftPos: seq<nat>, rightPos: seq<nat>, from: nat) {
    forall r, j | from <= r < |leftPos| && 0 <= j < |rightPos| :: rightPos[j] < leftPos[r]
  }

  /** `i` base rows and those of `j` injected transactions are written. */
  ghost predicate Written(baseRows: seq<Row>, i: nat, injected: seq<Tx>, j: nat, out: seq<Row>, leftPos: seq<nat>,
                          rightPos: seq<nat>)
  {
    i <= |baseRows| && j <= |injected| && Interleaves(baseRows[..i], Rows(injected[..j]), out, leftPos, rightPos)
  }

  lemma InjectedInStep(runs: seq<nat>, leftPos: seq<nat>, rightPos: seq<nat>, basePos: seq<nat>, injPos: seq<nat>,
                       n: nat)
    requires InStep(runs, leftPos, rightPos, basePos, injPos) && Woven(basePos, injPos)
    requires forall r | 0 <= r < |leftPos| :: leftPos[r] < n
    ensures InStep(runs, leftPos, rightPos + [n], basePos, injPos + [|basePos| + |injPos|])
  {
    var right, pos := rightPos + [n], injPos + [|basePos| + |injPos|];
    forall x: nat | x < |basePos| ensures RunInStep(runs, leftPos, right, basePos, pos, x) {
      assert RunInStep(runs, leftPos, rightPos, basePos, injPos, x);
      assert basePos[x] in basePos;
    }
  }

  lemma WrittenSizes(baseRows: seq<Row>, i: nat, injected: seq<Tx>, j: nat, out: seq<Row>, leftPos: seq<nat>,
                     rightPos: seq<nat>)
    requires Written(baseRows, i, injected, j, out, leftPos, rightPos)
    ensures |out| == i + j && |leftPos| == i && |rightPos| == j
    ensures forall r | 0 <= r < i :: leftPos[r] < i + j
  {}

  lemma InjectedPlaced(baseRows: seq<Row>, injected: seq<Tx>, out: seq<Row>, basePos: seq<nat>, injPos: seq<nat>)
    requires |out| == |basePos| + |injPos| && |injPos| < |injected|
    requires Placed(baseRows, injected, out, basePos, injPos)
    ensures Placed(baseRows, injected, out + [RowOf(injected[|injPos|])], basePos, injPos + [|out|])
  {}

  lemma InjectedGoesOut(baseRows: seq<Row>, i: nat, injected: seq<Tx>, j: nat, out: seq<Row>, runs: seq<nat>,
                        leftPos: seq<nat>, rightPos: seq<nat>, basePos: seq<nat>, injPos: seq<nat>)
    requires InStep(runs, leftPos, rightPos, basePos, injPos) && Woven(basePos, injPos)
    requires Written(baseRows, i, injected, j, out, leftPos, rightPos) && j == |injPos| < |injected|
    ensures InStep(runs, leftPos, rightPos + [|out|], basePos, injPos + [|basePos| + j])
    ensures Placed(baseRows, injected, out, basePos, injPos) && i == |basePos| ==>
      Placed(baseRows, injected, out + [RowOf(injected[j])], basePos, injPos + [|basePos| + j])
  {
    hide InStep, Woven, Written, Placed;
    WrittenSizes(baseRows, i, injected, j, out, leftPos, rightPos);
    InjectedInStep(runs, leftPos, rightPos, basePos, injPos, |out|);
    if Placed(baseRows, injected, out, basePos, injPos) && i == |basePos| {
      InjectedPlaced(baseRows, injected, out, basePos, injPos);
    }
  }

  lemma BaseInStep(baseRows: seq<Row>, i: nat, injected: seq<Tx>, j: nat, written: seq<Row>, out: seq<Row>,
                   runs: seq<nat>, left: seq<nat>, leftPos: seq<nat>, rightPos: seq<nat>, basePos: seq<nat>,
                   injPos: seq<nat>)
    requires InStep(runs, left, rightPos, basePos, injPos) && Woven(basePos, injPos) && j == |injPos|
    requires Written(baseRows, i, injected, j, out, leftPos, rightPos)
    requires left <= leftPos && Behind(leftPos, rightPos, |left|)
    requires |runs| == |basePos| + 1 && runs[|basePos|] == |left| <= i
    requires |written| == |left| + j && out == written + baseRows[|left|..i]
    ensures InStep(runs + [i], leftPos, rightPos, basePos + [|basePos| + j], injPos)
    ensures Placed(baseRows, injected, written, basePos, injPos) && |left| == |basePos| && i == |left| + 1 ==>
      Placed(baseRows, injected, out, basePos + [|basePos| + j], injPos)
  {
    var more, pos := runs + [i], basePos + [|basePos| + j];
    forall x: nat | x < |pos| ensures RunInStep(more, leftPos, rightPos, pos, injPos, x) {
      if x < |basePos| {
        assert RunInStep(runs, left, rightPos, basePos, injPos, x);
      } else {
        forall y | 0 <= y < j ensures injPos[y] < pos[x] { assert injPos[y] in injPos; }
      }
    }
  }

  lemma RestTrails(baseRows: seq<Row>, i: nat, injected: seq<Tx>, written: seq<Row>, out: seq<Row>, runs: seq<nat>,
                   left: seq<nat>, leftPos: seq<nat>, rightPos: seq<nat>, basePos: seq<nat>, injPos: seq<nat>)
    requires InStep(runs, left, rightPos, basePos, injPos) && left <= leftPos
    requires i <= |baseRows| && |written| == i + |injected| && out == written + baseRows[i..]
    ensures InStep(runs, leftPos, rightPos, basePos, injPos)
    ensures Placed(baseRows, injected, written, basePos, injPos) ==> Placed(baseRows, injected, out, basePos, injPos)
    ensures Trailing(baseRows, out, i, |baseRows|, |injected|)
  {
    forall x: nat | x < |basePos| ensures RunInStep(runs, leftPos, rightPos, basePos, injPos, x) {
      assert RunInStep(runs, left, rightPos, basePos, injPos, x);
    }
  }

  lemma RowBehind(left: seq<Row>, right: seq<Row>, out: seq<Row>, leftPos: seq<nat>, rightPos: seq<nat>, from: nat)
    requires Interleaves(left, right, out, leftPos, rightPos) && Behind(leftPos, rightPos, from)
    ensures Behind(leftPos + [|out|], rightPos, from)
  {}

  /** One base row for each base transaction, in order, and then those of others: what the base generator writes. */
  ghost predicate LinedUp(base: seq<BaseTx>, baseRows: seq<Row>) {
    && |base| <= |baseRows|
    && (forall i | 0 <= i < |base| :: baseRows[i].txid == base[i].txid)
    && (forall i, j | 0 <= i < j < |base| :: base[i].txid != base[j].txid)
    && (0 < |base| < |baseRows| ==> baseRows[|base|].txid != base[|base| - 1].txid)
  }

  /** Every position holds the row of its transaction. */
  ghost predicate Placed(baseRows: seq<Row>, injected: seq<Tx>, out: seq<Row>, basePos: seq<nat>, injPos: seq<nat>) {
    && |basePos| <= |baseRows| && |injPos| <= |injected|
    && (forall i | 0 <= i < |basePos| :: basePos[i] < |out| && out[basePos[i]] == baseRows[i])
    && (forall j | 0 <= j < |injPos| :: injPos[j] < |out| && out[injPos[j]] == RowOf(injected[j]))
  }

  /** The rows beyond the transactions follow at the end. */
  ghost predicate Trailing(baseRows: seq<Row>, out: seq<Row>, from: nat, to: nat, shift: nat) {
    && to <= |baseRows| && to + shift <= |out|
    && forall k | from + shift <= k < to + shift :: out[k] == baseRows[k - shift]
  }

  lemma RunDone(base: seq<BaseTx>, baseRows: seq<Row>, runs: seq<nat>, n: nat, reader: nat)
    requires AreRuns(base, baseRows, runs, n) && n < |base| && runs[n] <= reader <= |baseRows|
    requires forall r | runs[n] <= r < reader :: baseRows[r].txid == base[n].txid
    requires reader < |baseRows| ==> baseRows[reader].txid != base[n].txid
    ensures AreRuns(base, baseRows, runs + [reader], n + 1)
  {
    forall x: nat | x < n + 1 ensures IsRun(base, baseRows, runs + [reader], x) {
      assert x < n ==> IsRun(base, baseRows, runs, x);
    }
  }

  /** The merge of `build_part`. `basePos` is `base_position`; `injPos[j]` is the `positions` entry of
      the j-th injected transaction. The rows of a base transaction are the next rows with its txid; what
      the base rows hold besides is written at the end. */
  method BuildPart(base: seq<BaseTx>, baseRows: seq<Row>, injected: seq<Tx>)
    returns (out: seq<Row>, basePos: seq<nat>, injPos: seq<nat>,
             ghost leftPos: seq<nat>, ghost rightPos: seq<nat>, ghost runs: seq<nat>)
    requires SortedByMoment(injected)
    ensures |basePos| == |base| && |injPos| == |injected|
    ensures Woven(basePos, injPos) && ByTime(base, injected, basePos, injPos)
    ensures Interleaves(baseRows, Rows(injected), out, leftPos, rightPos)
    ensures AreRuns(base, baseRows, runs, |base|) && InStep(runs, leftPos, rightPos, basePos, injPos)
    ensures Behind(leftPos, rightPos, runs[|base|])
    ensures LinedUp(base, baseRows) ==>
      Placed(baseRows, injected, out, basePos, injPos) && Trailing(baseRows, out, |base|, |baseRows|, |injected|)
  {
    hide RowOf, Woven, ByTime, InStep, Behind, AreRuns, LinedUp, Interleaves, Written, Placed, Trailing;
    out, basePos, injPos, leftPos, rightPos, runs := [], [], [], [], [], [0];
    var reader, cursor := 0, 0;
    MergeBegins(base, baseRows, injected);
    for i := 0 to |base|
      invariant 0 <= reader <= |baseRows| && 0 <= cursor <= |injected|
      invariant Merging(base, injected, i, cursor, basePos, injPos)
      invariant forall j | 0 <= j < cursor :: LaterBase(base, i - 1, injected[j].moment)
      invariant Written(baseRows, reader, injected, cursor, out, leftPos, rightPos)
      invariant AreRuns(base, baseRows, runs, i) && InStep(runs, leftPos, rightPos, basePos, injPos)
      invariant |runs| == i + 1 && runs[i] == reader
      invariant LinedUp(base, baseRows) ==> reader == i && Placed(baseRows, injected, out, basePos, injPos)
    {
      var moment := base[i].moment;
      while cursor < |injected| && injected[cursor].moment < moment
        invariant 0 <= cursor <= |injected|
        invariant Merging(base, injected, i, cursor, basePos, injPos)
        invariant forall j | 0 <= j < cursor :: LaterBase(base, i, injected[j].moment)
        invariant Written(baseRows, reader, injected, cursor, out, leftPos, rightPos)
        invariant InStep(runs, leftPos, rightPos, basePos, injPos)
        invariant LinedUp(base, baseRows) ==> Placed(baseRows, injected, out, basePos, injPos)
      {
        WriteInjected(base, injected, basePos, injPos);
        InjectedGoesOut(baseRows, reader, injected, cursor, out, runs, leftPos, rightPos, basePos, injPos);
        out, rightPos := WriteInjectedRow(baseRows, reader, injected, cursor, out, leftPos, rightPos);
        injPos := injPos + [i + cursor];
        cursor := cursor + 1;
      }
      ghost var left0, out0 := leftPos, out;
      out, reader, leftPos := WriteWhile(txid => txid == base[i].txid, baseRows, reader, injected, cursor, out,
                                         leftPos, rightPos);
      WriteBase(base, injected, basePos, injPos);
      OneRow(base, baseRows, i, runs[i], reader);
      RunDone(base, baseRows, runs, i, reader);
      BaseInStep(baseRows, reader, injected, cursor, out0, out, runs, left0, leftPos, rightPos, basePos, injPos);
      basePos := basePos + [i + cursor];
      runs := runs + [reader];
    }
    while cursor < |injected|
      invariant 0 <= cursor <= |injected|
      invariant Merging(base, injected, |base|, cursor, basePos, injPos)
      invariant Written(baseRows, reader, injected, cursor, out, leftPos, rightPos)
      invariant InStep(runs, leftPos, rightPos, basePos, injPos)
      invariant LinedUp(base, baseRows) ==> Placed(baseRows, injected, out, basePos, injPos)
    {
      WriteInjected(base, injected, basePos, injPos);
      InjectedGoesOut(baseRows, reader, injected, cursor, out, runs, leftPos, rightPos, basePos, injPos);
      out, rightPos := WriteInjectedRow(baseRows, reader, injected, cursor, out, leftPos, rightPos);
      injPos := injPos + [|base| + cursor];
      cursor := cursor + 1;
    }
    ghost var left0, out0 := leftPos, out;
    out, reader, leftPos := WriteWhile(_ => true, baseRows, reader, injected, cursor, out, leftPos, rightPos);
    RestTrails(baseRows, runs[|base|], injected, out0, out, runs, left0, leftPos, rightPos, basePos, injPos);
    AllWritten(baseRows, injected, out, leftPos, rightPos);
  }

  lemma AllWritten(baseRows: seq<Row>, injected: seq<Tx>, out: seq<Row>, leftPos: seq<nat>, rightPos: seq<nat>)
    requires Written(baseRows, |baseRows|, injected, |injected|, out, leftPos, rightPos)
    ensures Interleaves(baseRows, Rows(injected), out, leftPos, rightPos)
  {
    assert baseRows[..|baseRows|] == baseRows && injected[..|injected|] == injected;
  }

  lemma MergeBegins(base: seq<BaseTx>, baseRows: seq<Row>, injected: seq<Tx>)
    ensures Merging(base, injected, 0, 0, [], []) && Written(baseRows, 0, injected, 0, [], [], [])
    ensures Placed(baseRows, injected, [], [], []) && AreRuns(base, baseRows, [0], 0) && InStep([0], [], [], [], [])
  {}

  /** Lined up, a base transaction takes one row. */
  lemma OneRow(base: seq<BaseTx>, baseRows: seq<Row>, i: nat, from: nat, to: nat)
    requires i < |base| && from <= to <= |baseRows| && forall r | from <= r < to :: baseRows[r].txid == base[i].txid
    requires to < |baseRows| ==> baseRows[to].txid != base[i].txid
    ensures LinedUp(base, baseRows) && from == i ==> to == i + 1
  {
    assert i == from && i + 1 < to ==> baseRows[i + 1].txid == base[i].txid;
  }

  /** The row of the next injected transaction goes out. */
  method WriteInjectedRow(ghost baseRows: seq<Row>, ghost reader: nat, injected: seq<Tx>, cursor: nat,
                          written: seq<Row>, ghost leftPos: seq<nat>, ghost rightBefore: seq<nat>)
    returns (out: seq<Row>, ghost rightPos: seq<nat>)
    requires cursor < |injected| && Written(baseRows, reader, injected, cursor, written, leftPos, rightBefore)
    ensures out == written + [RowOf(injected[cursor])] && rightPos == rightBefore + [|written|]
    ensures Written(baseRows, reader, injected, cursor + 1, out, leftPos, rightPos)
  {
    NextRow(injected, cursor);
    InterleaveRight(baseRows[..reader], Rows(injected[..cursor]), written, leftPos, rightBefore,
                    RowOf(injected[cursor]));
    rightPos := rightBefore + [|written|];
    out := written + [RowOf(injected[cursor])];
  }

  /** `take_while`: the next base rows go out, as long as their txid is wanted. */
  method WriteWhile(wanted: TxId -> bool, baseRows: seq<Row>, reader: nat, ghost injected: seq<Tx>, ghost cursor: nat,
                    written: seq<Row>, ghost leftBefore: seq<nat>, ghost rightPos: seq<nat>)
    returns (out: seq<Row>, next: nat, ghost leftPos: seq<nat>)
    requires Written(baseRows, reader, injected, cursor, written, leftBefore, rightPos)
    ensures reader <= next <= |baseRows| && out == written + baseRows[reader..next]
    ensures forall r | reader <= r < next :: wanted(baseRows[r].txid)
    ensures next < |baseRows| ==> !wanted(baseRows[next].txid)
    ensures Written(baseRows, next, injected, cursor, out, leftPos, rightPos)
    ensures leftBefore <= leftPos && Behind(leftPos, rightPos, reader)
    ensures |leftBefore| == reader && |written| == reader + cursor
  {
    hide Woven;
    out, next, leftPos := written, reader, leftBefore;
    while next < |baseRows| && wanted(baseRows[next].txid)
      invariant reader <= next <= |baseRows| && out == written + baseRows[reader..next]
      invariant forall r | reader <= r < next :: wanted(baseRows[r].txid)
      invariant Written(baseRows, next, injected, cursor, out, leftPos, rightPos)
      invariant leftBefore <= leftPos && Behind(leftPos, rightPos, reader)
    {
      var rows := Rows(injected[..cursor]);
      InterleaveLeft(baseRows[..next], rows, out, leftPos, rightPos, baseRows[next]);
      RowBehind(baseRows[..next], rows, out, leftPos, rightPos, reader);
      assert baseRows[..next + 1] == baseRows[..next] + [baseRows[next]];
      leftPos := leftPos + [|out|];
      out, next := out + [baseRows[next]], next + 1;
    }
  }

  lemma NextRow(injected: seq<Tx>, cursor: nat)
    requires cursor < |injected|
    ensures Rows(injected[..cursor + 1]) == Rows(injected[..cursor]) + [RowOf(injected[cursor])]
  {}

  /** For a base in time order the merge is the stable one, base first on ties. */
  lemma MergeIsStable(base: seq<BaseTx>, injected: seq<Tx>, basePos: seq<nat>, injPos: seq<nat>, x: nat, y: nat)
    requires Woven(basePos, injPos) && ByTime(base, injected, basePos, injPos)
    requires forall i, j | 0 <= i <= j < |base| :: base[i].moment <= base[j].moment
    requires x < |basePos| && y < |injPos|
    ensures injPos[y] < basePos[x] <==> injected[y].moment < base[x].moment
    ensures basePos[x] < injPos[y] <==> base[x].moment <= injected[y].moment
  {
    assert injected[y].moment < base[x].moment ==> LaterBase(base, x, injected[y].moment);
    assert basePos[x] in basePos && injPos[y] in injPos;
  }

  // ---- index intervals ----------------------------------------------------------------

  /** `base_position.get(k, default)`. */
  function Lookup(basePos: seq<nat>, k: int, default: int): int {
    if 0 <= k < |basePos| then basePos[k] else default
  }

  function EpisodeStart(basePos: seq<nat>, total: nat, start: int): int { Lookup(basePos, start, total) }

  function EpisodeEnd(basePos: seq<nat>, total: nat, end: int): int { Lookup(basePos, end - 1, total - 1) + 1 }

  ghost predicate Inside(low: int, k: int, high: int) { low <= k < high }

  /** A base transaction lies in the remapped episode exactly when it lay in the original. */
  ghost predicate SameMembers(basePos: seq<nat>, total: nat, start: int, end: int) {
    forall i | 0 <= i < |basePos| ::
      Inside(EpisodeStart(basePos, total, start), basePos[i], EpisodeEnd(basePos, total, end)) <==>
      Inside(start, i, end)
  }

  /** The remapping keeps the members of an episode, except that an empty episode ending at 0 comes out as
      everything from its start. */
  lemma EpisodeMembersKept(basePos: seq<nat>, injPos: seq<nat>, start: nat, end: nat)
    requires Woven(basePos, injPos)
    ensures SameMembers(basePos, |basePos| + |injPos|, start, end) <==> end >= 1 || start >= |basePos|
  {
    var n := |basePos|;
    forall i | 0 <= i < n ensures basePos[i] < n + |injPos| { assert basePos[i] in basePos; }
    if end == 0 && start < n {
      assert !Inside(start, start, end);
    }
  }

  /** The remapped episode begins at its first base transaction and ends right behind its last; past the base both
      bounds are the number of all transactions. */
  lemma EpisodeIsTight(basePos: seq<nat>, total: nat, start: nat, end: nat)
    ensures start < |basePos| ==> EpisodeStart(basePos, total, start) == basePos[start]
    ensures start >= |basePos| ==> EpisodeStart(basePos, total, start) == total
    ensures 1 <= end <= |basePos| ==> EpisodeEnd(basePos, total, end) == basePos[end - 1] + 1
    ensures end > |basePos| || end == 0 ==> EpisodeEnd(basePos, total, end) == total
  {}

  /** The remapped bounds of the split groups; a group that starts at no base transaction is a KeyError. */
  method RemapGroups(basePos: seq<nat>, total: nat, groups: seq<(nat, nat)>) returns (r: Result<seq<(int, int)>, int>)
    ensures r.Ok? <==> forall g | 0 <= g < |groups| :: groups[g].0 < |basePos|
    ensures r.Ok? ==> |r.value| == |groups| && forall g | 0 <= g < |groups| ::
      r.value[g] == (basePos[groups[g].0], Lookup(basePos, groups[g].1, total))
    ensures r.Err? ==> exists g :: 0 <= g < |groups| && groups[g].0 == r.error && r.error >= |basePos|
  {
    var out: seq<(int, int)> := [];
    for g := 0 to |groups|
      invariant |out| == g && forall h | 0 <= h < g ::
        groups[h].0 < |basePos| && out[h] == (basePos[groups[h].0] as int, Lookup(basePos, groups[h].1, total))
    {
      if groups[g].0 >= |basePos| {
        return Err(groups[g].0);
      }
      out := out + [(basePos[groups[g].0], Lookup(basePos, groups[g].1, total))];
    }
    return Ok(out);
  }

  /** Groups that follow each other from 0 to `n`, none of them empty. */
  ghost predicate Consecutive(groups: seq<(nat, nat)>, n: nat) {
    && groups != [] && groups[0].0 == 0 && groups[|groups| - 1].1 == n
    && (forall g | 0 <= g < |groups| :: groups[g].0 < groups[g].1)
    && (forall g | 0 <= g < |groups| - 1 :: groups[g].1 == groups[g + 1].0)
  }

  function Bounds(basePos: seq<nat>, total: nat, group: (nat, nat)): (int, int) {
    (Lookup(basePos, group.0, total), Lookup(basePos, group.1, total))
  }

  lemma {:induction false} GroupStarts(groups: seq<(nat, nat)>, n: nat, g: nat, h: nat)
    requires Consecutive(groups, n) && g < h < |groups|
    ensures groups[g].1 <= groups[h].0
  {
    if g + 1 < h {
      GroupStarts(groups, n, g, h - 1);
    }
  }

  lemma {:induction false} GroupEnds(groups: seq<(nat, nat)>, n: nat, g: nat)
    requires Consecutive(groups, n) && g < |groups|
    ensures groups[g].1 <= n
    decreases |groups| - g
  {
    if g + 1 < |groups| {
      GroupEnds(groups, n, g + 1);
    }
  }

  /** The group a position falls in, below group `g`. */
  lemma {:induction false} FindGroup(basePos: seq<nat>, total: nat, groups: seq<(nat, nat)>, k: int, g: nat)
    returns (h: nat)
    requires Consecutive(groups, |basePos|) && g < |groups|
    requires basePos != [] && basePos[0] <= k < Bounds(basePos, total, groups[g]).1
    ensures h <= g && Inside(Bounds(basePos, total, groups[h]).0, k, Bounds(basePos, total, groups[h]).1)
  {
    if Bounds(basePos, total, groups[g]).0 <= k || g == 0 {
      h := g;
    } else {
      h := FindGroup(basePos, total, groups, k, g - 1);
    }
  }

  /** The remapped groups still follow each other, hold the same base transactions, and together are all
      positions from the first base transaction on. */
  lemma GroupsTile(basePos: seq<nat>, injPos: seq<nat>, groups: seq<(nat, nat)>)
    requires Woven(basePos, injPos) && Consecutive(groups, |basePos|)
    ensures var total := |basePos| + |injPos|;
      && (forall g | 0 <= g < |groups| - 1 ::
            Bounds(basePos, total, groups[g]).1 == Bounds(basePos, total, groups[g + 1]).0)
      && Bounds(basePos, total, groups[0]).0 == basePos[0] && Bounds(basePos, total, groups[|groups| - 1]).1 == total
      && (forall g, i | 0 <= g < |groups| && 0 <= i < |basePos| ::
            Inside(Bounds(basePos, total, groups[g]).0, basePos[i], Bounds(basePos, total, groups[g]).1) <==>
            Inside(groups[g].0, i, groups[g].1))
      && (forall g | 0 <= g < |groups| ::
            Bounds(basePos, total, groups[g]).0 < Bounds(basePos, total, groups[g]).1 <= total)
  {
    var n, total := |basePos|, |basePos| + |injPos|;
    forall i | 0 <= i < n ensures basePos[i] < total { assert basePos[i] in basePos; }
    forall g | 0 <= g < |groups| ensures groups[g].1 <= n { GroupEnds(groups, n, g); }
  }

  /** Every position from the first base transaction on is in exactly one remapped group. */
  lemma OneGroupEach(basePos: seq<nat>, injPos: seq<nat>, groups: seq<(nat, nat)>, k: nat) returns (g: nat)
    requires Woven(basePos, injPos) && Consecutive(groups, |basePos|) && basePos[0] <= k < |basePos| + |injPos|
    ensures g < |groups|
    ensures var total := |basePos| + |injPos|; forall h | 0 <= h < |groups| ::
      Inside(Bounds(basePos, total, groups[h]).0, k, Bounds(basePos, total, groups[h]).1) <==> h == g
  {
    var total := |basePos| + |injPos|;
    GroupsTile(basePos, injPos, groups);
    g := FindGroup(basePos, total, groups, k, |groups| - 1);
    forall h | 0 <= h < |groups| && h != g
      ensures !Inside(Bounds(basePos, total, groups[h]).0, k, Bounds(basePos, total, groups[h]).1)
    {
      var low, high := if g < h then g else h, if g < h then h else g;
      GroupStarts(groups, |basePos|, low, high);
      assert Lookup(basePos, groups[low].1, total) <= Lookup(basePos, groups[high].0, total);
    }
  }
}
