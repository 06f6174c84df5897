/** What the merge does to the ledger: woven row streams that share no txid are a valid ledger exactly when
    both are. */
module MergedLedger {
  import opened Wrappers
  import opened Sequences
  import opened Ledger
  import opened InjectedLedger
  import opened Merging

  /** Canonical row `i` creates or spends an output of `txid`. */
  ghost predicate Touches(rows: seq<Row>, i: nat, txid: TxId) {
    && i < |rows| && !rows[i].duplicate
    && (rows[i].txid == txid ||
        exists a, vout :: 0 <= a < |rows[i].inputs| && rows[i].inputs[a].prev == Some(Outpoint(txid, vout)))
  }

  ghost predicate Apart(left: seq<Row>, right: seq<Row>) {
    forall i: nat, j: nat, txid | Touches(left, i, txid) :: !Touches(right, j, txid)
  }

  /** `part` stands in `out` at the positions `pos`, and no other row touches its txids. */
  ghost predicate PartOf(part: seq<Row>, out: seq<Row>, pos: seq<nat>) {
    && |pos| == |part| && Rising(pos)
    && (forall i | 0 <= i < |pos| :: pos[i] < |out| && out[pos[i]] == part[i])
    && (forall k: nat, i: nat, txid | Touches(out, k, txid) && Touches(part, i, txid) :: k in pos)
  }

  lemma BothArePartOf(left: seq<Row>, right: seq<Row>, out: seq<Row>, leftPos: seq<nat>, rightPos: seq<nat>)
    requires Interleaves(left, right, out, leftPos, rightPos) && Apart(left, right)
    ensures PartOf(left, out, leftPos) && PartOf(right, out, rightPos)
  {
    SameTouch(left, out, leftPos);
    SameTouch(right, out, rightPos);
  }

  lemma SameTouch(part: seq<Row>, out: seq<Row>, pos: seq<nat>)
    requires |pos| == |part| && forall i | 0 <= i < |pos| :: pos[i] < |out| && out[pos[i]] == part[i]
    ensures forall k: nat, txid | k in pos && Touches(out, k, txid) :: exists i: nat :: Touches(part, i, txid)
  {
    forall k: nat, txid | k in pos && Touches(out, k, txid) ensures exists i: nat :: Touches(part, i, txid) {
      var i: nat :| i < |pos| && pos[i] == k;
      assert Touches(part, i, txid);
    }
  }

  lemma SpendTouches(rows: seq<Row>, i: nat, a: nat, key: Outpoint)
    requires Spends(rows, i, a, key)
    ensures Touches(rows, i, key.txid)
  {
    assert rows[i].inputs[a].prev == Some(Outpoint(key.txid, key.vout));
  }

  lemma RowOfPart(part: seq<Row>, out: seq<Row>, pos: seq<nat>, k: nat) returns (i: nat)
    requires PartOf(part, out, pos) && k in pos
    ensures i < |part| && pos[i] == k && out[k] == part[i]
  {
    i :| 0 <= i < |pos| && pos[i] == k;
  }

  /** An outpoint the part touches is created before in the whole exactly when it is in the part. */
  lemma CreatedSame(part: seq<Row>, out: seq<Row>, pos: seq<nat>, i: nat, key: Outpoint)
    requires PartOf(part, out, pos) && Touches(part, i, key.txid)
    ensures CreatedBefore(out, pos[i], key) <==> CreatedBefore(part, i, key)
  {
    if CreatedBefore(out, pos[i], key) {
      var k: nat :| k < pos[i] && Creates(out, k, key);
      assert Touches(out, k, key.txid);
      var j := RowOfPart(part, out, pos, k);
      assert j < i && Creates(part, j, key);
    }
    if j: nat :| j < i && Creates(part, j, key) {
      assert Creates(out, pos[j], key);
    }
  }

  lemma ResolvedSame(part: seq<Row>, out: seq<Row>, pos: seq<nat>, i: nat)
    requires PartOf(part, out, pos) && i < |part| && !part[i].duplicate
    ensures FullyResolved(out, pos[i]) <==> FullyResolved(part, i)
  {
    forall a | 0 <= a < |part[i].inputs| && part[i].inputs[a].prev.Some?
      ensures var key := part[i].inputs[a].prev.value; CreatedBefore(out, pos[i], key) <==> CreatedBefore(part, i, key)
    {
      var key := part[i].inputs[a].prev.value;
      SpendTouches(part, i, a, key);
      CreatedSame(part, out, pos, i, key);
    }
  }

  lemma PartIsValid(part: seq<Row>, out: seq<Row>, pos: seq<nat>)
    requires PartOf(part, out, pos) && ValidLedger(out)
    ensures ValidLedger(part)
  {
    forall i: nat, a: nat, j: nat, b: nat, key | Spends(part, i, a, key) && Spends(part, j, b, key)
      ensures i == j && a == b
    {
      assert Spends(out, pos[i], a, key) && Spends(out, pos[j], b, key);
    }
    forall i: nat, a: nat, j: nat, key | Spends(part, i, a, key) && j < i && Creates(part, j, key)
      ensures part[i].inputs[a].amount == Some(part[j].outputs[key.vout])
    {
      assert Spends(out, pos[i], a, key) && Creates(out, pos[j], key);
    }
    forall i | 0 <= i < |part| && !part[i].duplicate && FullyResolved(part, i)
      ensures SumIn(part[i].inputs) >= Sum(part[i].outputs)
    {
      ResolvedSame(part, out, pos, i);
    }
  }

  /** The rules of a ledger, read at one row of the whole. */
  ghost predicate RowRules(out: seq<Row>, k: nat) {
    && k < |out|
    && (forall l | 0 <= l < |out| && l != k && !out[k].duplicate && !out[l].duplicate :: out[k].txid != out[l].txid)
    && (forall a: nat, l: nat, b: nat, key | Spends(out, k, a, key) && Spends(out, l, b, key) :: k == l && a == b)
    && (forall a: nat, l: nat, key | Spends(out, k, a, key) && l < k && Creates(out, l, key) ::
          out[k].inputs[a].amount == Some(out[l].outputs[key.vout]))
    && (!out[k].duplicate && FullyResolved(out, k) ==> SumIn(out[k].inputs) >= Sum(out[k].outputs))
  }

  lemma PartRules(part: seq<Row>, out: seq<Row>, pos: seq<nat>, i: nat)
    requires PartOf(part, out, pos) && ValidLedger(part) && i < |part|
    ensures RowRules(out, pos[i])
  {
    var k := pos[i];
    forall l | 0 <= l < |out| && l != k && !out[k].duplicate && !out[l].duplicate ensures out[k].txid != out[l].txid {
      if out[k].txid == out[l].txid {
        assert Touches(part, i, out[k].txid) && Touches(out, l, out[k].txid);
        var j := RowOfPart(part, out, pos, l);
      }
    }
    forall a: nat, l: nat, b: nat, key | Spends(out, k, a, key) && Spends(out, l, b, key) ensures k == l && a == b {
      assert Spends(part, i, a, key);
      SpendTouches(part, i, a, key);
      SpendTouches(out, l, b, key);
      var j := RowOfPart(part, out, pos, l);
      assert Spends(part, j, b, key);
    }
    forall a: nat, l: nat, key | Spends(out, k, a, key) && l < k && Creates(out, l, key)
      ensures out[k].inputs[a].amount == Some(out[l].outputs[key.vout])
    {
      assert Spends(part, i, a, key);
      SpendTouches(part, i, a, key);
      assert Touches(out, l, key.txid);
      var j := RowOfPart(part, out, pos, l);
      assert j < i && Creates(part, j, key);
    }
    if !out[k].duplicate {
      ResolvedSame(part, out, pos, i);
    }
  }

  /** Weaving two row streams without a common txid: the checker accepts the whole exactly when it accepts
      both streams. */
  lemma WovenLedgerValid(left: seq<Row>, right: seq<Row>, out: seq<Row>, leftPos: seq<nat>, rightPos: seq<nat>)
    requires Interleaves(left, right, out, leftPos, rightPos) && Apart(left, right)
    ensures TakeRows(out).Ok? <==> TakeRows(left).Ok? && TakeRows(right).Ok?
  {
    BothArePartOf(left, right, out, leftPos, rightPos);
    AcceptsExactlyValid(out);
    AcceptsExactlyValid(left);
    AcceptsExactlyValid(right);
    if ValidLedger(out) {
      PartIsValid(left, out, leftPos);
      PartIsValid(right, out, rightPos);
    }
    if ValidLedger(left) && ValidLedger(right) {
      forall k: nat | k < |out| ensures RowRules(out, k) {
        if k in leftPos {
          var i := RowOfPart(left, out, leftPos, k);
          PartRules(left, out, leftPos, i);
        } else {
          var j := RowOfPart(right, out, rightPos, k);
          PartRules(right, out, rightPos, j);
        }
      }
      RulesMakeValid(out);
    }
  }

  lemma RulesMakeValid(out: seq<Row>)
    requires forall k: nat | k < |out| :: RowRules(out, k)
    ensures ValidLedger(out)
  {
    forall i, j | 0 <= i < j < |out| && !out[i].duplicate && !out[j].duplicate ensures out[i].txid != out[j].txid {
      assert RowRules(out, i);
    }
    forall i: nat, a: nat, j: nat, b: nat, key | Spends(out, i, a, key) && Spends(out, j, b, key)
      ensures i == j && a == b
    {
      assert RowRules(out, i);
    }
    forall i: nat, a: nat, j: nat, key | Spends(out, i, a, key) && j < i && Creates(out, j, key)
      ensures out[i].inputs[a].amount == Some(out[j].outputs[key.vout])
    {
      assert RowRules(out, i);
    }
    forall i | 0 <= i < |out| && !out[i].duplicate && FullyResolved(out, i)
      ensures SumIn(out[i].inputs) >= Sum(out[i].outputs)
    {
      assert RowRules(out, i);
    }
  }

  // ---- the counts ----------------------------------------------------------------------

  lemma Swapped(left: seq<Row>, right: seq<Row>, out: seq<Row>, leftPos: seq<nat>, rightPos: seq<nat>)
    requires Interleaves(left, right, out, leftPos, rightPos)
    ensures Interleaves(right, left, out, rightPos, leftPos)
  {}

  /** The last row of the whole is the last of its stream, and without it both are still woven. */
  lemma WithoutLastRow(left: seq<Row>, right: seq<Row>, out: seq<Row>, leftPos: seq<nat>, rightPos: seq<nat>)
    requires Interleaves(left, right, out, leftPos, rightPos) && out != [] && |out| - 1 in leftPos
    ensures left != [] && leftPos[|left| - 1] == |out| - 1 && out[|out| - 1] == left[|left| - 1]
    ensures var m, n := |left| - 1, |out| - 1; Interleaves(left[..m], right, out[..n], leftPos[..m], rightPos)
  {
    var m, n := |left| - 1, |out| - 1;
    var i :| 0 <= i < |leftPos| && leftPos[i] == n;
    assert leftPos[m] in leftPos;
    assert leftPos == leftPos[..m] + [leftPos[m]];
    forall k | k in leftPos[..m] ensures k < n {
      var j :| 0 <= j < m && leftPos[j] == k;
    }
    forall k | k in rightPos ensures k < n {
      assert k in leftPos <==> k !in rightPos;
    }
    forall k | 0 <= k < n ensures k in leftPos[..m] <==> k !in rightPos {
      assert k in leftPos <==> k in leftPos[..m] || k == leftPos[m];
    }
    forall j | 0 <= j < |right| ensures rightPos[j] < n && out[..n][rightPos[j]] == right[j] {
      assert rightPos[j] in rightPos;
    }
  }

  /** A row of the part misses in the whole exactly what it misses in the part. */
  lemma {:induction false} DanglingSame(part: seq<Row>, out: seq<Row>, pos: seq<nat>, i: nat, items: seq<Input>)
    requires PartOf(part, out, pos) && i < |part| && !part[i].duplicate && items <= part[i].inputs
    ensures Dangling(out[..pos[i]], items) == Dangling(part[..i], items)
  {
    if items != [] {
      var a := |items| - 1;
      DanglingSame(part, out, pos, i, items[..a]);
      if items[a].prev.Some? {
        var key := items[a].prev.value;
        SpendTouches(part, i, a, key);
        CreatedSame(part, out, pos, i, key);
        PrefixCreated(out, pos[i], key);
        PrefixCreated(part, i, key);
      }
    }
  }

  lemma PrefixCreated(rows: seq<Row>, n: nat, key: Outpoint)
    requires n <= |rows|
    ensures CreatedBefore(rows[..n], n, key) <==> CreatedBefore(rows, n, key)
  {
    if i: nat :| i < n && Creates(rows, i, key) {
      assert Creates(rows[..n], i, key);
    }
    if i: nat :| i < n && Creates(rows[..n], i, key) {
      assert Creates(rows, i, key);
    }
  }

  lemma ApartFront(left: seq<Row>, right: seq<Row>, m: nat)
    requires Apart(left, right) && m <= |left|
    ensures Apart(left[..m], right)
  {
    forall i: nat, j: nat, txid | Touches(left[..m], i, txid) ensures !Touches(right, j, txid) {
      assert Touches(left, i, txid);
    }
  }

  lemma ApartSwapped(left: seq<Row>, right: seq<Row>)
    requires Apart(left, right)
    ensures Apart(right, left)
  {}

  /** The last row of the whole, if it is of the left stream, counts in the whole as it does in its stream. */
  lemma LastRowCounts(left: seq<Row>, right: seq<Row>, out: seq<Row>, leftPos: seq<nat>, rightPos: seq<nat>)
    requires Interleaves(left, right, out, leftPos, rightPos) && Apart(left, right)
    requires out != [] && |out| - 1 in leftPos
    ensures left != []
    ensures var m, n := |left| - 1, |out| - 1;
      && Unresolved(out) - Unresolved(out[..n]) == Unresolved(left) - Unresolved(left[..m])
      && Canonical(out) - Canonical(out[..n]) == Canonical(left) - Canonical(left[..m])
  {
    WithoutLastRow(left, right, out, leftPos, rightPos);
    BothArePartOf(left, right, out, leftPos, rightPos);
    var m, n := |left| - 1, |out| - 1;
    if !left[m].duplicate {
      DanglingSame(left, out, leftPos, m, left[m].inputs);
    }
  }

  /** The counts of the whole are those of the two streams added up. */
  lemma {:induction false} CountsAddUp(left: seq<Row>, right: seq<Row>, out: seq<Row>,
                                       leftPos: seq<nat>, rightPos: seq<nat>)
    requires Interleaves(left, right, out, leftPos, rightPos) && Apart(left, right)
    ensures Unresolved(out) == Unresolved(left) + Unresolved(right)
    ensures Canonical(out) == Canonical(left) + Canonical(right)
    decreases |out|
  {
    hide Apart, Canonical, Unresolved;
    if out == [] {
      NoCounts();
    } else if |out| - 1 in leftPos {
      LastRowCounts(left, right, out, leftPos, rightPos);
      WithoutLastRow(left, right, out, leftPos, rightPos);
      ApartFront(left, right, |left| - 1);
      CountsAddUp(left[..|left| - 1], right, out[..|out| - 1], leftPos[..|left| - 1], rightPos);
    } else {
      Swapped(left, right, out, leftPos, rightPos);
      ApartSwapped(left, right);
      LastRowCounts(right, left, out, rightPos, leftPos);
      WithoutLastRow(right, left, out, rightPos, leftPos);
      ApartFront(right, left, |right| - 1);
      ApartSwapped(right[..|right| - 1], left);
      Swapped(right[..|right| - 1], left, out[..|out| - 1], rightPos[..|right| - 1], leftPos);
      CountsAddUp(left, right[..|right| - 1], out[..|out| - 1], leftPos, rightPos[..|right| - 1]);
    }
  }

  lemma NoCounts()
    ensures Unresolved([]) == 0 && Canonical([]) == 0
  {}

  /** What the checker reports of the whole is what it reports of the two streams, added up. */
  lemma WovenCounts(left: seq<Row>, right: seq<Row>, out: seq<Row>, leftPos: seq<nat>, rightPos: seq<nat>)
    requires Interleaves(left, right, out, leftPos, rightPos) && Apart(left, right) && TakeRows(out).Ok?
    ensures TakeRows(left).Ok? && TakeRows(right).Ok?
    ensures var a, b := TakeRows(left).value.checks, TakeRows(right).value.checks;
      TakeRows(out).value.checks ==
        Checks(a.transactions + b.transactions, a.duplicates + b.duplicates, a.unresolved + b.unresolved)
  {
    WovenLedgerValid(left, right, out, leftPos, rightPos);
    CountsAddUp(left, right, out, leftPos, rightPos);
    CountsAreRight(out);
    CountsAreRight(left);
    CountsAreRight(right);
  }

  /** A part: an accepted base fixture, merged with what the injector made, is accepted, and the injector adds its
      transactions to the counts and nothing unresolved. */
  lemma PartAccepted(baseRows: seq<Row>, txs: seq<Tx>, sorted: seq<Tx>, out: seq<Row>,
                     leftPos: seq<nat>, rightPos: seq<nat>)
    requires Disciplined(txs) && multiset(sorted) == multiset(txs) && SortedByMoment(sorted)
    requires Interleaves(baseRows, Rows(sorted), out, leftPos, rightPos) && Apart(baseRows, Rows(sorted))
    requires TakeRows(baseRows).Ok?
    ensures TakeRows(out).Ok?
    ensures var base := TakeRows(baseRows).value.checks;
      TakeRows(out).value.checks == Checks(base.transactions + |txs|, base.duplicates, base.unresolved)
  {
    SortedLedgerAccepted(txs, sorted);
    WovenLedgerValid(baseRows, Rows(sorted), out, leftPos, rightPos);
    WovenCounts(baseRows, Rows(sorted), out, leftPos, rightPos);
  }
}
