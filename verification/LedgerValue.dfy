/** No value out of nothing: what a valid ledger holds never exceeds what was minted. */
module LedgerValue {
  import opened Sequences
  import opened Ledger

  ghost function Total(created: map<Outpoint, int>, keys: set<Outpoint>): int
    requires keys <= created.Keys
  {
    if keys == {} then 0
    else
      var key :| key in keys;
      created[key] + Total(created, keys - {key})
  }

  lemma {:induction false} TotalSplit(created: map<Outpoint, int>, keys: set<Outpoint>, k: Outpoint)
    requires keys <= created.Keys && k in keys
    ensures Total(created, keys) == created[k] + Total(created, keys - {k})
  {
    var key :| key in keys && Total(created, keys) == created[key] + Total(created, keys - {key});
    if key != k {
      TotalSplit(created, keys - {key}, k);
      TotalSplit(created, keys - {k}, key);
      assert keys - {key} - {k} == keys - {k} - {key};
    }
  }

  lemma {:induction false} TotalSame(m: map<Outpoint, int>, n: map<Outpoint, int>, keys: set<Outpoint>)
    requires keys <= m.Keys && keys <= n.Keys && forall key | key in keys :: m[key] == n[key]
    ensures Total(m, keys) == Total(n, keys)
  {
    if keys != {} {
      var key :| key in keys;
      TotalSame(m, n, keys - {key});
      TotalSplit(m, keys, key);
      TotalSplit(n, keys, key);
    }
  }

  /** The value of the outputs on the books that were not spent. */
  ghost function Unspent(created: map<Outpoint, int>, spent: set<Outpoint>): int {
    Total(created, created.Keys - spent)
  }

  ghost predicate NonNegative(rows: seq<Row>) {
    forall i, v | 0 <= i < |rows| && 0 <= v < |rows[i].outputs| :: rows[i].outputs[v] >= 0
  }

  /** The outputs of the transactions that have no inputs or spend something unknown. */
  ghost function Minted(rows: seq<Row>): int {
    if rows == [] then 0
    else
      var n := |rows| - 1;
      Minted(rows[..n]) + if rows[n].duplicate || FullyResolved(rows, n) then 0 else Sum(rows[n].outputs)
  }

  /** Reading inputs moves value from the unspent outputs to the transaction. */
  lemma {:induction false} InputsMoveValue(created: map<Outpoint, int>, t: Tally, txid: TxId, items: seq<Input>)
    requires TakeInputs(created, t, txid, items).Ok?
    ensures var u := TakeInputs(created, t, txid, items).value;
      Unspent(created, u.spent) + u.valueIn == Unspent(created, t.spent) + t.valueIn
  {
    if items != [] {
      var item := items[|items| - 1];
      InputsMoveValue(created, t, txid, items[..|items| - 1]);
      var u := TakeInputs(created, t, txid, items[..|items| - 1]).value;
      if item.prev.Some? {
        var key := item.prev.value;
        assert created.Keys - (u.spent + {key}) == created.Keys - u.spent - {key};
        if key in created {
          TotalSplit(created, created.Keys - u.spent, key);
        } else {
          assert created.Keys - u.spent - {key} == created.Keys - u.spent;
        }
      }
    }
  }

  /** Booking the outputs of a new transaction adds at most their sum to the unspent value. */
  lemma {:induction false} OutputsAddValue(created: map<Outpoint, int>, spent: set<Outpoint>, txid: TxId,
                                           outputs: seq<int>)
    requires forall key | key in created :: key.txid != txid
    requires forall v | 0 <= v < |outputs| :: outputs[v] >= 0
    ensures Unspent(AddOutputs(created, txid, outputs), spent) <= Unspent(created, spent) + Sum(outputs)
  {
    if outputs != [] {
      var last := |outputs| - 1;
      OutputsAddValue(created, spent, txid, outputs[..last]);
      AddOutputsKeys(created, txid, outputs[..last]);
      var m, key := AddOutputs(created, txid, outputs[..last]), Outpoint(txid, last);
      var m' := m[key := outputs[last]];
      var keys := m.Keys - spent;
      TotalSame(m, m', keys);
      if key in spent {
        assert m'.Keys - spent == keys;
      } else {
        assert m'.Keys - spent == keys + {key};
        assert keys + {key} - {key} == keys;
        TotalSplit(m', keys + {key}, key);
      }
    }
  }

  lemma FullyResolvedByBook(b: Book, front: seq<Row>, row: Row)
    requires BookOf(b, front)
    ensures FullyResolved(front + [row], |front|) <==> row.inputs != [] && AllResolved(b.created, row.inputs)
  {
    var rows, n := front + [row], |front|;
    FrontFacts(front, row);
    assert rows[n] == row;
  }

  /** Conservation: as long as outputs are not negative, the unspent value of an accepted ledger is
      at most the value minted by transactions without inputs or with an input that names nothing known. */
  lemma {:induction false} UnspentAtMostMinted(rows: seq<Row>)
    requires TakeRows(rows).Ok? && NonNegative(rows)
    ensures var b := TakeRows(rows).value; Unspent(b.created, b.spent) <= Minted(rows)
  {
    if rows != [] {
      var front, row := rows[..|rows| - 1], rows[|rows| - 1];
      assert rows == front + [row];
      assert forall i | 0 <= i < |front| :: front[i] == rows[i];
      UnspentAtMostMinted(front);
      AcceptsExactlyValid(front);
      RowMints(TakeRows(front).value, front, row);
    }
  }

  lemma {:induction false} InputsNonNegative(created: map<Outpoint, int>, t: Tally, txid: TxId, items: seq<Input>)
    requires TakeInputs(created, t, txid, items).Ok? && forall key | key in created :: created[key] >= 0
    ensures TakeInputs(created, t, txid, items).value.valueIn >= t.valueIn
  {
    if items != [] {
      InputsNonNegative(created, t, txid, items[..|items| - 1]);
    }
  }

  lemma BookNonNegative(b: Book, rows: seq<Row>, key: Outpoint)
    requires BookOf(b, rows) && NonNegative(rows) && key in b.created
    ensures b.created[key] >= 0
  {
    assert CreatedBefore(rows, |rows|, key);
    var i: nat :| Creates(rows, i, key);
    assert rows[i].outputs[key.vout] >= 0;
  }

  lemma RowMints(b: Book, front: seq<Row>, row: Row)
    requires BookOf(b, front) && TakeRow(b, row).Ok? && NonNegative(front)
    requires forall v | 0 <= v < |row.outputs| :: row.outputs[v] >= 0
    ensures var c := TakeRow(b, row).value;
      Unspent(c.created, c.spent) <= Unspent(b.created, b.spent)
        + if row.duplicate || FullyResolved(front + [row], |front|) then 0 else Sum(row.outputs)
  {
    if !row.duplicate {
      var t := Tally(b.spent, b.checks.unresolved, 0, true);
      var u := TakeInputs(b.created, t, row.txid, row.inputs).value;
      TakeInputsFits(b.created, t, row.txid, row.inputs);
      InputsMoveValue(b.created, t, row.txid, row.inputs);
      forall key | key in b.created ensures key.txid != row.txid {
        assert CreatedBefore(front, |front|, key);
        var i: nat :| Creates(front, i, key);
        assert Names(front, i, key.txid);
      }
      OutputsAddValue(b.created, u.spent, row.txid, row.outputs);
      FullyResolvedByBook(b, front, row);
      forall key | key in b.created ensures b.created[key] >= 0 {
        BookNonNegative(b, front, key);
      }
      InputsNonNegative(b.created, t, row.txid, row.inputs);
    }
  }
}
