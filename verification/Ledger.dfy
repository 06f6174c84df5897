/** The UTXO ledger and its one-pass checker: `verify` of generator.py. */
module Ledger {
  import opened Wrappers
  import opened Sequences

  type TxId = string

  datatype Outpoint = Outpoint(txid: TxId, vout: int)

  /** An input row: a null prev_txid is None, and amounts the fixture leaves out are None. */
  datatype Input = Input(prev: Option<Outpoint>, amount: Option<int>)

  /** A row of the ingestion file; `duplicate` is a source_record_id starting with "r-duplicate". */
  datatype Row = Row(duplicate: bool, txid: TxId, inputs: seq<Input>, outputs: seq<int>)

  datatype Checks = Checks(transactions: nat, duplicates: nat, unresolved: nat)

  datatype LedgerError =
    | DuplicateTxid(txid: TxId)
    | DoubleSpend(key: Outpoint, txid: TxId)
    | AmountMismatch(key: Outpoint, txid: TxId)
    | CreatesValue(txid: TxId)

  /** What the checker has on its books between two rows. */
  datatype Book = Book(created: map<Outpoint, int>, spent: set<Outpoint>, txids: set<TxId>, checks: Checks)

  const EMPTY_BOOK := Book(map[], {}, {}, Checks(0, 0, 0))

  /** What it has inside a row, while reading the inputs. */
  datatype Tally = Tally(spent: set<Outpoint>, unresolved: nat, valueIn: int, known: bool)

  function TakeInput(created: map<Outpoint, int>, t: Tally, txid: TxId, item: Input): Result<Tally, LedgerError> {
    if item.prev.None? then Ok(t.(known := false))
    else
      var key := item.prev.value;
      if key in t.spent then Err(DoubleSpend(key, txid))
      else if key !in created then
        Ok(Tally(t.spent + {key}, t.unresolved + 1, t.valueIn, false))
      else if item.amount != Some(created[key]) then Err(AmountMismatch(key, txid))
      else Ok(Tally(t.spent + {key}, t.unresolved, t.valueIn + created[key], t.known))
  }

  function TakeInputs(created: map<Outpoint, int>, t: Tally, txid: TxId,
                      items: seq<Input>): Result<Tally, LedgerError> {
    if items == [] then Ok(t)
    else
      match TakeInputs(created, t, txid, items[..|items| - 1])
      case Err(e) => Err(e)
      case Ok(u) => TakeInput(created, u, txid, items[|items| - 1])
  }

  function AddOutputs(created: map<Outpoint, int>, txid: TxId, outputs: seq<int>): map<Outpoint, int> {
    if outputs == [] then created
    else
      var last := |outputs| - 1;
      AddOutputs(created, txid, outputs[..last])[Outpoint(txid, last) := outputs[last]]
  }

  function TakeRow(b: Book, row: Row): Result<Book, LedgerError> {
    if row.duplicate then Ok(b.(checks := b.checks.(duplicates := b.checks.duplicates + 1)))
    else if row.txid in b.txids then Err(DuplicateTxid(row.txid))
    else
      match TakeInputs(b.created, Tally(b.spent, b.checks.unresolved, 0, true), row.txid, row.inputs)
      case Err(e) => Err(e)
      case Ok(t) =>
        if t.known && row.inputs != [] && t.valueIn < Sum(row.outputs) then Err(CreatesValue(row.txid))
        else Ok(Book(AddOutputs(b.created, row.txid, row.outputs), t.spent, b.txids + {row.txid},
                     Checks(b.checks.transactions + 1, b.checks.duplicates, t.unresolved)))
  }

  function TakeRows(rows: seq<Row>): Result<Book, LedgerError> {
    if rows == [] then Ok(EMPTY_BOOK)
    else
      match TakeRows(rows[..|rows| - 1])
      case Err(e) => Err(e)
      case Ok(b) => TakeRow(b, rows[|rows| - 1])
  }

  // ---- the invariant the checker is for -------------------------------------

  /** Row `i` creates outpoint `key`. */
  ghost predicate Creates(rows: seq<Row>, i: nat, key: Outpoint) {
    i < |rows| && !rows[i].duplicate && rows[i].txid == key.txid && 0 <= key.vout < |rows[i].outputs|
  }

  /** Input `a` of row `i` names outpoint `key`. */
  ghost predicate Spends(rows: seq<Row>, i: nat, a: nat, key: Outpoint) {
    i < |rows| && !rows[i].duplicate && a < |rows[i].inputs| && rows[i].inputs[a].prev == Some(key)
  }

  ghost predicate CreatedBefore(rows: seq<Row>, n: nat, key: Outpoint) {
    exists i: nat :: i < n && Creates(rows, i, key)
  }

  /** Row `i` has inputs, and each of them names an output created before. */
  ghost predicate FullyResolved(rows: seq<Row>, i: nat)
    requires i < |rows|
  {
    && rows[i].inputs != []
    && forall a | 0 <= a < |rows[i].inputs| ::
         rows[i].inputs[a].prev.Some? && CreatedBefore(rows, i, rows[i].inputs[a].prev.value)
  }

  function AmountIn(item: Input): int { if item.amount.Some? then item.amount.value else 0 }

  function SumIn(items: seq<Input>): int {
    if items == [] then 0 else SumIn(items[..|items| - 1]) + AmountIn(items[|items| - 1])
  }

  ghost predicate DistinctTxids(rows: seq<Row>) {
    forall i, j | 0 <= i < j < |rows| && !rows[i].duplicate && !rows[j].duplicate :: rows[i].txid != rows[j].txid
  }

  ghost predicate NoDoubleSpend(rows: seq<Row>) {
    forall i: nat, a: nat, j: nat, b: nat, key |
      Spends(rows, i, a, key) && Spends(rows, j, b, key) :: i == j && a == b
  }

  ghost predicate AmountsMatch(rows: seq<Row>) {
    forall i: nat, a: nat, j: nat, key | Spends(rows, i, a, key) && j < i && Creates(rows, j, key) ::
      rows[i].inputs[a].amount == Some(rows[j].outputs[key.vout])
  }

  ghost predicate ValueKept(rows: seq<Row>) {
    forall i | 0 <= i < |rows| && !rows[i].duplicate && FullyResolved(rows, i) ::
      SumIn(rows[i].inputs) >= Sum(rows[i].outputs)
  }

  ghost predicate ValidLedger(rows: seq<Row>) {
    DistinctTxids(rows) && NoDoubleSpend(rows) && AmountsMatch(rows) && ValueKept(rows)
  }

  // ---- the checker is exactly the invariant ----------------------------------

  ghost predicate SpentIn(rows: seq<Row>, key: Outpoint) {
    exists i: nat, a: nat :: Spends(rows, i, a, key)
  }

  ghost predicate Names(rows: seq<Row>, i: nat, txid: TxId) { i < |rows| && !rows[i].duplicate && rows[i].txid == txid }

  ghost predicate HasTxid(rows: seq<Row>, txid: TxId) { exists i: nat :: Names(rows, i, txid) }

  /** The book is the one a reader of `rows` would keep. */
  ghost predicate BookOf(b: Book, rows: seq<Row>) {
    && (forall key :: key in b.created <==> CreatedBefore(rows, |rows|, key))
    && (forall i: nat, key | Creates(rows, i, key) :: key in b.created && b.created[key] == rows[i].outputs[key.vout])
    && (forall key :: key in b.spent <==> SpentIn(rows, key))
    && (forall txid :: txid in b.txids <==> HasTxid(rows, txid))
  }

  /** `items` can be spent in this order from the book. */
  ghost predicate InputsFit(created: map<Outpoint, int>, spent: set<Outpoint>, items: seq<Input>) {
    && (forall a | 0 <= a < |items| && items[a].prev.Some? ::
          && items[a].prev.value !in spent
          && (items[a].prev.value in created ==> items[a].amount == Some(created[items[a].prev.value])))
    && (forall a, b | 0 <= a < b < |items| && items[a].prev.Some? :: items[a].prev != items[b].prev)
  }

  ghost predicate AllResolved(created: map<Outpoint, int>, items: seq<Input>) {
    forall a | 0 <= a < |items| :: items[a].prev.Some? && items[a].prev.value in created
  }

  function Named(items: seq<Input>): set<Outpoint> {
    set a | 0 <= a < |items| && items[a].prev.Some? :: items[a].prev.value
  }

  /** One more input fits if those before do, and it names nothing spent and has the right amount. */
  lemma FitsMore(created: map<Outpoint, int>, spent: set<Outpoint>, front: seq<Input>, item: Input)
    ensures InputsFit(created, spent, front + [item]) <==>
      InputsFit(created, spent, front) && (item.prev.Some? ==>
        && item.prev.value !in spent + Named(front)
        && (item.prev.value in created ==> item.amount == Some(created[item.prev.value])))
    ensures Named(front + [item]) == Named(front) + if item.prev.Some? then {item.prev.value} else {}
    ensures AllResolved(created, front + [item]) <==>
      AllResolved(created, front) && item.prev.Some? && item.prev.value in created
  {
    var items := front + [item];
    assert items[|front|] == item && forall a | 0 <= a < |front| :: items[a] == front[a];
  }

  lemma {:induction false} TakeInputsFits(created: map<Outpoint, int>, t: Tally, txid: TxId, items: seq<Input>)
    ensures var r := TakeInputs(created, t, txid, items);
      && (r.Ok? <==> InputsFit(created, t.spent, items))
      && (r.Ok? ==>
            && r.value.spent == t.spent + Named(items)
            && (r.value.known <==> t.known && AllResolved(created, items))
            && (AllResolved(created, items) ==> r.value.valueIn == t.valueIn + SumIn(items)))
  {
    hide InputsFit, AllResolved, Named;
    if items == [] {
      NothingFits(created, t.spent);
    } else {
      var last := |items| - 1;
      TakeInputsFits(created, t, txid, items[..last]);
      assert items == items[..last] + [items[last]];
      FitsMore(created, t.spent, items[..last], items[last]);
    }
  }

  lemma NothingFits(created: map<Outpoint, int>, spent: set<Outpoint>)
    ensures InputsFit(created, spent, []) && AllResolved(created, []) && Named([]) == {}
  {}

  /** How many inputs name an outpoint that is not on the books. */
  function Missing(created: map<Outpoint, int>, items: seq<Input>): nat {
    if items == [] then 0
    else
      var last := items[|items| - 1];
      Missing(created, items[..|items| - 1]) + if last.prev.Some? && last.prev.value !in created then 1 else 0
  }

  lemma {:induction false} TakeInputsUnresolved(created: map<Outpoint, int>, t: Tally, txid: TxId, items: seq<Input>)
    requires TakeInputs(created, t, txid, items).Ok?
    ensures TakeInputs(created, t, txid, items).value.unresolved == t.unresolved + Missing(created, items)
  {
    if items != [] {
      TakeInputsUnresolved(created, t, txid, items[..|items| - 1]);
    }
  }

  lemma {:induction false} AddOutputsKeys(created: map<Outpoint, int>, txid: TxId, outputs: seq<int>)
    ensures var m := AddOutputs(created, txid, outputs);
      && (forall key :: key in m <==> key in created || (key.txid == txid && 0 <= key.vout < |outputs|))
      && (forall key | key in m ::
            m[key] == if key.txid == txid && 0 <= key.vout < |outputs| then outputs[key.vout] else created[key])
  {
    if outputs != [] {
      AddOutputsKeys(created, txid, outputs[..|outputs| - 1]);
    }
  }

  /** The row keeps the invariant, read off the book. */
  ghost predicate RowFits(b: Book, row: Row) {
    && row.txid !in b.txids
    && InputsFit(b.created, b.spent, row.inputs)
    && (row.inputs != [] && AllResolved(b.created, row.inputs) ==> SumIn(row.inputs) >= Sum(row.outputs))
  }

  lemma TakeRowFits(b: Book, row: Row)
    requires !row.duplicate
    ensures TakeRow(b, row).Ok? <==> RowFits(b, row)
  {
    TakeInputsFits(b.created, Tally(b.spent, b.checks.unresolved, 0, true), row.txid, row.inputs);
  }

  /** What holds of the rows before the last does not depend on the last. */
  lemma FrontFacts(front: seq<Row>, row: Row)
    ensures var rows := front + [row];
      && (forall i: nat, key | i < |front| :: Creates(rows, i, key) <==> Creates(front, i, key))
      && (forall i: nat, a: nat, key | i < |front| :: Spends(rows, i, a, key) <==> Spends(front, i, a, key))
      && (forall n: nat, key | n <= |front| :: CreatedBefore(rows, n, key) <==> CreatedBefore(front, n, key))
      && (forall i: nat | i < |front| :: FullyResolved(rows, i) <==> FullyResolved(front, i))
  {
    var rows := front + [row];
    forall n: nat, key | n <= |front| ensures CreatedBefore(rows, n, key) <==> CreatedBefore(front, n, key) {
      assert forall i: nat | i < n :: Creates(rows, i, key) <==> Creates(front, i, key);
    }
  }

  lemma FrontValid(front: seq<Row>, row: Row)
    requires ValidLedger(front + [row])
    ensures ValidLedger(front)
  {
    var rows := front + [row];
    FrontFacts(front, row);
    assert forall i | 0 <= i < |front| :: rows[i] == front[i];
    forall i: nat, a: nat, j: nat, key | Spends(front, i, a, key) && j < i && Creates(front, j, key)
      ensures front[i].inputs[a].amount == Some(front[j].outputs[key.vout])
    {
      assert Spends(rows, i, a, key) && Creates(rows, j, key);
    }
    forall i: nat, a: nat, j: nat, b: nat, key | Spends(front, i, a, key) && Spends(front, j, b, key)
      ensures i == j && a == b
    {
      assert Spends(rows, i, a, key) && Spends(rows, j, b, key);
    }
  }

  lemma ValidRowFits(b: Book, front: seq<Row>, row: Row)
    requires BookOf(b, front) && !row.duplicate && ValidLedger(front + [row])
    ensures RowFits(b, row)
  {
    var rows, n := front + [row], |front|;
    FrontFacts(front, row);
    assert rows[n] == row;
    assert row.txid !in b.txids by {
      forall i: nat ensures !Names(front, i, row.txid) {
        assert i < n ==> rows[i] == front[i];
      }
    }
    forall a | 0 <= a < |row.inputs| && row.inputs[a].prev.Some?
      ensures row.inputs[a].prev.value !in b.spent
      ensures row.inputs[a].prev.value in b.created ==>
        row.inputs[a].amount == Some(b.created[row.inputs[a].prev.value])
    {
      var key := row.inputs[a].prev.value;
      assert Spends(rows, n, a, key);
      if key in b.created {
        assert CreatedBefore(front, n, key);
        var j: nat :| j < n && Creates(front, j, key);
        assert Creates(rows, j, key);
      }
    }
    forall a, c | 0 <= a < c < |row.inputs| && row.inputs[a].prev.Some?
      ensures row.inputs[a].prev != row.inputs[c].prev
    {
      assert Spends(rows, n, a, row.inputs[a].prev.value);
      assert row.inputs[c].prev == row.inputs[a].prev ==> Spends(rows, n, c, row.inputs[a].prev.value);
    }
    assert AllResolved(b.created, row.inputs) && row.inputs != [] ==> FullyResolved(rows, n);
  }

  lemma FitsNoDoubleSpend(b: Book, front: seq<Row>, row: Row)
    requires BookOf(b, front) && !row.duplicate && NoDoubleSpend(front)
    requires InputsFit(b.created, b.spent, row.inputs)
    ensures NoDoubleSpend(front + [row])
  {
    var rows, n := front + [row], |front|;
    FrontFacts(front, row);
    forall i: nat, a: nat, j: nat, c: nat, key | Spends(rows, i, a, key) && Spends(rows, j, c, key)
      ensures i == j && a == c
    {
      assert i < n ==> Spends(front, i, a, key) && key in b.spent;
      assert j < n ==> Spends(front, j, c, key) && key in b.spent;
      assert i == n ==> key !in b.spent;
      assert j == n ==> key !in b.spent;
    }
  }

  lemma FitsAmountsMatch(b: Book, front: seq<Row>, row: Row)
    requires BookOf(b, front) && !row.duplicate && AmountsMatch(front)
    requires InputsFit(b.created, b.spent, row.inputs)
    ensures AmountsMatch(front + [row])
  {
    var rows, n := front + [row], |front|;
    FrontFacts(front, row);
    forall i: nat, a: nat, j: nat, key | Spends(rows, i, a, key) && j < i && Creates(rows, j, key)
      ensures rows[i].inputs[a].amount == Some(rows[j].outputs[key.vout])
    {
      assert Creates(front, j, key);
      if i < n {
        assert Spends(front, i, a, key);
      }
    }
  }

  lemma FitsValid(b: Book, front: seq<Row>, row: Row)
    requires BookOf(b, front) && !row.duplicate && ValidLedger(front) && RowFits(b, row)
    ensures ValidLedger(front + [row])
  {
    FitsDistinct(b, front, row);
    FitsNoDoubleSpend(b, front, row);
    FitsAmountsMatch(b, front, row);
    FitsValueKept(b, front, row);
  }

  lemma FitsDistinct(b: Book, front: seq<Row>, row: Row)
    requires BookOf(b, front) && !row.duplicate && DistinctTxids(front) && row.txid !in b.txids
    ensures DistinctTxids(front + [row])
  {
    var rows := front + [row];
    forall i, j | 0 <= i < j < |rows| && !rows[i].duplicate && !rows[j].duplicate ensures rows[i].txid != rows[j].txid {
      assert Names(front, i, rows[i].txid);
    }
  }

  lemma FitsValueKept(b: Book, front: seq<Row>, row: Row)
    requires BookOf(b, front) && !row.duplicate && ValueKept(front) && RowFits(b, row)
    ensures ValueKept(front + [row])
  {
    FrontFacts(front, row);
    assert FullyResolved(front + [row], |front|) ==> AllResolved(b.created, row.inputs);
  }

  lemma ExtendCreated(front: seq<Row>, row: Row, key: Outpoint)
    ensures var rows, n := front + [row], |front|;
      CreatedBefore(rows, n + 1, key) <==> CreatedBefore(front, n, key) || Creates(rows, n, key)
  {
    var rows, n := front + [row], |front|;
    FrontFacts(front, row);
    if CreatedBefore(rows, n + 1, key) && !Creates(rows, n, key) {
      var i: nat :| i < n + 1 && Creates(rows, i, key);
      assert i < n && Creates(front, i, key);
    }
    if CreatedBefore(front, n, key) {
      var i: nat :| i < n && Creates(front, i, key);
      assert Creates(rows, i, key);
    }
  }

  lemma ExtendSpent(front: seq<Row>, row: Row, key: Outpoint)
    ensures SpentIn(front + [row], key) <==> SpentIn(front, key) || (!row.duplicate && key in Named(row.inputs))
  {
    var rows, n := front + [row], |front|;
    FrontFacts(front, row);
    if SpentIn(rows, key) {
      var i: nat, a: nat :| Spends(rows, i, a, key);
      assert i < n ==> Spends(front, i, a, key);
    }
    if SpentIn(front, key) {
      var i: nat, a: nat :| Spends(front, i, a, key);
      assert Spends(rows, i, a, key);
    }
    if !row.duplicate && key in Named(row.inputs) {
      var a :| 0 <= a < |row.inputs| && row.inputs[a].prev == Some(key);
      assert Spends(rows, n, a, key);
    }
  }

  lemma ExtendTxids(front: seq<Row>, row: Row, txid: TxId)
    ensures HasTxid(front + [row], txid) <==> HasTxid(front, txid) || (!row.duplicate && row.txid == txid)
  {
    var rows, n := front + [row], |front|;
    if HasTxid(rows, txid) {
      var i: nat :| Names(rows, i, txid);
      assert i < n ==> Names(front, i, txid);
    }
    if HasTxid(front, txid) {
      var i: nat :| Names(front, i, txid);
      assert Names(rows, i, txid);
    }
    assert Names(rows, n, txid) <==> !row.duplicate && row.txid == txid;
  }

  lemma BookExtends(b: Book, front: seq<Row>, row: Row)
    requires BookOf(b, front) && TakeRow(b, row).Ok?
    ensures BookOf(TakeRow(b, row).value, front + [row])
  {
    var rows, n, c := front + [row], |front|, TakeRow(b, row).value;
    FrontFacts(front, row);
    forall key { ExtendCreated(front, row, key); }
    forall key { ExtendSpent(front, row, key); }
    forall txid { ExtendTxids(front, row, txid); }
    if !row.duplicate {
      TakeInputsFits(b.created, Tally(b.spent, b.checks.unresolved, 0, true), row.txid, row.inputs);
      AddOutputsKeys(b.created, row.txid, row.outputs);
      ExtendAmounts(b, front, row);
    }
  }

  lemma ExtendAmounts(b: Book, front: seq<Row>, row: Row)
    requires BookOf(b, front) && !row.duplicate && row.txid !in b.txids
    ensures var rows, created := front + [row], AddOutputs(b.created, row.txid, row.outputs);
      forall i: nat, key | Creates(rows, i, key) :: key in created && created[key] == rows[i].outputs[key.vout]
  {
    var rows, n, created := front + [row], |front|, AddOutputs(b.created, row.txid, row.outputs);
    FrontFacts(front, row);
    AddOutputsKeys(b.created, row.txid, row.outputs);
    forall i: nat, key | Creates(rows, i, key)
      ensures key in created && created[key] == rows[i].outputs[key.vout]
    {
      if i < n {
        assert Creates(front, i, key) && Names(front, i, key.txid);
      }
    }
  }

  /** The checker accepts a row stream exactly when it is a valid ledger, and keeps the right books. */
  lemma {:induction false} AcceptsExactlyValid(rows: seq<Row>)
    ensures TakeRows(rows).Ok? <==> ValidLedger(rows)
    ensures TakeRows(rows).Ok? ==> BookOf(TakeRows(rows).value, rows)
  {
    if rows == [] {
      assert TakeRows([]) == Ok(EMPTY_BOOK);
    } else {
      var front, row := rows[..|rows| - 1], rows[|rows| - 1];
      assert rows == front + [row];
      AcceptsExactlyValid(front);
      if ValidLedger(rows) {
        FrontValid(front, row);
      }
      if TakeRows(front).Ok? {
        AcceptsRow(TakeRows(front).value, front, row);
      }
    }
  }

  lemma AcceptsRow(b: Book, front: seq<Row>, row: Row)
    requires BookOf(b, front) && ValidLedger(front)
    ensures TakeRow(b, row).Ok? <==> ValidLedger(front + [row])
    ensures TakeRow(b, row).Ok? ==> BookOf(TakeRow(b, row).value, front + [row])
  {
    if row.duplicate {
      DuplicateValid(front, row);
    } else {
      TakeRowFits(b, row);
      if RowFits(b, row) {
        FitsValid(b, front, row);
      }
      if ValidLedger(front + [row]) {
        ValidRowFits(b, front, row);
      }
    }
    if TakeRow(b, row).Ok? {
      BookExtends(b, front, row);
    }
  }

  lemma DuplicateValid(front: seq<Row>, row: Row)
    requires ValidLedger(front) && row.duplicate
    ensures ValidLedger(front + [row])
  {
    var rows := front + [row];
    FrontFacts(front, row);
    assert forall i | 0 <= i < |front| :: rows[i] == front[i];
    forall i: nat, a: nat, j: nat, b: nat, key | Spends(rows, i, a, key) && Spends(rows, j, b, key)
      ensures i == j && a == b
    {
      assert Spends(front, i, a, key) && Spends(front, j, b, key);
    }
    forall i: nat, a: nat, j: nat, key | Spends(rows, i, a, key) && j < i && Creates(rows, j, key)
      ensures rows[i].inputs[a].amount == Some(rows[j].outputs[key.vout])
    {
      assert Spends(front, i, a, key) && Creates(front, j, key);
    }
  }

  // ---- the method --------------------------------------------------------------

  lemma FoldInputs(created: map<Outpoint, int>, t: Tally, txid: TxId, items: seq<Input>, i: nat)
    requires i < |items|
    ensures TakeInputs(created, t, txid, items[..i + 1]) ==
      match TakeInputs(created, t, txid, items[..i])
      case Err(e) => Err(e)
      case Ok(u) => TakeInput(created, u, txid, items[i])
  {
    assert items[..i + 1][..i] == items[..i];
  }

  lemma {:induction false} InputsFailEarly(created: map<Outpoint, int>, t: Tally, txid: TxId, items: seq<Input>, i: nat)
    requires i <= |items| && TakeInputs(created, t, txid, items[..i]).Err?
    ensures TakeInputs(created, t, txid, items) == TakeInputs(created, t, txid, items[..i])
    decreases |items| - i
  {
    if i == |items| {
      assert items[..i] == items;
    } else {
      FoldInputs(created, t, txid, items, i);
      InputsFailEarly(created, t, txid, items, i + 1);
    }
  }

  lemma {:induction false} RowsFailEarly(rows: seq<Row>, i: nat)
    requires i <= |rows| && TakeRows(rows[..i]).Err?
    ensures TakeRows(rows) == TakeRows(rows[..i])
    decreases |rows| - i
  {
    if i == |rows| {
      assert rows[..i] == rows;
    } else {
      assert rows[..i + 1][..i] == rows[..i];
      RowsFailEarly(rows, i + 1);
    }
  }

  // ---- what an error means ---------------------------------------------------

  /** Some input before place `a` of `row` spends `key`, of an earlier row or of `row` itself. */
  ghost predicate SpentBefore(front: seq<Row>, row: Row, a: nat, key: Outpoint) {
    SpentIn(front, key) || exists b :: 0 <= b < a && b < |row.inputs| && row.inputs[b].prev == Some(key)
  }

  /** An earlier row creates `key`, with another amount. */
  ghost predicate MadeOtherwise(front: seq<Row>, key: Outpoint, amount: Option<int>) {
    exists j: nat :: Creates(front, j, key) && amount != Some(front[j].outputs[key.vout])
  }

  /** Nothing is wrong with input `a` of `row`. */
  ghost predicate Sound(front: seq<Row>, row: Row, a: nat)
    requires a < |row.inputs|
  {
    var item := row.inputs[a];
    item.prev.Some? ==>
      !SpentBefore(front, row, a, item.prev.value) && !MadeOtherwise(front, item.prev.value, item.amount)
  }

  ghost predicate SoundUpTo(front: seq<Row>, row: Row, a: nat)
    requires a <= |row.inputs|
  {
    forall b | 0 <= b < a :: Sound(front, row, b)
  }

  /** Input `a` of `row` is the first that is not sound, and `e` says why. */
  ghost predicate InputFault(front: seq<Row>, row: Row, a: nat, e: LedgerError) {
    && a < |row.inputs| && row.inputs[a].prev.Some? && SoundUpTo(front, row, a)
    && var key := row.inputs[a].prev.value;
      || (e == DoubleSpend(key, row.txid) && SpentBefore(front, row, a, key))
      || (e == AmountMismatch(key, row.txid) && !SpentBefore(front, row, a, key)
          && MadeOtherwise(front, key, row.inputs[a].amount))
  }

  /** What is wrong with `row` after `front`, in the order the checker looks. */
  ghost predicate Fault(front: seq<Row>, row: Row, e: LedgerError) {
    !row.duplicate &&
    if HasTxid(front, row.txid) then e == DuplicateTxid(row.txid)
    else
      || (exists a: nat :: InputFault(front, row, a, e))
      || (e == CreatesValue(row.txid) && SoundUpTo(front, row, |row.inputs|)
          && FullyResolved(front + [row], |front|) && SumIn(row.inputs) < Sum(row.outputs))
  }

  /** Row `n` is the first the ledger is not valid with, and `e` says why. */
  ghost predicate FirstFault(rows: seq<Row>, n: nat, e: LedgerError) {
    n < |rows| && ValidLedger(rows[..n]) && !ValidLedger(rows[..n + 1]) && Fault(rows[..n], rows[n], e)
  }

  lemma SpentOnBook(b: Book, front: seq<Row>, row: Row, a: nat, key: Outpoint)
    requires BookOf(b, front) && a <= |row.inputs|
    ensures SpentBefore(front, row, a, key) <==> key in b.spent + Named(row.inputs[..a])
  {}

  lemma MadeOnBook(b: Book, front: seq<Row>, key: Outpoint, amount: Option<int>)
    requires BookOf(b, front)
    ensures MadeOtherwise(front, key, amount) <==> key in b.created && amount != Some(b.created[key])
  {
    if key in b.created {
      assert CreatedBefore(front, |front|, key);
      var j: nat :| j < |front| && Creates(front, j, key);
    }
  }

  lemma {:induction false} SoundOnBook(b: Book, front: seq<Row>, row: Row, a: nat)
    requires BookOf(b, front) && a <= |row.inputs|
    ensures SoundUpTo(front, row, a) <==> InputsFit(b.created, b.spent, row.inputs[..a])
  {
    hide BookOf, InputsFit, SpentBefore, MadeOtherwise, Named;
    if a == 0 {
      NothingFits(b.created, b.spent);
    } else {
      SoundOnBook(b, front, row, a - 1);
      var item := row.inputs[a - 1];
      assert row.inputs[..a] == row.inputs[..a - 1] + [item];
      FitsMore(b.created, b.spent, row.inputs[..a - 1], item);
      assert SoundUpTo(front, row, a) <==> SoundUpTo(front, row, a - 1) && Sound(front, row, a - 1);
      if item.prev.Some? {
        SpentOnBook(b, front, row, a - 1, item.prev.value);
        MadeOnBook(b, front, item.prev.value, item.amount);
      }
    }
  }

  /** The place the fold stops at. */
  lemma {:induction false} FaultPlace(created: map<Outpoint, int>, t: Tally, txid: TxId, items: seq<Input>)
    returns (a: nat)
    requires TakeInputs(created, t, txid, items).Err?
    ensures a < |items| && TakeInputs(created, t, txid, items[..a]).Ok?
    ensures TakeInput(created, TakeInputs(created, t, txid, items[..a]).value, txid, items[a]) ==
            TakeInputs(created, t, txid, items)
  {
    var last := |items| - 1;
    if TakeInputs(created, t, txid, items[..last]).Ok? {
      a := last;
    } else {
      a := FaultPlace(created, t, txid, items[..last]);
      assert items[..last][..a] == items[..a];
    }
  }

  /** Input `a` is the first of `items` that does not fit the books, and `e` says why. */
  ghost predicate Misfit(created: map<Outpoint, int>, spent: set<Outpoint>, txid: TxId, items: seq<Input>, a: nat,
                         e: LedgerError)
  {
    && a < |items| && items[a].prev.Some? && InputsFit(created, spent, items[..a])
    && var key := items[a].prev.value;
      if key in spent + Named(items[..a]) then e == DoubleSpend(key, txid)
      else e == AmountMismatch(key, txid) && key in created && items[a].amount != Some(created[key])
  }

  lemma InputErrorMeans(created: map<Outpoint, int>, t: Tally, txid: TxId, items: seq<Input>)
    requires TakeInputs(created, t, txid, items).Err?
    ensures exists a: nat :: Misfit(created, t.spent, txid, items, a, TakeInputs(created, t, txid, items).error)
  {
    hide InputsFit, Named;
    var a := FaultPlace(created, t, txid, items);
    TakeInputsFits(created, t, txid, items[..a]);
    assert Misfit(created, t.spent, txid, items, a, TakeInputs(created, t, txid, items).error);
  }

  lemma MisfitIsFault(b: Book, front: seq<Row>, row: Row, a: nat, e: LedgerError)
    requires BookOf(b, front) && Misfit(b.created, b.spent, row.txid, row.inputs, a, e)
    ensures InputFault(front, row, a, e)
  {
    hide BookOf, InputsFit, SpentBefore, MadeOtherwise, Named, SoundUpTo;
    var key := row.inputs[a].prev.value;
    SoundOnBook(b, front, row, a);
    SpentOnBook(b, front, row, a, key);
    MadeOnBook(b, front, key, row.inputs[a].amount);
  }

  lemma ResolvedOnBook(b: Book, front: seq<Row>, row: Row)
    requires BookOf(b, front)
    ensures FullyResolved(front + [row], |front|) <==> row.inputs != [] && AllResolved(b.created, row.inputs)
  {
    FrontFacts(front, row);
  }

  /** The error a row is refused with is the first fault in it. */
  lemma RowErrorMeans(b: Book, front: seq<Row>, row: Row)
    requires BookOf(b, front) && TakeRow(b, row).Err?
    ensures Fault(front, row, TakeRow(b, row).error)
  {
    hide BookOf, InputsFit, AllResolved, FullyResolved, SoundUpTo, InputFault, Misfit;
    var t := Tally(b.spent, b.checks.unresolved, 0, true);
    KnownTxids(b, front, row.txid);
    if row.txid !in b.txids {
      if TakeInputs(b.created, t, row.txid, row.inputs).Err? {
        InputErrorMeans(b.created, t, row.txid, row.inputs);
        var e := TakeInputs(b.created, t, row.txid, row.inputs).error;
        var a: nat :| Misfit(b.created, b.spent, row.txid, row.inputs, a, e);
        MisfitIsFault(b, front, row, a, e);
      } else {
        TakeInputsFits(b.created, t, row.txid, row.inputs);
        assert row.inputs[..|row.inputs|] == row.inputs;
        SoundOnBook(b, front, row, |row.inputs|);
        ResolvedOnBook(b, front, row);
      }
    }
  }

  lemma KnownTxids(b: Book, front: seq<Row>, txid: TxId)
    requires BookOf(b, front)
    ensures txid in b.txids <==> HasTxid(front, txid)
  {}

  /** A refused row stream has a first row it is not valid with, and the error is the first fault in that row. */
  lemma {:induction false} ErrorMeans(rows: seq<Row>) returns (n: nat)
    requires TakeRows(rows).Err?
    ensures FirstFault(rows, n, TakeRows(rows).error)
  {
    hide ValidLedger, Fault, BookOf, TakeRow;
    var last := |rows| - 1;
    var front := rows[..last];
    if TakeRows(front).Err? {
      n := ErrorMeans(front);
      assert front[..n] == rows[..n] && front[..n + 1] == rows[..n + 1] && front[n] == rows[n];
    } else {
      n := last;
      AcceptsExactlyValid(front);
      AcceptsExactlyValid(rows);
      assert rows[..n + 1] == rows;
      RowErrorMeans(TakeRows(front).value, front, rows[last]);
    }
  }

  lemma FaultsUnsound(front: seq<Row>, row: Row, a: nat, e: LedgerError)
    requires InputFault(front, row, a, e)
    ensures !Sound(front, row, a) && !SoundUpTo(front, row, |row.inputs|)
  {}

  lemma OneFaultOfInputs(front: seq<Row>, row: Row, a: nat, e: LedgerError, c: nat, d: LedgerError)
    requires InputFault(front, row, a, e) && InputFault(front, row, c, d)
    ensures e == d
  {
    hide SpentBefore, MadeOtherwise;
    FaultsUnsound(front, row, a, e);
    FaultsUnsound(front, row, c, d);
  }

  /** A row has one first fault. */
  lemma OneFaultOfRow(front: seq<Row>, row: Row, e: LedgerError, d: LedgerError)
    requires Fault(front, row, e) && Fault(front, row, d)
    ensures e == d
  {
    hide InputFault, SoundUpTo, HasTxid, FullyResolved;
    if a: nat :| InputFault(front, row, a, e) {
      FaultsUnsound(front, row, a, e);
      if c: nat :| InputFault(front, row, c, d) {
        OneFaultOfInputs(front, row, a, e, c, d);
      }
    } else if c: nat :| InputFault(front, row, c, d) {
      FaultsUnsound(front, row, c, d);
    }
  }

  lemma ValidPrefix(rows: seq<Row>, m: nat, n: nat)
    requires m <= n <= |rows| && ValidLedger(rows[..n])
    ensures ValidLedger(rows[..m])
  {
    hide ValidLedger;
    AcceptsExactlyValid(rows[..n]);
    AcceptsExactlyValid(rows[..m]);
    assert rows[..n][..m] == rows[..m];
    if TakeRows(rows[..m]).Err? {
      RowsFailEarly(rows[..n], m);
    }
  }

  /** So the error says exactly which row is the first to break the ledger, and what its first fault is. */
  lemma ErrorExactly(rows: seq<Row>, e: LedgerError)
    ensures TakeRows(rows) == Err(e) <==> exists n: nat :: FirstFault(rows, n, e)
  {
    hide ValidLedger, Fault;
    if TakeRows(rows) == Err(e) {
      var n := ErrorMeans(rows);
    }
    if n: nat :| FirstFault(rows, n, e) {
      AcceptsExactlyValid(rows);
      assert rows[..|rows|] == rows;
      if ValidLedger(rows) {
        ValidPrefix(rows, n + 1, |rows|);
      }
      var m := ErrorMeans(rows);
      if n < m {
        ValidPrefix(rows, n + 1, m);
      } else if m < n {
        ValidPrefix(rows, m + 1, n);
      }
      OneFaultOfRow(rows[..n], rows[n], e, TakeRows(rows).error);
    }
  }

  // ---- the loops ---------------------------------------------------------------

  /** The inputs of one row: the tally after them, or the first fault. */
  method ReadInputs(created: map<Outpoint, int>, t: Tally, txid: TxId, items: seq<Input>)
    returns (r: Result<Tally, LedgerError>)
    ensures r == TakeInputs(created, t, txid, items)
    ensures r.Ok? <==> InputsFit(created, t.spent, items)
    ensures r.Ok? ==> r.value.spent == t.spent + Named(items)
    ensures r.Err? ==> exists a: nat :: Misfit(created, t.spent, txid, items, a, r.error)
  {
    TakeInputsFits(created, t, txid, items);
    if TakeInputs(created, t, txid, items).Err? {
      InputErrorMeans(created, t, txid, items);
    }
    var spent, unresolved, valueIn, known := t.spent, t.unresolved, t.valueIn, t.known;
    for i := 0 to |items|
      invariant TakeInputs(created, t, txid, items[..i]) == Ok(Tally(spent, unresolved, valueIn, known))
    {
      FoldInputs(created, t, txid, items, i);
      var item := items[i];
      if item.prev.None? {
        known := false;
        continue;
      }
      var key := item.prev.value;
      if key in spent {
        InputsFailEarly(created, t, txid, items, i + 1);
        return Err(DoubleSpend(key, txid));
      }
      spent := spent + {key};
      if key !in created {
        known := false;
        unresolved := unresolved + 1;
        continue;
      }
      if item.amount != Some(created[key]) {
        InputsFailEarly(created, t, txid, items, i + 1);
        return Err(AmountMismatch(key, txid));
      }
      valueIn := valueIn + created[key];
    }
    assert items[..|items|] == items;
    r := Ok(Tally(spent, unresolved, valueIn, known));
  }

  method ReadOutputs(created: map<Outpoint, int>, txid: TxId, outputs: seq<int>)
    returns (m: map<Outpoint, int>, valueOut: int)
    ensures m == AddOutputs(created, txid, outputs) && valueOut == Sum(outputs)
  {
    m, valueOut := created, 0;
    for vout := 0 to |outputs|
      invariant m == AddOutputs(created, txid, outputs[..vout]) && valueOut == Sum(outputs[..vout])
    {
      m := m[Outpoint(txid, vout) := outputs[vout]];
      valueOut := valueOut + outputs[vout];
      assert outputs[..vout + 1][..vout] == outputs[..vout];
    }
    assert outputs[..|outputs|] == outputs;
  }

  /** Streams over the rows once: it accepts exactly the valid ledgers, and counts every row once. */
  method Verify(rows: seq<Row>) returns (r: Result<Checks, LedgerError>)
    ensures r.Ok? <==> ValidLedger(rows)
    ensures forall e :: r == Err(e) <==> exists n: nat :: FirstFault(rows, n, e)
    ensures r == match TakeRows(rows) case Ok(b) => Ok(b.checks) case Err(e) => Err(e)
  {
    hide ValidLedger, FirstFault;
    AcceptsExactlyValid(rows);
    forall e { ErrorExactly(rows, e); }
    var created, spent, txids, checks := map[], {}, {}, Checks(0, 0, 0);
    for i := 0 to |rows|
      invariant TakeRows(rows[..i]) == Ok(Book(created, spent, txids, checks))
    {
      var row := rows[i];
      assert rows[..i + 1][..i] == rows[..i];
      if row.duplicate {
        checks := checks.(duplicates := checks.duplicates + 1);
        continue;
      }
      if row.txid in txids {
        RowsFailEarly(rows, i + 1);
        return Err(DuplicateTxid(row.txid));
      }
      var tally := ReadInputs(created, Tally(spent, checks.unresolved, 0, true), row.txid, row.inputs);
      if tally.Err? {
        RowsFailEarly(rows, i + 1);
        return Err(tally.error);
      }
      var added, valueOut := ReadOutputs(created, row.txid, row.outputs);
      if tally.value.known && row.inputs != [] && tally.value.valueIn < valueOut {
        RowsFailEarly(rows, i + 1);
        return Err(CreatesValue(row.txid));
      }
      created, spent, txids := added, tally.value.spent, txids + {row.txid};
      checks := Checks(checks.transactions + 1, checks.duplicates, tally.value.unresolved);
    }
    assert rows[..|rows|] == rows;
    r := Ok(checks);
  }

  // ---- the counts ----------------------------------------------------------------

  function Canonical(rows: seq<Row>): nat {
    if rows == [] then 0 else Canonical(rows[..|rows| - 1]) + if rows[|rows| - 1].duplicate then 0 else 1
  }

  /** How many of `items` name an outpoint that no row of `front` created. */
  ghost function Dangling(front: seq<Row>, items: seq<Input>): nat {
    if items == [] then 0
    else
      var last := items[|items| - 1];
      Dangling(front, items[..|items| - 1]) +
      if last.prev.Some? && !CreatedBefore(front, |front|, last.prev.value) then 1 else 0
  }

  /** The inputs of canonical rows that name an outpoint no earlier row created. */
  ghost function Unresolved(rows: seq<Row>): nat {
    if rows == [] then 0
    else
      var front, row := rows[..|rows| - 1], rows[|rows| - 1];
      Unresolved(front) + if row.duplicate then 0 else Dangling(front, row.inputs)
  }

  lemma {:induction false} MissingIsDangling(b: Book, front: seq<Row>, items: seq<Input>)
    requires BookOf(b, front)
    ensures Missing(b.created, items) == Dangling(front, items)
  {
    if items != [] {
      MissingIsDangling(b, front, items[..|items| - 1]);
    }
  }

  /** Every row is counted once, as a transaction or as a duplicate, and every input that names an outpoint not
      created before is counted as unresolved. */
  lemma {:induction false} CountsAreRight(rows: seq<Row>)
    requires TakeRows(rows).Ok?
    ensures var checks := TakeRows(rows).value.checks;
      && checks.transactions == Canonical(rows)
      && checks.transactions + checks.duplicates == |rows|
      && checks.unresolved == Unresolved(rows)
  {
    if rows != [] {
      var front, row := rows[..|rows| - 1], rows[|rows| - 1];
      CountsAreRight(front);
      AcceptsExactlyValid(front);
      var b := TakeRows(front).value;
      if !row.duplicate {
        TakeInputsUnresolved(b.created, Tally(b.spent, b.checks.unresolved, 0, true), row.txid, row.inputs);
        MissingIsDangling(b, front, row.inputs);
      }
    }
  }

  lemma {:induction false} NoneDangling(front: seq<Row>, items: seq<Input>)
    ensures Dangling(front, items) == 0 <==> forall a | 0 <= a < |items| && items[a].prev.Some? ::
      CreatedBefore(front, |front|, items[a].prev.value)
  {
    if items != [] {
      var n := |items| - 1;
      NoneDangling(front, items[..n]);
      assert forall a | 0 <= a < n :: items[..n][a] == items[a];
    }
  }

  /** Nothing is unresolved exactly when every input that names an outpoint names one created before. */
  lemma {:induction false} NothingUnresolved(rows: seq<Row>)
    ensures Unresolved(rows) == 0 <==>
      forall i: nat, a: nat, key | Spends(rows, i, a, key) :: CreatedBefore(rows, i, key)
  {
    if rows != [] {
      var front, row := rows[..|rows| - 1], rows[|rows| - 1];
      assert rows == front + [row];
      NothingUnresolved(front);
      UnresolvedSplit(front, row);
      NoneDangling(front, row.inputs);
      LastSpends(front, row);
    }
  }

  lemma LastSpends(front: seq<Row>, row: Row)
    ensures (forall a: nat, key | Spends(front + [row], |front|, a, key) :: CreatedBefore(front, |front|, key)) <==>
      (row.duplicate || forall a | 0 <= a < |row.inputs| && row.inputs[a].prev.Some? ::
         CreatedBefore(front, |front|, row.inputs[a].prev.value))
  {
    var rows, n := front + [row], |front|;
    forall a: nat | a < |row.inputs| && row.inputs[a].prev.Some? && !row.duplicate
      ensures Spends(rows, n, a, row.inputs[a].prev.value)
    {
      assert rows[n] == row;
    }
  }

  lemma UnresolvedSplit(front: seq<Row>, row: Row)
    ensures var rows, n := front + [row], |front|;
      (forall i: nat, a: nat, key | Spends(rows, i, a, key) :: CreatedBefore(rows, i, key)) <==>
      && (forall i: nat, a: nat, key | Spends(front, i, a, key) :: CreatedBefore(front, i, key))
      && (forall a: nat, key | Spends(rows, n, a, key) :: CreatedBefore(front, n, key))
  {
    var rows, n := front + [row], |front|;
    FrontFacts(front, row);
    if forall i: nat, a: nat, key | Spends(rows, i, a, key) :: CreatedBefore(rows, i, key) {
      forall i: nat, a: nat, key | Spends(front, i, a, key) ensures CreatedBefore(front, i, key) {
        assert Spends(rows, i, a, key);
      }
    } else {
      var i: nat, a: nat, key :| Spends(rows, i, a, key) && !CreatedBefore(rows, i, key);
      assert i < n ==> Spends(front, i, a, key);
    }
  }
}
