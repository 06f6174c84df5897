/** Replicating a fixture: scripts/scale_fixture.py writes `copies` renamed copies of a ledger. */
module ScaleFixture {
  import opened Wrappers
  import opened Ledger

  // The keyed hash of scripts/scale_fixture.py: the txid a copy gives to an original one.
  type Rename = (nat, TxId) -> TxId

  function CopyInput(rename: Rename, k: nat, item: Input): Input {
    // An empty prev_txid counts as missing here and is written back as it was.
    if item.prev.None? || item.prev.value.txid == "" then item
    else item.(prev := Some(Outpoint(rename(k, item.prev.value.txid), item.prev.value.vout)))
  }

  function CopyInputs(rename: Rename, k: nat, items: seq<Input>): seq<Input> {
    seq(|items|, i requires 0 <= i < |items| => CopyInput(rename, k, items[i]))
  }

  function CopyRow(rename: Rename, k: nat, row: Row): Row {
    Row(row.duplicate, rename(k, row.txid), CopyInputs(rename, k, row.inputs), row.outputs)
  }

  function CopyRows(rename: Rename, k: nat, rows: seq<Row>): seq<Row> {
    seq(|rows|, i requires 0 <= i < |rows| => CopyRow(rename, k, rows[i]))
  }

  function Replicated(rename: Rename, copies: nat, rows: seq<Row>): seq<Row> {
    if copies == 0 then [] else Replicated(rename, copies - 1, rows) + CopyRows(rename, copies - 1, rows)
  }

  /** The input a copy writes: the same amount, and the outpoint under the copy's name for its transaction. A
      null prev_txid, and an empty one, is written back as it was. */
  ghost predicate InputCopied(rename: Rename, k: nat, item: Input, copy: Input) {
    && copy.amount == item.amount && (item.prev.None? <==> copy.prev.None?)
    && (item.prev.Some? ==>
          && copy.prev.value.vout == item.prev.value.vout
          && copy.prev.value.txid ==
             if item.prev.value.txid == "" then "" else rename(k, item.prev.value.txid))
  }

  /** The row copy `k` writes for `row`, be it a duplicate or not. */
  ghost predicate RowCopied(rename: Rename, k: nat, row: Row, copy: Row) {
    && copy.txid == rename(k, row.txid) && copy.duplicate == row.duplicate && copy.outputs == row.outputs
    && |copy.inputs| == |row.inputs|
    && forall a | 0 <= a < |row.inputs| :: InputCopied(rename, k, row.inputs[a], copy.inputs[a])
  }

  /** What one loop turn leaves at place `k * n + i`. */
  ghost predicate CopiedAt(rename: Rename, rows: seq<Row>, out: seq<Row>, k: nat, i: nat) {
    i < |rows| && k * |rows| + i < |out| && RowCopied(rename, k, rows[i], out[k * |rows| + i])
  }

  /** The copying loop of `main`: copy by copy, row by row. */
  method Replicate(rename: Rename, copies: nat, rows: seq<Row>) returns (out: seq<Row>, written: nat)
    ensures written == |out| == copies * |rows|
    ensures forall k: nat, i: nat | k < copies && i < |rows| :: CopiedAt(rename, rows, out, k, i)
    ensures out == Replicated(rename, copies, rows)
  {
    ReplicatedRows(rename, copies, rows);
    out, written := [], 0;
    for copy := 0 to copies
      invariant out == Replicated(rename, copy, rows) && written == |out|
    {
      for i := 0 to |rows|
        invariant out == Replicated(rename, copy, rows) + CopyRows(rename, copy, rows)[..i] && written == |out|
      {
        var row := rows[i];
        var inputs := [];
        for a := 0 to |row.inputs|
          invariant inputs == CopyInputs(rename, copy, row.inputs)[..a]
        {
          inputs := inputs + [CopyInput(rename, copy, row.inputs[a])];
        }
        assert inputs == CopyInputs(rename, copy, row.inputs);
        assert CopyRows(rename, copy, rows)[..i + 1] ==
               CopyRows(rename, copy, rows)[..i] + [CopyRow(rename, copy, row)];
        out := out + [Row(row.duplicate, rename(copy, row.txid), inputs, row.outputs)];
        written := written + 1;
      }
      assert CopyRows(rename, copy, rows)[..|rows|] == CopyRows(rename, copy, rows);
    }
  }

  lemma {:induction false} ReplicatedLength(rename: Rename, copies: nat, all: seq<Row>)
    ensures |Replicated(rename, copies, all)| == copies * |all|
  {
    if copies > 0 {
      ReplicatedLength(rename, copies - 1, all);
      assert copies * |all| == (copies - 1) * |all| + |all|;
    }
  }

  lemma CopyIsCopied(rename: Rename, k: nat, row: Row)
    ensures RowCopied(rename, k, row, CopyRow(rename, k, row))
  {}

  /** Row by row, every copy holds what the fixture holds, renamed. */
  lemma ReplicatedRows(rename: Rename, copies: nat, all: seq<Row>)
    ensures var out := Replicated(rename, copies, all);
      && |out| == copies * |all|
      && forall k: nat, i: nat | k < copies && i < |all| :: CopiedAt(rename, all, out, k, i)
  {
    ReplicatedLength(rename, copies, all);
    forall k: nat, i: nat | k < copies && i < |all|
      ensures CopiedAt(rename, all, Replicated(rename, copies, all), k, i)
    {
      CopyAt(rename, copies, all, k, i);
      CopyIsCopied(rename, k, all[i]);
    }
  }

  lemma {:induction false} CopyAt(rename: Rename, copies: nat, all: seq<Row>, k: nat, i: nat)
    requires k < copies && i < |all|
    ensures |Replicated(rename, copies, all)| == copies * |all|
    ensures k * |all| + i < copies * |all|
    ensures Replicated(rename, copies, all)[k * |all| + i] == CopyRow(rename, k, all[i])
    decreases copies
  {
    var n := |all|;
    assert copies * n == (copies - 1) * n + n;
    if copies == 1 {
      assert Replicated(rename, 0, all) == [];
    } else {
      CopyAt(rename, copies - 1, all, if k < copies - 1 then k else 0, i);
      if k < copies - 1 {
        assert k * n + i < (copies - 1) * n;
      }
    }
  }

  // ---- what the rename must keep apart ---------------------------------------

  ghost predicate Mentions(row: Row, txid: TxId) {
    row.txid == txid ||
    exists a :: 0 <= a < |row.inputs| && row.inputs[a].prev.Some? && row.inputs[a].prev.value.txid == txid
  }

  ghost predicate Mentioned(rows: seq<Row>, txid: TxId) {
    exists i :: 0 <= i < |rows| && Mentions(rows[i], txid)
  }

  /** Copy 0 keeps the originals, and no two (copy, txid) pairs of the fixture get the same txid. */
  ghost predicate KeepsApart(rename: Rename, rows: seq<Row>) {
    && (forall txid :: rename(0, txid) == txid)
    && (forall k: nat, m: nat, txid, other | Mentioned(rows, txid) && Mentioned(rows, other) ::
          rename(k, txid) == rename(m, other) ==> k == m && txid == other)
  }

  ghost predicate EmptyPrev(row: Row) {
    !row.duplicate && exists a, vout: int :: 0 <= a < |row.inputs| && row.inputs[a].prev == Some(Outpoint("", vout))
  }

  ghost predicate NoEmptyPrev(rows: seq<Row>) {
    forall i | 0 <= i < |rows| :: !EmptyPrev(rows[i])
  }

  // ---- one copy runs as the original does --------------------------------------

  /** Outpoint `key` as copy `k` names it. */
  function Copied(rename: Rename, k: nat, key: Outpoint): Outpoint { Outpoint(rename(k, key.txid), key.vout) }

  /** As far as the txids of `all` go, book `c` says of copy `k` what book `b` says of the original. */
  ghost predicate SameBook(rename: Rename, all: seq<Row>, k: nat, b: Book, c: Book) {
    && (forall txid | Mentioned(all, txid) :: rename(k, txid) in c.txids <==> txid in b.txids)
    && (forall key: Outpoint | Mentioned(all, key.txid) :: Copied(rename, k, key) in c.created <==> key in b.created)
    && (forall key: Outpoint | Mentioned(all, key.txid) && key in b.created ::
          c.created[Copied(rename, k, key)] == b.created[key])
    && SameSpent(rename, all, k, b.spent, c.spent)
  }

  ghost predicate SameSpent(rename: Rename, all: seq<Row>, k: nat, s: set<Outpoint>, t: set<Outpoint>) {
    forall key: Outpoint | Mentioned(all, key.txid) :: Copied(rename, k, key) in t <==> key in s
  }

  ghost predicate SameTally(rename: Rename, all: seq<Row>, k: nat, base: nat, t: Tally, u: Tally) {
    && SameSpent(rename, all, k, t.spent, u.spent)
    && u.unresolved == base + t.unresolved && u.valueIn == t.valueIn && u.known == t.known
  }

  ghost predicate Plain(all: seq<Row>, item: Input) {
    item.prev.Some? ==> item.prev.value.txid != "" && Mentioned(all, item.prev.value.txid)
  }

  lemma CopyTakesInput(rename: Rename, all: seq<Row>, k: nat, base: nat, b: Book, c: Book,
                       t: Tally, u: Tally, txid: TxId, item: Input)
    requires KeepsApart(rename, all) && SameBook(rename, all, k, b, c) && SameTally(rename, all, k, base, t, u)
    requires Plain(all, item)
    ensures var r, q := TakeInput(b.created, t, txid, item),
                        TakeInput(c.created, u, rename(k, txid), CopyInput(rename, k, item));
      && r.Ok? == q.Ok?
      && (r.Ok? ==> SameTally(rename, all, k, base, r.value, q.value))
  {
    if item.prev.Some? {
      var key := item.prev.value;
      assert CopyInput(rename, k, item).prev == Some(Copied(rename, k, key));
      forall other: Outpoint | Mentioned(all, other.txid)
        ensures Copied(rename, k, other) == Copied(rename, k, key) <==> other == key
      {}
    }
  }

  lemma {:induction false} CopyTakesInputs(rename: Rename, all: seq<Row>, k: nat, base: nat, b: Book, c: Book,
                                           t: Tally, u: Tally, txid: TxId, items: seq<Input>)
    requires KeepsApart(rename, all) && SameBook(rename, all, k, b, c) && SameTally(rename, all, k, base, t, u)
    requires forall a | 0 <= a < |items| :: Plain(all, items[a])
    ensures var r, q := TakeInputs(b.created, t, txid, items),
                        TakeInputs(c.created, u, rename(k, txid), CopyInputs(rename, k, items));
      && r.Ok? == q.Ok?
      && (r.Ok? ==> SameTally(rename, all, k, base, r.value, q.value))
  {
    if items != [] {
      var last := |items| - 1;
      assert CopyInputs(rename, k, items)[..last] == CopyInputs(rename, k, items[..last]);
      CopyTakesInputs(rename, all, k, base, b, c, t, u, txid, items[..last]);
      var r := TakeInputs(b.created, t, txid, items[..last]);
      if r.Ok? {
        var q := TakeInputs(c.created, u, rename(k, txid), CopyInputs(rename, k, items[..last]));
        CopyTakesInput(rename, all, k, base, b, c, r.value, q.value, txid, items[last]);
      }
    }
  }

  /** `base` checks and then those of one more copy. */
  function Plus(base: Checks, checks: Checks): Checks {
    Checks(base.transactions + checks.transactions, base.duplicates + checks.duplicates,
           base.unresolved + checks.unresolved)
  }

  lemma CopyTakesRow(rename: Rename, all: seq<Row>, k: nat, base: Checks, b: Book, c: Book, row: Row)
    requires KeepsApart(rename, all) && SameBook(rename, all, k, b, c) && c.checks == Plus(base, b.checks)
    requires row in all && !EmptyPrev(row)
    ensures var r, q := TakeRow(b, row), TakeRow(c, CopyRow(rename, k, row));
      && r.Ok? == q.Ok?
      && (r.Ok? ==> SameBook(rename, all, k, r.value, q.value) && q.value.checks == Plus(base, r.value.checks))
  {
    hide KeepsApart, Mentioned, EmptyPrev, TakeInputs, AddOutputs;
    if !row.duplicate {
      MentionedRow(all, row);
      var t := Tally(b.spent, b.checks.unresolved, 0, true);
      var u := Tally(c.spent, c.checks.unresolved, 0, true);
      CopyTakesInputs(rename, all, k, base.unresolved, b, c, t, u, row.txid, row.inputs);
      CopyAddsOutputs(rename, all, k, b, c, row);
      OneTxid(rename, all, k, row.txid);
    }
  }

  /** Within a copy, different txids keep different names. */
  lemma OneTxid(rename: Rename, all: seq<Row>, k: nat, txid: TxId)
    requires KeepsApart(rename, all) && Mentioned(all, txid)
    ensures forall other | Mentioned(all, other) :: rename(k, other) == rename(k, txid) <==> other == txid
  {}

  lemma CopyAddsOutputs(rename: Rename, all: seq<Row>, k: nat, b: Book, c: Book, row: Row)
    requires KeepsApart(rename, all) && SameBook(rename, all, k, b, c) && Mentioned(all, row.txid)
    ensures var m := AddOutputs(b.created, row.txid, row.outputs);
      var n := AddOutputs(c.created, rename(k, row.txid), row.outputs);
      && (forall key: Outpoint | Mentioned(all, key.txid) :: Copied(rename, k, key) in n <==> key in m)
      && (forall key: Outpoint | Mentioned(all, key.txid) && key in m :: n[Copied(rename, k, key)] == m[key])
  {
    AddOutputsKeys(b.created, row.txid, row.outputs);
    AddOutputsKeys(c.created, rename(k, row.txid), row.outputs);
  }

  lemma MentionedRow(all: seq<Row>, row: Row)
    requires row in all && !row.duplicate && !EmptyPrev(row)
    ensures Mentioned(all, row.txid) && forall a | 0 <= a < |row.inputs| :: Plain(all, row.inputs[a])
  {
    var i :| 0 <= i < |all| && all[i] == row;
    assert Mentions(all[i], row.txid);
    forall a | 0 <= a < |row.inputs| ensures Plain(all, row.inputs[a]) {
      if row.inputs[a].prev.Some? {
        var key := row.inputs[a].prev.value;
        assert Mentions(all[i], key.txid);
        assert row.inputs[a].prev == Some(Outpoint(key.txid, key.vout));
      }
    }
  }

  // ---- all copies ----------------------------------------------------------------

  /** `txid` is the name one of the first `k` copies gives to a txid of the fixture. */
  ghost predicate FromCopy(rename: Rename, all: seq<Row>, k: nat, txid: TxId) {
    exists m: nat, original :: m < k && Mentioned(all, original) && txid == rename(m, original)
  }

  /** The book knows nothing but what the first `k` copies name. */
  ghost predicate Within(rename: Rename, all: seq<Row>, k: nat, c: Book) {
    && (forall txid | txid in c.txids :: FromCopy(rename, all, k, txid))
    && (forall key | key in c.created :: FromCopy(rename, all, k, key.txid))
    && (forall key | key in c.spent :: FromCopy(rename, all, k, key.txid))
  }

  lemma FreshCopy(rename: Rename, all: seq<Row>, k: nat, c: Book)
    requires KeepsApart(rename, all) && Within(rename, all, k, c)
    ensures SameBook(rename, all, k, EMPTY_BOOK, c)
  {
    forall txid | Mentioned(all, txid) ensures !FromCopy(rename, all, k, rename(k, txid)) {}
  }

  lemma WithinMore(rename: Rename, all: seq<Row>, k: nat, c: Book)
    requires Within(rename, all, k, c)
    ensures Within(rename, all, k + 1, c)
  {
    forall txid | FromCopy(rename, all, k, txid) ensures FromCopy(rename, all, k + 1, txid) {
      var m: nat, original :| m < k && Mentioned(all, original) && txid == rename(m, original);
      assert m < k + 1 && Mentioned(all, original) && txid == rename(m, original);
    }
  }

  lemma WithinRow(rename: Rename, all: seq<Row>, k: nat, c: Book, row: Row)
    requires Within(rename, all, k + 1, c) && row in all && !EmptyPrev(row)
    requires TakeRow(c, CopyRow(rename, k, row)).Ok?
    ensures Within(rename, all, k + 1, TakeRow(c, CopyRow(rename, k, row)).value)
  {
    if !row.duplicate {
      MentionedRow(all, row);
      var copy := CopyRow(rename, k, row);
      TakeInputsFits(c.created, Tally(c.spent, c.checks.unresolved, 0, true), copy.txid, copy.inputs);
      AddOutputsKeys(c.created, copy.txid, copy.outputs);
      assert FromCopy(rename, all, k + 1, copy.txid);
      forall key | key in Named(copy.inputs) ensures FromCopy(rename, all, k + 1, key.txid) {
        var a :| 0 <= a < |copy.inputs| && copy.inputs[a].prev == Some(key);
        assert Plain(all, row.inputs[a]) && key == Copied(rename, k, row.inputs[a].prev.value);
      }
    }
  }

  /** After `done`, the first `i` rows of copy `k` fare exactly as the first `i` rows of the fixture. */
  lemma {:induction false} CopyTakesRows(rename: Rename, all: seq<Row>, k: nat, done: seq<Row>, i: nat)
    requires KeepsApart(rename, all) && NoEmptyPrev(all) && i <= |all|
    requires TakeRows(done).Ok? && Within(rename, all, k, TakeRows(done).value)
    ensures var r, q := TakeRows(all[..i]), TakeRows(done + CopyRows(rename, k, all[..i]));
      && r.Ok? == q.Ok?
      && (r.Ok? ==>
            && SameBook(rename, all, k, r.value, q.value)
            && q.value.checks == Plus(TakeRows(done).value.checks, r.value.checks)
            && Within(rename, all, k + 1, q.value))
  {
    hide KeepsApart, Within, SameBook, TakeRow, TakeRows;
    if i == 0 {
      assert done + CopyRows(rename, k, all[..0]) == done;
      TakeNoRows();
      FreshCopy(rename, all, k, TakeRows(done).value);
      WithinMore(rename, all, k, TakeRows(done).value);
    } else {
      CopyTakesRows(rename, all, k, done, i - 1);
      assert all[..i] == all[..i - 1] + [all[i - 1]];
      assert CopyRows(rename, k, all[..i]) == CopyRows(rename, k, all[..i - 1]) + [CopyRow(rename, k, all[i - 1])];
      assert done + CopyRows(rename, k, all[..i]) ==
             done + CopyRows(rename, k, all[..i - 1]) + [CopyRow(rename, k, all[i - 1])];
      CopyTakesNext(rename, all, k, TakeRows(done).value.checks, all[..i - 1],
                    done + CopyRows(rename, k, all[..i - 1]), all[i - 1]);
    }
  }

  lemma TakeNoRows()
    ensures TakeRows([]) == Ok(EMPTY_BOOK)
  {}

  lemma TakeOneMore(front: seq<Row>, row: Row)
    ensures TakeRows(front + [row]) == match TakeRows(front) case Err(e) => Err(e) case Ok(b) => TakeRow(b, row)
  {
    assert (front + [row])[..|front|] == front;
  }

  /** If a copy has fared as the original, it does so for one more row. */
  lemma CopyTakesNext(rename: Rename, all: seq<Row>, k: nat, base: Checks, front: seq<Row>, before: seq<Row>, row: Row)
    requires KeepsApart(rename, all) && row in all && !EmptyPrev(row)
    requires var r, q := TakeRows(front), TakeRows(before);
      && r.Ok? == q.Ok?
      && (r.Ok? ==>
            && SameBook(rename, all, k, r.value, q.value) && q.value.checks == Plus(base, r.value.checks)
            && Within(rename, all, k + 1, q.value))
    ensures var r, q := TakeRows(front + [row]), TakeRows(before + [CopyRow(rename, k, row)]);
      && r.Ok? == q.Ok?
      && (r.Ok? ==>
            && SameBook(rename, all, k, r.value, q.value) && q.value.checks == Plus(base, r.value.checks)
            && Within(rename, all, k + 1, q.value))
  {
    hide KeepsApart, Within, SameBook, TakeRow, TakeRows;
    TakeOneMore(front, row);
    TakeOneMore(before, CopyRow(rename, k, row));
    if TakeRows(front).Ok? {
      CopyTakesRow(rename, all, k, base, TakeRows(front).value, TakeRows(before).value, row);
      if TakeRow(TakeRows(front).value, row).Ok? {
        WithinRow(rename, all, k, TakeRows(before).value, row);
      }
    }
  }

  /** The checks of `k` copies, added up. */
  function Times(k: nat, checks: Checks): Checks {
    if k == 0 then Checks(0, 0, 0) else Plus(Times(k - 1, checks), checks)
  }

  lemma OneMoreTime(k: nat, x: nat)
    requires k > 0
    ensures k * x == (k - 1) * x + x
  {}

  lemma {:induction false} TimesIsProduct(k: nat, checks: Checks)
    ensures Times(k, checks) == Checks(k * checks.transactions, k * checks.duplicates, k * checks.unresolved)
  {
    if k > 0 {
      TimesIsProduct(k - 1, checks);
      OneMoreTime(k, checks.transactions);
      OneMoreTime(k, checks.duplicates);
      OneMoreTime(k, checks.unresolved);
    }
  }

  lemma OneMoreCopy(rename: Rename, k: nat, all: seq<Row>, done: seq<Row>)
    requires KeepsApart(rename, all) && NoEmptyPrev(all) && TakeRows(all).Ok?
    requires TakeRows(done).Ok? && Within(rename, all, k, TakeRows(done).value)
    ensures var r := TakeRows(done + CopyRows(rename, k, all));
      && r.Ok? && Within(rename, all, k + 1, r.value)
      && r.value.checks == Plus(TakeRows(done).value.checks, TakeRows(all).value.checks)
  {
    CopyTakesRows(rename, all, k, done, |all|);
    assert all[..|all|] == all;
  }

  lemma NothingCopied(rename: Rename, all: seq<Row>)
    ensures TakeRows([]) == Ok(EMPTY_BOOK) && Within(rename, all, 0, EMPTY_BOOK)
  {}

  lemma {:induction false} CopiesTaken(rename: Rename, copies: nat, all: seq<Row>)
    requires KeepsApart(rename, all) && NoEmptyPrev(all) && TakeRows(all).Ok?
    ensures var r := TakeRows(Replicated(rename, copies, all));
      && r.Ok? && Within(rename, all, copies, r.value)
      && r.value.checks == Times(copies, TakeRows(all).value.checks)
  {
    hide KeepsApart, NoEmptyPrev, Within, TakeRows;
    if copies == 0 {
      NothingCopied(rename, all);
    } else {
      var done := Replicated(rename, copies - 1, all);
      CopiesTaken(rename, copies - 1, all);
      OneMoreCopy(rename, copies - 1, all, done);
    }
  }

  /** Replication preserves validity and multiplies every count: the copies of a valid ledger are a
      valid ledger with `copies` times the transactions, duplicates and unresolved prevouts. */
  lemma ReplicationPreservesValidity(rename: Rename, copies: nat, all: seq<Row>)
    requires KeepsApart(rename, all) && NoEmptyPrev(all) && ValidLedger(all)
    ensures ValidLedger(Replicated(rename, copies, all))
    ensures TakeRows(all).Ok? && TakeRows(Replicated(rename, copies, all)).Ok?
    ensures var one, many := TakeRows(all).value.checks, TakeRows(Replicated(rename, copies, all)).value.checks;
      many == Checks(copies * one.transactions, copies * one.duplicates, copies * one.unresolved)
  {
    AcceptsExactlyValid(all);
    CopiesTaken(rename, copies, all);
    AcceptsExactlyValid(Replicated(rename, copies, all));
    TimesIsProduct(copies, TakeRows(all).value.checks);
  }

  /** In copy `k` an outpoint is on the books before row `i` exactly when the original one was. */
  lemma SpendsResolveInOwnCopy(rename: Rename, all: seq<Row>, k: nat, i: nat, key: Outpoint)
    requires KeepsApart(rename, all) && NoEmptyPrev(all) && ValidLedger(all)
    requires i <= |all| && Mentioned(all, key.txid)
    ensures var before := Replicated(rename, k, all) + CopyRows(rename, k, all[..i]);
      CreatedBefore(before, |before|, Copied(rename, k, key)) <==> CreatedBefore(all[..i], i, key)
  {
    var before := Replicated(rename, k, all) + CopyRows(rename, k, all[..i]);
    AcceptsExactlyValid(all);
    CopiesTaken(rename, k, all);
    CopyTakesRows(rename, all, k, Replicated(rename, k, all), i);
    if TakeRows(all[..i]).Err? {
      RowsFailEarly(all, i);
    }
    AcceptsExactlyValid(all[..i]);
    AcceptsExactlyValid(before);
  }

  // ---- the empty prev_txid ---------------------------------------------------------

  /** An input with an empty prev_txid is written back unrenamed, so two copies spend the same outpoint. */
  lemma EmptyPrevBreaks(rename: Rename, copies: nat, all: seq<Row>)
    requires copies >= 2 && !NoEmptyPrev(all)
    ensures !ValidLedger(Replicated(rename, copies, all))
  {
    var i :| 0 <= i < |all| && EmptyPrev(all[i]);
    var a, vout: int :| 0 <= a < |all[i].inputs| && all[i].inputs[a].prev == Some(Outpoint("", vout));
    var out := Replicated(rename, copies, all);
    CopyAt(rename, copies, all, 0, i);
    CopyAt(rename, copies, all, 1, i);
    assert Spends(out, i, a, Outpoint("", vout));
    assert Spends(out, |all| + i, a, Outpoint("", vout));
  }

  /** Two or more copies of a valid ledger are valid exactly when no input of a canonical row has an
      empty prev_txid. */
  lemma ReplicationExactly(rename: Rename, copies: nat, all: seq<Row>)
    requires KeepsApart(rename, all) && copies >= 2 && ValidLedger(all)
    ensures ValidLedger(Replicated(rename, copies, all)) <==> NoEmptyPrev(all)
  {
    if NoEmptyPrev(all) {
      ReplicationPreservesValidity(rename, copies, all);
    } else {
      EmptyPrevBreaks(rename, copies, all);
    }
  }
}
