/** Injected transactions as a ledger: what the injector of generator.py keeps of its `txs`, and why
    the time-sorted rows of such transactions pass the checker. */
module InjectedLedger {
  import opened Wrappers
  import opened Sequences
  import opened Ledger

  type Address = string

  datatype Utxo = Utxo(txid: TxId, vout: int, address: Address, amount: int)

  /** Moments count microseconds. */
  datatype Tx = Tx(txid: TxId, moment: int, inputs: seq<Utxo>, outputs: seq<(Address, int)>, fee: int)

  function Key(u: Utxo): Outpoint { Outpoint(u.txid, u.vout) }

  function SumUtxos(utxos: seq<Utxo>): int {
    if utxos == [] then 0 else SumUtxos(utxos[..|utxos| - 1]) + utxos[|utxos| - 1].amount
  }

  function SumOutputs(outputs: seq<(Address, int)>): int {
    if outputs == [] then 0 else SumOutputs(outputs[..|outputs| - 1]) + outputs[|outputs| - 1].1
  }

  /** Output `u.vout` of `tx` is `u`. */
  predicate Makes(tx: Tx, u: Utxo) {
    tx.txid == u.txid && 0 <= u.vout < |tx.outputs| && tx.outputs[u.vout] == (u.address, u.amount)
  }

  predicate SpendsKey(tx: Tx, a: nat, key: Outpoint) { a < |tx.inputs| && Key(tx.inputs[a]) == key }

  ghost predicate DistinctIds(txs: seq<Tx>) {
    forall i, j | 0 <= i < j < |txs| :: txs[i].txid != txs[j].txid
  }

  /** Some transaction made `u`, strictly before `moment`. */
  ghost predicate MadeBefore(txs: seq<Tx>, u: Utxo, moment: int) {
    exists p :: p in txs && Makes(p, u) && p.moment < moment
  }

  ghost predicate Spent(txs: seq<Tx>, key: Outpoint) {
    exists tx, a: nat :: tx in txs && SpendsKey(tx, a, key)
  }

  ghost predicate InputsMadeBefore(txs: seq<Tx>) {
    forall tx, a | tx in txs && 0 <= a < |tx.inputs| :: MadeBefore(txs, tx.inputs[a], tx.moment)
  }

  ghost predicate SpentOnce(txs: seq<Tx>) {
    forall tx, a: nat, other, b: nat, key |
      tx in txs && other in txs && SpendsKey(tx, a, key) && SpendsKey(other, b, key) :: tx == other && a == b
  }

  ghost predicate Balanced(txs: seq<Tx>) {
    forall tx | tx in txs && tx.inputs != [] ::
      SumUtxos(tx.inputs) == SumOutputs(tx.outputs) + tx.fee && tx.fee >= 0
  }

  /** What every call of the injector keeps. */
  ghost predicate Disciplined(txs: seq<Tx>) {
    DistinctIds(txs) && InputsMadeBefore(txs) && SpentOnce(txs) && Balanced(txs)
  }

  // ---- the rows ---------------------------------------------------------------

  function InputOf(u: Utxo): Input { Input(Some(Key(u)), Some(u.amount)) }

  function InputRows(inputs: seq<Utxo>): seq<Input> {
    seq(|inputs|, a requires 0 <= a < |inputs| => InputOf(inputs[a]))
  }

  function OutputRows(outputs: seq<(Address, int)>): seq<int> {
    seq(|outputs|, v requires 0 <= v < |outputs| => outputs[v].1)
  }

  /** `_raw_row`: a transaction without inputs gets one null input. */
  function RowOf(tx: Tx): Row {
    Row(false, tx.txid,
        if tx.inputs == [] then [Input(None, None)] else InputRows(tx.inputs), OutputRows(tx.outputs))
  }

  /** The row names every outpoint the transaction spends, with its amount, and every amount it makes; a minting one
      has a single null input. */
  lemma RowHolds(tx: Tx)
    ensures var row := RowOf(tx);
      && row.txid == tx.txid && !row.duplicate
      && |row.outputs| == |tx.outputs| && (forall v | 0 <= v < |tx.outputs| :: row.outputs[v] == tx.outputs[v].1)
      && (tx.inputs == [] ==> row.inputs == [Input(None, None)])
      && (tx.inputs != [] ==> |row.inputs| == |tx.inputs| && forall a | 0 <= a < |tx.inputs| ::
            row.inputs[a] == Input(Some(Outpoint(tx.inputs[a].txid, tx.inputs[a].vout)), Some(tx.inputs[a].amount)))
  {}

  function Rows(txs: seq<Tx>): seq<Row> {
    seq(|txs|, i requires 0 <= i < |txs| => RowOf(txs[i]))
  }

  ghost predicate SortedByMoment(txs: seq<Tx>) {
    forall i, j | 0 <= i <= j < |txs| :: txs[i].moment <= txs[j].moment
  }

  lemma {:induction false} InputSums(inputs: seq<Utxo>)
    ensures SumIn(InputRows(inputs)) == SumUtxos(inputs)
  {
    if inputs != [] {
      InputSums(inputs[..|inputs| - 1]);
      assert InputRows(inputs)[..|inputs| - 1] == InputRows(inputs[..|inputs| - 1]);
    }
  }

  lemma {:induction false} OutputSums(outputs: seq<(Address, int)>)
    ensures Sum(OutputRows(outputs)) == SumOutputs(outputs)
  {
    if outputs != [] {
      OutputSums(outputs[..|outputs| - 1]);
      assert OutputRows(outputs)[..|outputs| - 1] == OutputRows(outputs[..|outputs| - 1]);
    }
  }

  /** A permutation of a sequence without repeated txids has none either. */
  lemma SortedIdsDistinct(txs: seq<Tx>, sorted: seq<Tx>)
    requires DistinctIds(txs) && multiset(sorted) == multiset(txs)
    ensures DistinctIds(sorted)
  {
    forall i, j | 0 <= i < j < |sorted| ensures sorted[i].txid != sorted[j].txid {
      if sorted[i].txid == sorted[j].txid {
        assert sorted[i] in multiset(sorted) && sorted[j] in multiset(sorted);
        assert sorted[i] in txs && sorted[j] in txs;
        assert sorted[i] == sorted[j];
        TwiceCounted(sorted, i, j);
        OnceCounted(txs, sorted[i]);
      }
    }
  }

  lemma TwiceCounted(s: seq<Tx>, i: nat, j: nat)
    requires i < j < |s| && s[i] == s[j]
    ensures multiset(s)[s[i]] >= 2
  {
    assert s == s[..j] + [s[j]] + s[j + 1..];
    assert s[..j][i] == s[i];
    assert s[i] in multiset(s[..j]);
  }

  lemma {:induction false} OnceCounted(txs: seq<Tx>, tx: Tx)
    requires DistinctIds(txs)
    ensures multiset(txs)[tx] <= 1
  {
    if txs != [] {
      var last := |txs| - 1;
      OnceCounted(txs[..last], tx);
      assert txs == txs[..last] + [txs[last]];
      if txs[last] == tx {
        assert tx !in txs[..last];
        assert tx !in multiset(txs[..last]);
      }
    }
  }

  lemma SameMembers(txs: seq<Tx>, sorted: seq<Tx>)
    requires multiset(sorted) == multiset(txs)
    ensures forall tx :: tx in sorted <==> tx in txs
  {
    forall tx ensures tx in sorted <==> tx in txs {
      assert tx in sorted <==> tx in multiset(sorted);
      assert tx in txs <==> tx in multiset(txs);
    }
  }

  /** In time order each input's maker comes first. */
  lemma MakerIsEarlier(sorted: seq<Tx>, i: nat, a: nat) returns (j: nat)
    requires Disciplined(sorted) && SortedByMoment(sorted) && i < |sorted| && a < |sorted[i].inputs|
    ensures j < i && Makes(sorted[j], sorted[i].inputs[a])
  {
    assert sorted[i] in sorted;
    var p :| p in sorted && Makes(p, sorted[i].inputs[a]) && p.moment < sorted[i].moment;
    j :| 0 <= j < |sorted| && sorted[j] == p;
    assert sorted[j].moment < sorted[i].moment;
  }

  lemma RowSpends(sorted: seq<Tx>, i: nat, a: nat, key: Outpoint)
    ensures Spends(Rows(sorted), i, a, key) <==> i < |sorted| && SpendsKey(sorted[i], a, key)
  {}

  lemma DisciplinedSorted(txs: seq<Tx>, sorted: seq<Tx>)
    requires Disciplined(txs) && multiset(sorted) == multiset(txs)
    ensures Disciplined(sorted)
  {
    SortedIdsDistinct(txs, sorted);
    SameMembers(txs, sorted);
    forall tx, a | tx in sorted && 0 <= a < |tx.inputs| ensures MadeBefore(sorted, tx.inputs[a], tx.moment) {
      assert MadeBefore(txs, tx.inputs[a], tx.moment);
    }
  }

  lemma RowsResolve(sorted: seq<Tx>, i: nat, a: nat, key: Outpoint)
    requires Disciplined(sorted) && SortedByMoment(sorted) && Spends(Rows(sorted), i, a, key)
    ensures CreatedBefore(Rows(sorted), i, key)
  {
    RowSpends(sorted, i, a, key);
    var j := MakerIsEarlier(sorted, i, a);
    assert Creates(Rows(sorted), j, key);
  }

  lemma RowsSpendOnce(sorted: seq<Tx>)
    requires Disciplined(sorted)
    ensures NoDoubleSpend(Rows(sorted))
  {
    var rows := Rows(sorted);
    forall i: nat, a: nat, j: nat, b: nat, key | Spends(rows, i, a, key) && Spends(rows, j, b, key)
      ensures i == j && a == b
    {
      RowSpends(sorted, i, a, key);
      RowSpends(sorted, j, b, key);
      assert sorted[i] in sorted && sorted[j] in sorted;
      assert sorted[i].txid == sorted[j].txid;
    }
  }

  lemma RowsMatch(sorted: seq<Tx>)
    requires Disciplined(sorted) && SortedByMoment(sorted)
    ensures AmountsMatch(Rows(sorted))
  {
    var rows := Rows(sorted);
    forall i: nat, a: nat, j: nat, key | Spends(rows, i, a, key) && j < i && Creates(rows, j, key)
      ensures rows[i].inputs[a].amount == Some(rows[j].outputs[key.vout])
    {
      RowSpends(sorted, i, a, key);
      var m := MakerIsEarlier(sorted, i, a);
      assert sorted[m].txid == sorted[j].txid;
    }
  }

  /** The null input of a funding transaction keeps its row from counting as resolved. */
  lemma FundingUnresolved(sorted: seq<Tx>, i: nat)
    requires i < |sorted|
    ensures sorted[i].inputs == [] ==> !FullyResolved(Rows(sorted), i)
  {
    if sorted[i].inputs == [] {
      assert Rows(sorted)[i].inputs[0].prev.None?;
    }
  }

  lemma RowKeepsValue(sorted: seq<Tx>, i: nat)
    requires Disciplined(sorted) && i < |sorted| && FullyResolved(Rows(sorted), i)
    ensures SumIn(Rows(sorted)[i].inputs) >= Sum(Rows(sorted)[i].outputs)
  {
    var tx := sorted[i];
    assert Rows(sorted)[i] == RowOf(tx);
    FundingUnresolved(sorted, i);
    InputSums(tx.inputs);
    OutputSums(tx.outputs);
  }

  lemma RowsValid(sorted: seq<Tx>)
    requires Disciplined(sorted) && SortedByMoment(sorted)
    ensures ValidLedger(Rows(sorted))
  {
    RowsSpendOnce(sorted);
    RowsMatch(sorted);
    forall i | 0 <= i < |sorted| && FullyResolved(Rows(sorted), i)
      ensures SumIn(Rows(sorted)[i].inputs) >= Sum(Rows(sorted)[i].outputs)
    {
      RowKeepsValue(sorted, i);
    }
  }

  /** Sorted by moment, with ties in any order, disciplined transactions are a ledger the checker accepts
      with no unresolved prevout: every non-null input names an output created before, with its amount,
      once. */
  lemma SortedLedgerAccepted(txs: seq<Tx>, sorted: seq<Tx>)
    requires Disciplined(txs) && multiset(sorted) == multiset(txs) && SortedByMoment(sorted)
    ensures TakeRows(Rows(sorted)).Ok?
    ensures TakeRows(Rows(sorted)).value.checks == Checks(|txs|, 0, 0)
  {
    DisciplinedSorted(txs, sorted);
    RowsValid(sorted);
    AcceptsExactlyValid(Rows(sorted));
    CountsAreRight(Rows(sorted));
    NothingUnresolved(Rows(sorted));
    forall i: nat, a: nat, key | Spends(Rows(sorted), i, a, key) ensures CreatedBefore(Rows(sorted), i, key) {
      RowsResolve(sorted, i, a, key);
    }
    AllCanonical(sorted);
    assert |multiset(sorted)| == |sorted| && |multiset(txs)| == |txs|;
  }

  lemma {:induction false} AllCanonical(txs: seq<Tx>)
    ensures Canonical(Rows(txs)) == |txs|
  {
    if txs != [] {
      AllCanonical(txs[..|txs| - 1]);
      assert Rows(txs)[..|txs| - 1] == Rows(txs[..|txs| - 1]);
    }
  }

  // ---- the unspent outputs --------------------------------------------------------

  ghost predicate NoRepeats(utxos: seq<Utxo>) {
    forall i, j | 0 <= i < j < |utxos| :: utxos[i] != utxos[j]
  }

  function OutputsOf(tx: Tx): (utxos: seq<Utxo>)
    ensures |utxos| == |tx.outputs|
  {
    seq(|tx.outputs|, v requires 0 <= v < |tx.outputs| => Utxo(tx.txid, v, tx.outputs[v].0, tx.outputs[v].1))
  }

  ghost predicate Made(txs: seq<Tx>, u: Utxo) { exists p :: p in txs && Makes(p, u) }

  /** `pool` maps every output that was made and not spent to the moment it was made. */
  ghost predicate PoolOf(txs: seq<Tx>, pool: map<Utxo, int>) {
    && (forall u :: u in pool <==> Made(txs, u) && !Spent(txs, Key(u)))
    && (forall p, u | p in txs && Makes(p, u) && u in pool :: pool[u] == p.moment)
  }

  /** The inputs are different unspent outputs, all made before `moment`. */
  ghost predicate Spendable(pool: map<Utxo, int>, inputs: seq<Utxo>, moment: int) {
    NoRepeats(inputs) && forall u | u in inputs :: u in pool && pool[u] < moment
  }

  /** From `before` to `after`, exactly `spent` left the pool and exactly `made`, never made before
      (`ever`), entered it at `moment`. */
  ghost predicate Moves(before: map<Utxo, int>, after: map<Utxo, int>, ever: set<Utxo>,
                        spent: seq<Utxo>, made: seq<Utxo>, moment: int) {
    && (forall u :: u in after <==> (u in before && u !in spent) || u in made)
    && (forall u | u in made :: u in after && after[u] == moment && u !in ever)
    && (forall u | u in before && u !in spent :: u in after && after[u] == before[u])
    && NoRepeats(made)
  }

  ghost predicate EverOf(txs: seq<Tx>, ever: set<Utxo>) {
    forall u :: u in ever <==> Made(txs, u)
  }

  function PoolAfter(pool: map<Utxo, int>, tx: Tx): map<Utxo, int> {
    map u | u in pool.Keys + (set o | o in OutputsOf(tx)) && u !in tx.inputs ::
      if u in OutputsOf(tx) then tx.moment else pool[u]
  }

  lemma MadeByOutputs(tx: Tx, u: Utxo)
    ensures u in OutputsOf(tx) <==> Makes(tx, u)
  {
    if Makes(tx, u) {
      assert OutputsOf(tx)[u.vout] == u;
    }
  }

  lemma SameKeySame(txs: seq<Tx>, pool: map<Utxo, int>, u: Utxo, w: Utxo)
    requires DistinctIds(txs) && Made(txs, u) && Made(txs, w) && Key(u) == Key(w)
    ensures u == w
  {
    var p :| p in txs && Makes(p, u);
    var q :| q in txs && Makes(q, w);
    var i :| 0 <= i < |txs| && txs[i] == p;
    var j :| 0 <= j < |txs| && txs[j] == q;
  }

  /** A transaction spending from the pool keeps the discipline. */
  lemma AddDisciplined(txs: seq<Tx>, pool: map<Utxo, int>, tx: Tx)
    requires Disciplined(txs) && PoolOf(txs, pool) && (forall p | p in txs :: p.txid != tx.txid)
    requires Spendable(pool, tx.inputs, tx.moment)
    requires tx.inputs != [] ==> SumUtxos(tx.inputs) == SumOutputs(tx.outputs) + tx.fee && tx.fee >= 0
    ensures Disciplined(txs + [tx])
  {
    var more := txs + [tx];
    forall p, a | p in more && 0 <= a < |p.inputs| ensures MadeBefore(more, p.inputs[a], p.moment) {
      if p in txs {
        assert MadeBefore(txs, p.inputs[a], p.moment);
        var q :| q in txs && Makes(q, p.inputs[a]) && q.moment < p.moment;
        assert q in more;
      } else {
        assert p.inputs[a] in tx.inputs && Made(txs, p.inputs[a]);
        var q :| q in txs && Makes(q, p.inputs[a]);
        assert q in more;
      }
    }
    AddSpentOnce(txs, pool, tx);
  }

  lemma AddSpentOnce(txs: seq<Tx>, pool: map<Utxo, int>, tx: Tx)
    requires Disciplined(txs) && PoolOf(txs, pool) && (forall p | p in txs :: p.txid != tx.txid)
    requires Spendable(pool, tx.inputs, tx.moment)
    ensures SpentOnce(txs + [tx])
  {
    var more := txs + [tx];
    forall p, a: nat, q, b: nat, key | p in more && q in more && SpendsKey(p, a, key) && SpendsKey(q, b, key)
      ensures p == q && a == b
    {
      assert p in txs ==> Spent(txs, key);
      assert q in txs ==> Spent(txs, key);
      assert p !in txs ==> p == tx && tx.inputs[a] in tx.inputs && !Spent(txs, key);
      assert q !in txs ==> q == tx && tx.inputs[b] in tx.inputs && !Spent(txs, key);
      if p !in txs {
        SameKeySame(txs, pool, tx.inputs[a], tx.inputs[b]);
      }
    }
  }

  lemma PoolMoves(txs: seq<Tx>, pool: map<Utxo, int>, ever: set<Utxo>, tx: Tx)
    requires PoolOf(txs, pool) && EverOf(txs, ever) && (forall p | p in txs :: p.txid != tx.txid)
    requires Spendable(pool, tx.inputs, tx.moment)
    ensures Moves(pool, PoolAfter(pool, tx), ever, tx.inputs, OutputsOf(tx), tx.moment)
    ensures EverOf(txs + [tx], ever + set u | u in OutputsOf(tx))
  {
    forall u | u in OutputsOf(tx) ensures u !in ever && u !in pool {
      MadeByOutputs(tx, u);
    }
    forall u ensures Made(txs + [tx], u) <==> u in ever || u in OutputsOf(tx) {
      AddMade(txs, tx, u);
      MadeByOutputs(tx, u);
    }
  }

  lemma AddSpent(txs: seq<Tx>, tx: Tx, key: Outpoint)
    ensures Spent(txs + [tx], key) <==> Spent(txs, key) || exists a: nat :: SpendsKey(tx, a, key)
  {
    var more := txs + [tx];
    if Spent(more, key) {
      var p, a: nat :| p in more && SpendsKey(p, a, key);
      assert p in txs || p == tx;
    }
    if Spent(txs, key) {
      var p, a: nat :| p in txs && SpendsKey(p, a, key);
      assert p in more && SpendsKey(p, a, key);
    }
    if a: nat :| SpendsKey(tx, a, key) {
      assert tx in more && SpendsKey(tx, a, key);
    }
  }

  lemma AddMade(txs: seq<Tx>, tx: Tx, u: Utxo)
    ensures Made(txs + [tx], u) <==> Made(txs, u) || Makes(tx, u)
  {
    assert tx in txs + [tx];
    if Made(txs, u) {
      var p :| p in txs && Makes(p, u);
      assert p in txs + [tx];
    }
  }

  /** An output of `tx` cannot have been spent before, and `tx` does not spend it. */
  lemma NewUnspent(txs: seq<Tx>, pool: map<Utxo, int>, tx: Tx, u: Utxo)
    requires InputsMadeBefore(txs) && PoolOf(txs, pool) && (forall p | p in txs :: p.txid != tx.txid)
    requires Spendable(pool, tx.inputs, tx.moment) && Makes(tx, u)
    ensures !Spent(txs + [tx], Key(u))
  {
    AddSpent(txs, tx, Key(u));
    forall p, a: nat | p in txs ensures !SpendsKey(p, a, Key(u)) {
      assert a < |p.inputs| ==> MadeBefore(txs, p.inputs[a], p.moment);
    }
    forall a: nat ensures !SpendsKey(tx, a, Key(u)) {
      assert a < |tx.inputs| ==> tx.inputs[a] in tx.inputs && Made(txs, tx.inputs[a]);
    }
  }

  lemma PoolKeys(pool: map<Utxo, int>, tx: Tx)
    ensures forall u :: u in PoolAfter(pool, tx) <==> (u in pool || u in OutputsOf(tx)) && u !in tx.inputs
  {}

  lemma AddPool(txs: seq<Tx>, pool: map<Utxo, int>, tx: Tx)
    requires Disciplined(txs) && PoolOf(txs, pool) && (forall p | p in txs :: p.txid != tx.txid)
    requires Spendable(pool, tx.inputs, tx.moment)
    ensures PoolOf(txs + [tx], PoolAfter(pool, tx))
  {
    var more, after := txs + [tx], PoolAfter(pool, tx);
    PoolKeys(pool, tx);
    forall u ensures u in after <==> Made(more, u) && !Spent(more, Key(u)) {
      MadeByOutputs(tx, u);
      AddMade(txs, tx, u);
      AddSpent(txs, tx, Key(u));
      if Makes(tx, u) {
        NewUnspent(txs, pool, tx, u);
      } else if Made(txs, u) {
        OldUnspent(txs, pool, tx, u);
      }
    }
    forall p, u | p in more && Makes(p, u) && u in after ensures after[u] == p.moment {
      MadeByOutputs(tx, u);
    }
  }

  lemma OldUnspent(txs: seq<Tx>, pool: map<Utxo, int>, tx: Tx, u: Utxo)
    requires DistinctIds(txs) && PoolOf(txs, pool) && Spendable(pool, tx.inputs, tx.moment) && Made(txs, u)
    ensures u in tx.inputs <==> exists a: nat :: SpendsKey(tx, a, Key(u))
  {
    if u in tx.inputs {
      var a :| 0 <= a < |tx.inputs| && tx.inputs[a] == u;
      assert SpendsKey(tx, a, Key(u));
    }
    if a: nat :| SpendsKey(tx, a, Key(u)) {
      assert tx.inputs[a] in tx.inputs;
      SameKeySame(txs, pool, u, tx.inputs[a]);
    }
  }

  /** A new transaction that spends unspent, strictly earlier outputs, and accounts for their value. */
  ghost predicate SpendsRightly(txs: seq<Tx>, pool: map<Utxo, int>, tx: Tx) {
    && (forall p | p in txs :: p.txid != tx.txid) && Spendable(pool, tx.inputs, tx.moment)
    && (tx.inputs != [] ==> SumUtxos(tx.inputs) == SumOutputs(tx.outputs) + tx.fee && tx.fee >= 0)
  }

  /** A further transaction keeps the discipline exactly when it spends rightly. */
  lemma AddDisciplinedExactly(txs: seq<Tx>, pool: map<Utxo, int>, tx: Tx)
    requires Disciplined(txs) && PoolOf(txs, pool)
    ensures Disciplined(txs + [tx]) <==> SpendsRightly(txs, pool, tx)
  {
    if SpendsRightly(txs, pool, tx) {
      AddDisciplined(txs, pool, tx);
    }
    if Disciplined(txs + [tx]) {
      OnlyRightly(txs, pool, tx);
    }
  }

  lemma OnlyRightly(txs: seq<Tx>, pool: map<Utxo, int>, tx: Tx)
    requires PoolOf(txs, pool) && Disciplined(txs + [tx])
    ensures SpendsRightly(txs, pool, tx)
  {
    var more := txs + [tx];
    assert more[|txs|] == tx;
    forall p | p in txs ensures p.txid != tx.txid {
      var i :| 0 <= i < |txs| && txs[i] == p;
      assert more[i] == p;
    }
    forall a: nat | a < |tx.inputs| ensures tx.inputs[a] in pool && pool[tx.inputs[a]] < tx.moment {
      InputUnspent(txs, pool, tx, a);
    }
    forall a: nat, b: nat | a < b < |tx.inputs| ensures tx.inputs[a] != tx.inputs[b] {
      assert SpendsKey(tx, a, Key(tx.inputs[a]));
      assert SpendsKey(tx, b, Key(tx.inputs[b]));
    }
  }

  lemma InputUnspent(txs: seq<Tx>, pool: map<Utxo, int>, tx: Tx, a: nat)
    requires PoolOf(txs, pool) && Disciplined(txs + [tx]) && a < |tx.inputs|
    requires forall p | p in txs :: p.txid != tx.txid
    ensures tx.inputs[a] in pool && pool[tx.inputs[a]] < tx.moment
  {
    var more, u := txs + [tx], tx.inputs[a];
    assert tx in more && MadeBefore(more, u, tx.moment);
    var p :| p in more && Makes(p, u) && p.moment < tx.moment;
    assert p in txs && Made(txs, u);
    forall q, b: nat | q in txs ensures !SpendsKey(q, b, Key(u)) {
      assert q in more && SpendsKey(tx, a, Key(u));
      assert q.txid != tx.txid;
    }
    assert !Spent(txs, Key(u));
  }

  /** The books after a transaction that spends from the pool. */
  lemma AddTransaction(txs: seq<Tx>, pool: map<Utxo, int>, ever: set<Utxo>, tx: Tx)
    requires Disciplined(txs) && PoolOf(txs, pool) && EverOf(txs, ever) && pool.Keys <= ever
    requires (forall p | p in txs :: p.txid != tx.txid) && Spendable(pool, tx.inputs, tx.moment)
    requires tx.inputs != [] ==> SumUtxos(tx.inputs) == SumOutputs(tx.outputs) + tx.fee && tx.fee >= 0
    ensures var after, made := PoolAfter(pool, tx), set u | u in OutputsOf(tx);
      && Disciplined(txs + [tx]) && PoolOf(txs + [tx], after) && EverOf(txs + [tx], ever + made)
      && after.Keys <= ever + made && Moves(pool, after, ever, tx.inputs, OutputsOf(tx), tx.moment)
  {
    AddDisciplined(txs, pool, tx);
    AddPool(txs, pool, tx);
    PoolMoves(txs, pool, ever, tx);
    PoolKeys(pool, tx);
  }
}
