/** The transactions of the market and the merchant sweeps: which payments each of them spends. */
module SliceSweeps {
  import opened Wrappers
  import opened Sequences
  import opened Ledger
  import opened InjectedLedger
  import opened InjectionShapes

  /** `tx` spends `first` and then all payments due at sweep `i`, in order, into one output, for `fee`, and between
      `wait.0` and `wait.1` after the cursor. */
  ghost predicate IsSliceSweep(tx: Tx, first: seq<Utxo>, payments: seq<Utxo>, at: map<Utxo, int>, from: int, step: int,
                               i: nat, fee: int, wait: (int, int))
  {
    && tx.inputs == first + SliceOf(payments, at, from, step, i)
    && tx.fee == fee && |tx.outputs| == 1 && tx.outputs[0].1 == SumUtxos(tx.inputs) - fee
    && Cursor(from, step, i + 1) + wait.0 <= tx.moment <= Cursor(from, step, i + 1) + wait.1
  }

  // ---- the market ---------------------------------------------------------------------------

  /** Something is due at sweep `i`, and two payments were due at that or at one of the sweeps before it. */
  ghost predicate HotDue(payments: seq<Utxo>, at: map<Utxo, int>, from: int, step: int, i: nat) {
    && !SparseUpTo(payments, at, from, step, i + 1)
    && exists u :: u in payments && u in at && InSlice(from, step, i, at[u])
  }

  /** Which of the first `n` sweeps are made. */
  ghost predicate HotTurns(turns: seq<nat>, payments: seq<Utxo>, at: map<Utxo, int>, from: int, step: int, n: nat) {
    Rising(turns) && forall i: nat :: i in turns <==> i < n && HotDue(payments, at, from, step, i)
  }

  /** From place `n` on, the sweeps of the market, each spending the output of the one before. */
  ghost predicate HotSwept(txs: seq<Tx>, n: nat, turns: seq<nat>, payments: seq<Utxo>, at: map<Utxo, int>, from: int,
                           step: int)
  {
    n + |turns| <= |txs| && forall k: nat | k < |turns| ::
      IsSliceSweep(txs[n + k], LeftBefore(txs, n, k), payments, at, from, step, turns[k], 3_500,
                   (5 * MINUTE, 90 * MINUTE))
  }

  /** One turn of the market: the sweep is made and leaves the hot output, or there is nothing to sweep. */
  ghost predicate TurnDone(before: seq<Tx>, after: seq<Tx>, hot0: Option<Utxo>, hot: Option<Utxo>, payments: seq<Utxo>,
                           at: map<Utxo, int>, from: int, step: int, i: nat)
  {
    if HotDue(payments, at, from, step, i) then
      && |after| == |before| + 1 && before <= after && hot == Some(Output(after[|before|], 0))
      && IsSliceSweep(after[|before|], if hot0.Some? then [hot0.value] else [], payments, at, from, step, i, 3_500,
                      (5 * MINUTE, 90 * MINUTE))
    else after == before && hot == hot0
  }

  lemma TurnMade(before: seq<Tx>, after: seq<Tx>, hot0: Option<Utxo>, hot: Utxo, payments: seq<Utxo>,
                 at: map<Utxo, int>, from: int, step: int, i: nat, batch: seq<Utxo>, target: Address, gap: int)
    requires HotDue(payments, at, from, step, i) && batch == SliceOf(payments, at, from, step, i)
    requires var inputs := if hot0.Some? then [hot0.value] + batch else batch;
      Extends(before, after, Cursor(from, step, i + 1) + gap, inputs, [(target, SumUtxos(inputs) - 3_500)], 3_500)
    requires 5 * MINUTE <= gap <= 90 * MINUTE && hot == Output(after[|before|], 0)
    ensures TurnDone(before, after, hot0, Some(hot), payments, at, from, step, i)
  {
    hide HotDue, Cursor, SliceOf;
    assert [] + batch == batch;
  }

  lemma TurnSkipped(txs: seq<Tx>, hot: Option<Utxo>, payments: seq<Utxo>, at: map<Utxo, int>, from: int, step: int,
                    i: nat)
    requires !HotDue(payments, at, from, step, i)
    ensures TurnDone(txs, txs, hot, hot, payments, at, from, step, i)
  {}

  ghost function NextTurns(turns: seq<nat>, payments: seq<Utxo>, at: map<Utxo, int>, from: int, step: int, i: nat)
    : seq<nat>
  {
    if HotDue(payments, at, from, step, i) then turns + [i] else turns
  }

  lemma HotTurnsMore(turns: seq<nat>, payments: seq<Utxo>, at: map<Utxo, int>, from: int, step: int, i: nat)
    requires HotTurns(turns, payments, at, from, step, i)
    ensures HotTurns(NextTurns(turns, payments, at, from, step, i), payments, at, from, step, i + 1)
  {
    hide HotDue;
    forall k | 0 <= k < |turns| ensures turns[k] < i { assert turns[k] in turns; }
  }

  /** The first `i` sweeps are done: `start` and the sweeps of the turns are on record, and `hot` is the output of the
      last of them. */
  ghost predicate TurnsDone(start: seq<Tx>, txs: seq<Tx>, turns: seq<nat>, hot: Option<Utxo>, payments: seq<Utxo>,
                            at: map<Utxo, int>, from: int, step: int, i: nat)
  {
    && start <= txs && |txs| == |start| + |turns| && |turns| <= i && HotTurns(turns, payments, at, from, step, i)
    && HotSwept(txs, |start|, turns, payments, at, from, step)
    && hot == if turns == [] then None else Some(Output(txs[|txs| - 1], 0))
  }

  lemma TurnsMore(start: seq<Tx>, txs: seq<Tx>, after: seq<Tx>, turns: seq<nat>, hot0: Option<Utxo>, hot: Option<Utxo>,
                  payments: seq<Utxo>, at: map<Utxo, int>, from: int, step: int, i: nat)
    requires TurnsDone(start, txs, turns, hot0, payments, at, from, step, i)
    requires TurnDone(txs, after, hot0, hot, payments, at, from, step, i)
    ensures TurnsDone(start, after, NextTurns(turns, payments, at, from, step, i), hot, payments, at, from, step, i + 1)
  {
    hide HotDue, HotTurns, HotSwept, IsSliceSweep;
    HotTurnsMore(turns, payments, at, from, step, i);
    if HotDue(payments, at, from, step, i) {
      Prefixes(start, txs, after);
      HotSweptMore(txs, after, |start|, turns, payments, at, from, step, i);
    }
  }

  /** The parts of a market scenario: the payments, the sweeps, and the payout if there is a hot output. */
  lemma MarketParts(txs0: seq<Tx>, txs1: seq<Tx>, txs2: seq<Tx>, txs: seq<Tx>, turns: seq<nat>, hot: Option<Utxo>,
                    terms: Terms, payments: seq<Utxo>, ordered: seq<Utxo>, at: map<Utxo, int>, from: int,
                    step: int, i: nat)
    requires Appended(txs0, txs1, 2 * |payments|, 2 * |payments|) && 40 <= |payments| < 121 && i <= 10
    requires AllPay(txs1, |txs0|, terms, payments)
    requires TurnsDone(txs1, txs2, turns, hot, ordered, at, from, step, i)
    requires txs2 <= txs && |txs| == |txs2| + if hot.Some? then 1 else 0
    ensures Appended(txs0, txs, 80, 251) && txs1 <= txs
    ensures AllPay(txs, |txs0|, terms, payments)
    ensures HotTurns(turns, ordered, at, from, step, i) && (hot.None? <==> turns == [])
    ensures |txs| == |txs0| + 2 * |payments| + |turns| + (if hot.Some? then 1 else 0)
    ensures HotSwept(txs, |txs0| + 2 * |payments|, turns, ordered, at, from, step)
  {
    hide AllPay, HotTurns, HotSwept;
    Prefixes(txs1, txs2, txs);
    Prefixes(txs0, txs1, txs);
    AllPayKept(txs1, txs, |txs0|, terms, payments);
    HotSweptKept(txs2, txs, |txs1|, turns, ordered, at, from, step);
  }

  lemma NoTurnsDone(txs: seq<Tx>, payments: seq<Utxo>, at: map<Utxo, int>, from: int, step: int)
    ensures TurnsDone(txs, txs, [], None, payments, at, from, step, 0)
  {}

  lemma HotSweptMore(txs: seq<Tx>, after: seq<Tx>, n: nat, turns: seq<nat>, payments: seq<Utxo>, at: map<Utxo, int>,
                     from: int, step: int, i: nat)
    requires HotSwept(txs, n, turns, payments, at, from, step) && |txs| == n + |turns|
    requires txs <= after && |after| == |txs| + 1
    requires IsSliceSweep(after[|txs|], LeftBefore(txs, n, |turns|), payments, at, from, step, i, 3_500,
                          (5 * MINUTE, 90 * MINUTE))
    ensures HotSwept(after, n, turns + [i], payments, at, from, step)
  {
    hide IsSliceSweep;
    forall k: nat | k < |turns| + 1
      ensures IsSliceSweep(after[n + k], LeftBefore(after, n, k), payments, at, from, step, (turns + [i])[k], 3_500,
                           (5 * MINUTE, 90 * MINUTE))
    {
      assert k < |turns| ==> after[n + k] == txs[n + k];
      assert LeftBefore(after, n, k) == LeftBefore(txs, n, k);
    }
  }

  lemma HotSweptKept(txs: seq<Tx>, after: seq<Tx>, n: nat, turns: seq<nat>, payments: seq<Utxo>, at: map<Utxo, int>,
                     from: int, step: int)
    requires HotSwept(txs, n, turns, payments, at, from, step) && txs <= after
    ensures HotSwept(after, n, turns, payments, at, from, step)
  {
    hide IsSliceSweep;
    forall k: nat | k < |turns|
      ensures IsSliceSweep(after[n + k], LeftBefore(after, n, k), payments, at, from, step, turns[k], 3_500,
                           (5 * MINUTE, 90 * MINUTE))
    {
      assert after[n + k] == txs[n + k];
      assert LeftBefore(after, n, k) == LeftBefore(txs, n, k);
    }
  }

  /** Whether a market sweep has two inputs. */
  lemma HotDueExactly(payments: seq<Utxo>, at: map<Utxo, int>, from: int, step: int, i: nat, received: seq<Utxo>,
                      hot: bool, pool: map<Utxo, int>, batch: seq<Utxo>, rest: seq<Utxo>)
    requires step >= 0 && Held(payments, at, from, step, i, received, hot, pool)
    requires Split(received, pool, Cursor(from, step, i + 1), batch, rest)
    ensures HotDue(payments, at, from, step, i) <==> |batch| + (if hot then 1 else 0) >= 2
    ensures batch == SliceOf(payments, at, from, step, i)
  {
    hide Sparse, InSlice;
    SplitSlices(payments, at, from, step, i, received, hot, pool, batch, rest);
    if batch != [] {
      assert batch[0] in batch;
    }
  }

  // ---- the merchant -------------------------------------------------------------------------

  /** Which of the first `n` weeks are consolidated: those with two payments. */
  ghost predicate WeekTurns(turns: seq<nat>, payments: seq<Utxo>, at: map<Utxo, int>, from: int, step: int, n: nat) {
    Rising(turns) && forall i: nat :: i in turns <==> i < n && !Sparse(payments, at, from, step, i)
  }

  /** From place `n` on, the weekly consolidations, all into one treasury. */
  ghost predicate WeekSwept(txs: seq<Tx>, n: nat, turns: seq<nat>, payments: seq<Utxo>, at: map<Utxo, int>, from: int,
                            step: int, treasury: Address)
  {
    n + |turns| == |txs| && forall k: nat | k < |turns| ::
      && IsSliceSweep(txs[n + k], [], payments, at, from, step, turns[k], 3_000, (DAY / 2, 2 * DAY))
      && txs[n + k].outputs[0].0 == treasury
  }

  lemma WeekTurnsMore(turns: seq<nat>, payments: seq<Utxo>, at: map<Utxo, int>, from: int, step: int, i: nat)
    requires WeekTurns(turns, payments, at, from, step, i)
    ensures WeekTurns(NextWeeks(turns, payments, at, from, step, i), payments, at, from, step, i + 1)
  {
    hide Sparse;
    forall k | 0 <= k < |turns| ensures turns[k] < i { assert turns[k] in turns; }
  }

  lemma WeekSweptMore(txs: seq<Tx>, after: seq<Tx>, n: nat, turns: seq<nat>, payments: seq<Utxo>, at: map<Utxo, int>,
                      from: int, step: int, treasury: Address, i: nat)
    requires WeekSwept(txs, n, turns, payments, at, from, step, treasury)
    requires txs <= after && |after| == |txs| + 1
    requires IsSliceSweep(after[|txs|], [], payments, at, from, step, i, 3_000, (DAY / 2, 2 * DAY))
    requires after[|txs|].outputs[0].0 == treasury
    ensures WeekSwept(after, n, turns + [i], payments, at, from, step, treasury)
  {
    hide SliceOf, Cursor;
    forall k: nat | k < |turns| + 1
      ensures IsSliceSweep(after[n + k], [], payments, at, from, step, (turns + [i])[k], 3_000, (DAY / 2, 2 * DAY))
      ensures after[n + k].outputs[0].0 == treasury
    {
      assert k < |turns| ==> after[n + k] == txs[n + k];
    }
  }

  ghost function NextWeeks(turns: seq<nat>, payments: seq<Utxo>, at: map<Utxo, int>, from: int, step: int, i: nat)
    : seq<nat>
  {
    if Sparse(payments, at, from, step, i) then turns else turns + [i]
  }

  /** The first `i` weeks are done. */
  ghost predicate WeeksDone(start: seq<Tx>, txs: seq<Tx>, turns: seq<nat>, payments: seq<Utxo>, at: map<Utxo, int>,
                            from: int, step: int, treasury: Address, i: nat)
  {
    && start <= txs && |turns| <= i && WeekTurns(turns, payments, at, from, step, i)
    && WeekSwept(txs, |start|, turns, payments, at, from, step, treasury)
  }

  /** What becomes of the batch of one week: it is consolidated if there are two of it. */
  predicate Consolidated(before: seq<Tx>, after: seq<Tx>, batch: seq<Utxo>, cursor: int, treasury: Address) {
    if |batch| < 2 then after == before
    else
      && |after| == |before| + 1
      && var moment := after[|before|].moment;
        && Extends(before, after, moment, batch, [(treasury, SumUtxos(batch) - 3_000)], 3_000)
        && cursor + DAY / 2 <= moment <= cursor + 2 * DAY
  }

  lemma WeekMade(before: seq<Tx>, after: seq<Tx>, treasury: Address, payments: seq<Utxo>, at: map<Utxo, int>,
                 from: int, step: int, i: nat)
    requires |SliceOf(payments, at, from, step, i)| >= 2
    requires Consolidated(before, after, SliceOf(payments, at, from, step, i), Cursor(from, step, i + 1), treasury)
    ensures IsSliceSweep(after[|before|], [], payments, at, from, step, i, 3_000, (DAY / 2, 2 * DAY))
    ensures after[|before|].outputs[0].0 == treasury
  {
    hide Cursor, SliceOf;
  }

  lemma WeeksMore(start: seq<Tx>, txs: seq<Tx>, after: seq<Tx>, turns: seq<nat>, payments: seq<Utxo>,
                  at: map<Utxo, int>, from: int, step: int, treasury: Address, i: nat, received: seq<Utxo>,
                  pool: map<Utxo, int>, batch: seq<Utxo>, rest: seq<Utxo>)
    requires WeeksDone(start, txs, turns, payments, at, from, step, treasury, i)
    requires step >= 0 && HeldByWeek(payments, at, from, step, i, received, pool)
    requires Split(received, pool, Cursor(from, step, i + 1), batch, rest)
    requires Consolidated(txs, after, batch, Cursor(from, step, i + 1), treasury)
    ensures WeeksDone(start, after, NextWeeks(turns, payments, at, from, step, i), payments, at, from, step, treasury,
                      i + 1)
  {
    hide HeldByWeek, WeekTurns, WeekSwept, IsSliceSweep, Sparse, Cursor, InSlice, Split, SliceOf;
    WeekTurnsMore(turns, payments, at, from, step, i);
    WeekDueExactly(payments, at, from, step, i, received, pool, batch, rest);
    if |batch| >= 2 {
      Prefixes(start, txs, after);
      WeekMade(txs, after, treasury, payments, at, from, step, i);
      WeekSweptMore(txs, after, |start|, turns, payments, at, from, step, treasury, i);
    }
  }

  lemma NoWeeksDone(txs: seq<Tx>, payments: seq<Utxo>, at: map<Utxo, int>, from: int, step: int, treasury: Address)
    ensures WeeksDone(txs, txs, [], payments, at, from, step, treasury, 0)
  {}

  lemma WeeksAppended(start: seq<Tx>, txs: seq<Tx>, turns: seq<nat>, payments: seq<Utxo>, at: map<Utxo, int>,
                      from: int, step: int, treasury: Address, i: nat)
    requires WeeksDone(start, txs, turns, payments, at, from, step, treasury, i)
    ensures Appended(start, txs, 0, i) && WeekTurns(turns, payments, at, from, step, i)
    ensures WeekSwept(txs, |start|, turns, payments, at, from, step, treasury)
  {}

  /** Whether a week has two payments. */
  lemma WeekDueExactly(payments: seq<Utxo>, at: map<Utxo, int>, from: int, step: int, i: nat, received: seq<Utxo>,
                       pool: map<Utxo, int>, batch: seq<Utxo>, rest: seq<Utxo>)
    requires step >= 0 && HeldByWeek(payments, at, from, step, i, received, pool)
    requires Split(received, pool, Cursor(from, step, i + 1), batch, rest)
    ensures !Sparse(payments, at, from, step, i) <==> |batch| >= 2
    ensures batch == SliceOf(payments, at, from, step, i)
  {
    SplitRemains(payments, at, pool, from, step, i);
    BatchSparse(payments, at, from, step, i, batch);
  }
}
