/** The daily sweeps of the exchange: `finish_exchange` of generator.py. */
module DailySweeps {
  import opened Wrappers
  import opened Sequences
  import opened Ledger
  import opened InjectedLedger
  import opened InjectionShapes

  function DayOf(moment: int, start: int): int { (moment - start) / DAY }

  /** The day with number `day` after the start. */
  lemma DayOfExactly(moment: int, start: int, day: int)
    ensures DayOf(moment, start) == day <==> start + day * DAY <= moment < start + (day + 1) * DAY
  {}

  predicate IsOnDay(u: Utxo, moments: map<Utxo, int>, start: int, day: int) {
    u in moments && DayOf(moments[u], start) == day
  }

  function MadeOn(moments: map<Utxo, int>, start: int, day: int): Utxo -> bool {
    u => IsOnDay(u, moments, start, day)
  }

  /** The deposits of one day, in the order they came in. */
  function OnDay(utxos: seq<Utxo>, moments: map<Utxo, int>, start: int, day: int): (own: seq<Utxo>)
    ensures forall u :: u in own <==> u in utxos && IsOnDay(u, moments, start, day)
  {
    FilterHolds(utxos, MadeOn(moments, start, day));
    Filter(utxos, MadeOn(moments, start, day))
  }

  /** `byDay` holds the deposits of each day that has any. */
  ghost predicate Grouped(utxos: seq<Utxo>, moments: map<Utxo, int>, start: int, byDay: map<int, seq<Utxo>>) {
    && (forall u | u in utxos :: u in moments && DayOf(moments[u], start) in byDay)
    && (forall d | d in byDay :: byDay[d] != [] && byDay[d] == OnDay(utxos, moments, start, d))
  }

  lemma NoneOnDay(utxos: seq<Utxo>, moments: map<Utxo, int>, start: int, byDay: map<int, seq<Utxo>>, day: int)
    requires Grouped(utxos, moments, start, byDay) && day !in byDay
    ensures OnDay(utxos, moments, start, day) == []
  {
    if OnDay(utxos, moments, start, day) != [] {
      HasMember(OnDay(utxos, moments, start, day));
    }
  }

  lemma OnDayMore(utxos: seq<Utxo>, moments: map<Utxo, int>, start: int, day: int, u: Utxo)
    ensures OnDay(utxos + [u], moments, start, day) ==
      OnDay(utxos, moments, start, day) + if IsOnDay(u, moments, start, day) then [u] else []
  {
    FilterMore(utxos, u, MadeOn(moments, start, day));
  }

  lemma GroupedMore(utxos: seq<Utxo>, moments: map<Utxo, int>, start: int, byDay: map<int, seq<Utxo>>, u: Utxo)
    requires Grouped(utxos, moments, start, byDay) && u in moments
    ensures var day := DayOf(moments[u], start);
      Grouped(utxos + [u], moments, start, byDay[day := (if day in byDay then byDay[day] else []) + [u]])
  {
    hide OnDay;
    var day := DayOf(moments[u], start);
    var after := byDay[day := (if day in byDay then byDay[day] else []) + [u]];
    if day !in byDay {
      NoneOnDay(utxos, moments, start, byDay, day);
    }
    forall d | d in after ensures after[d] != [] && after[d] == OnDay(utxos + [u], moments, start, d) {
      OnDayMore(utxos, moments, start, d, u);
    }
  }

  /** The days of the deposits, ascending. */
  ghost predicate AreDays(days: seq<int>, utxos: seq<Utxo>, moments: map<Utxo, int>, start: int) {
    && (forall i, j | 0 <= i < j < |days| :: days[i] < days[j])
    && (forall d :: d in days <==> exists u :: u in utxos && IsOnDay(u, moments, start, d))
  }

  lemma GroupedDays(utxos: seq<Utxo>, moments: map<Utxo, int>, start: int, byDay: map<int, seq<Utxo>>, days: seq<int>)
    requires Grouped(utxos, moments, start, byDay) && (forall d :: d in days <==> d in byDay)
    requires forall i, j | 0 <= i < j < |days| :: days[i] < days[j]
    ensures AreDays(days, utxos, moments, start)
  {
    forall d ensures d in days <==> exists u :: u in utxos && IsOnDay(u, moments, start, d) {
      if d in days {
        assert byDay[d][0] in OnDay(utxos, moments, start, d);
      }
    }
  }

  /** What is swept together, and what waits in the end: day by day, what waits joins the deposits of the day, and
      they are swept if there are two. */
  function Batches(utxos: seq<Utxo>, moments: map<Utxo, int>, start: int, days: seq<int>)
    : (seq<seq<Utxo>>, seq<Utxo>)
  {
    if days == [] then ([], [])
    else
      var n := |days| - 1;
      var (swept, waiting) := Batches(utxos, moments, start, days[..n]);
      var batch := waiting + OnDay(utxos, moments, start, days[n]);
      if |batch| < 2 then (swept, batch) else (swept + [batch], [])
  }

  // ---- which deposits are swept together ------------------------------------------------------

  function Joined(batches: seq<seq<Utxo>>): seq<Utxo> {
    if batches == [] then [] else Joined(batches[..|batches| - 1]) + batches[|batches| - 1]
  }

  /** The deposits day by day. */
  function DayByDay(utxos: seq<Utxo>, moments: map<Utxo, int>, start: int, days: seq<int>): seq<Utxo> {
    if days == [] then []
    else DayByDay(utxos, moments, start, days[..|days| - 1]) + OnDay(utxos, moments, start, days[|days| - 1])
  }

  /** All of `batch` after its first deposit, and all deposits of their day with them, were made on `day`; the
      first one may be an earlier one that waited. */
  ghost predicate OfDay(batch: seq<Utxo>, utxos: seq<Utxo>, moments: map<Utxo, int>, start: int, day: int) {
    var own := OnDay(utxos, moments, start, day);
    batch == own || (batch != [] && batch[1..] == own && exists d :: d < day && IsOnDay(batch[0], moments, start, d))
  }

  ghost predicate OfSomeDay(batch: seq<Utxo>, utxos: seq<Utxo>, moments: map<Utxo, int>, start: int, days: seq<int>) {
    exists i :: 0 <= i < |days| && OfDay(batch, utxos, moments, start, days[i])
  }

  lemma BatchesNext(utxos: seq<Utxo>, moments: map<Utxo, int>, start: int, days: seq<int>)
    requires days != []
    ensures var (swept, waiting) := Batches(utxos, moments, start, days[..|days| - 1]);
      var batch := waiting + OnDay(utxos, moments, start, days[|days| - 1]);
      Batches(utxos, moments, start, days) == if |batch| < 2 then (swept, batch) else (swept + [batch], [])
  {}

  /** The batches and what waits are all deposits, in the order of their days. */
  lemma {:induction false} BatchesJoin(utxos: seq<Utxo>, moments: map<Utxo, int>, start: int, days: seq<int>)
    ensures Joined(Batches(utxos, moments, start, days).0) + Batches(utxos, moments, start, days).1
         == DayByDay(utxos, moments, start, days)
  {
    hide Batches, OnDay;
    if days == [] {
      NoBatches(utxos, moments, start);
    } else {
      var n := |days| - 1;
      BatchesJoin(utxos, moments, start, days[..n]);
      BatchesNext(utxos, moments, start, days);
      var (swept, waiting) := Batches(utxos, moments, start, days[..n]);
      var own := OnDay(utxos, moments, start, days[n]);
      JoinedMore(swept, waiting + own);
      assert Joined(swept) + (waiting + own) == Joined(swept) + waiting + own;
    }
  }

  lemma NoBatches(utxos: seq<Utxo>, moments: map<Utxo, int>, start: int)
    ensures Batches(utxos, moments, start, []) == ([], [])
  {}

  lemma JoinedMore(batches: seq<seq<Utxo>>, batch: seq<Utxo>)
    ensures Joined(batches + [batch]) == Joined(batches) + batch
    ensures Joined(batches + [batch]) + [] == Joined(batches) + batch
  {
    assert (batches + [batch])[..|batches|] == batches;
  }

  /** What waits is one deposit of one of the days. */
  ghost predicate OneWaits(waiting: seq<Utxo>, moments: map<Utxo, int>, start: int, days: seq<int>) {
    |waiting| <= 1 && (waiting != [] ==> exists i :: 0 <= i < |days| && IsOnDay(waiting[0], moments, start, days[i]))
  }

  ghost predicate AllOfDays(batches: seq<seq<Utxo>>, utxos: seq<Utxo>, moments: map<Utxo, int>, start: int,
                            days: seq<int>)
  {
    forall k | 0 <= k < |batches| :: |batches[k]| >= 2 && OfSomeDay(batches[k], utxos, moments, start, days)
  }

  /** A batch has at least two deposits, all those of one day but for one that waited; at most one waits in the
      end. */
  lemma {:induction false} BatchesByDay(utxos: seq<Utxo>, moments: map<Utxo, int>, start: int, days: seq<int>)
    requires forall i, j | 0 <= i < j < |days| :: days[i] < days[j]
    ensures AllOfDays(Batches(utxos, moments, start, days).0, utxos, moments, start, days)
    ensures OneWaits(Batches(utxos, moments, start, days).1, moments, start, days)
  {
    hide Batches, OnDay, OfSomeDay, OneWaits;
    if days == [] {
      NoBatches(utxos, moments, start);
      NoneWaits(moments, start, days);
    } else {
      var n := |days| - 1;
      BatchesByDay(utxos, moments, start, days[..n]);
      BatchesNext(utxos, moments, start, days);
      var (swept, waiting) := Batches(utxos, moments, start, days[..n]);
      var batch := waiting + OnDay(utxos, moments, start, days[n]);
      forall k | 0 <= k < |swept| ensures OfSomeDay(swept[k], utxos, moments, start, days) {
        SomeDayMore(swept[k], utxos, moments, start, days);
      }
      if |batch| < 2 {
        StillWaits(batch, waiting, utxos, moments, start, days);
      } else {
        BatchOfDay(batch, waiting, utxos, moments, start, days);
        NoneWaits(moments, start, days);
      }
    }
  }

  lemma NoneWaits(moments: map<Utxo, int>, start: int, days: seq<int>)
    ensures OneWaits([], moments, start, days)
  {}

  lemma StillWaits(batch: seq<Utxo>, waiting: seq<Utxo>, utxos: seq<Utxo>, moments: map<Utxo, int>, start: int,
                   days: seq<int>)
    requires days != [] && OneWaits(waiting, moments, start, days[..|days| - 1]) && |batch| < 2
    requires batch == waiting + OnDay(utxos, moments, start, days[|days| - 1])
    ensures OneWaits(batch, moments, start, days)
  {
    hide IsOnDay;
    var n := |days| - 1;
    if waiting != [] {
      var i :| 0 <= i < n && IsOnDay(waiting[0], moments, start, days[..n][i]);
      assert batch[0] == waiting[0] && IsOnDay(batch[0], moments, start, days[i]);
    } else if batch != [] {
      assert batch[0] in OnDay(utxos, moments, start, days[n]);
      assert IsOnDay(batch[0], moments, start, days[n]);
    }
  }

  lemma SomeDayMore(batch: seq<Utxo>, utxos: seq<Utxo>, moments: map<Utxo, int>, start: int, days: seq<int>)
    requires days != [] && OfSomeDay(batch, utxos, moments, start, days[..|days| - 1])
    ensures OfSomeDay(batch, utxos, moments, start, days)
  {
    var i :| 0 <= i < |days| - 1 && OfDay(batch, utxos, moments, start, days[..|days| - 1][i]);
    assert OfDay(batch, utxos, moments, start, days[i]);
  }

  lemma BatchOfDay(batch: seq<Utxo>, waiting: seq<Utxo>, utxos: seq<Utxo>, moments: map<Utxo, int>, start: int,
                   days: seq<int>)
    requires days != [] && OneWaits(waiting, moments, start, days[..|days| - 1])
    requires forall i, j | 0 <= i < j < |days| :: days[i] < days[j]
    requires batch == waiting + OnDay(utxos, moments, start, days[|days| - 1])
    ensures OfSomeDay(batch, utxos, moments, start, days)
  {
    hide IsOnDay, OnDay;
    var n := |days| - 1;
    if waiting != [] {
      var i :| 0 <= i < n && IsOnDay(waiting[0], moments, start, days[..n][i]);
      assert days[i] < days[n] && IsOnDay(waiting[0], moments, start, days[i]);
      assert batch[0] == waiting[0] && batch[1..] == OnDay(utxos, moments, start, days[n]);
    } else {
      assert batch == OnDay(utxos, moments, start, days[n]);
    }
    assert OfDay(batch, utxos, moments, start, days[n]);
  }

  // ---- the transactions -----------------------------------------------------------------------

  ghost predicate IsLatest(u: Utxo, batch: seq<Utxo>, moments: map<Utxo, int>)
    requires u in moments
  {
    forall w | w in batch && w in moments :: moments[w] <= moments[u]
  }

  /** `moment` is a whole number of minutes, from 5 to less than 180, after the latest deposit of the batch. */
  ghost predicate SoonAfter(moment: int, batch: seq<Utxo>, moments: map<Utxo, int>) {
    && (forall u | u in batch :: u in moments && moments[u] + 5 * MINUTE <= moment)
    && exists u :: u in batch && u in moments && IsLatest(u, batch, moments) &&
                   moment < moments[u] + 180 * MINUTE && (moment - moments[u]) % MINUTE == 0
  }

  /** The sweep of a batch: all of it, less the fee, into the hot wallet. */
  ghost predicate IsDaySweep(tx: Tx, batch: seq<Utxo>, moments: map<Utxo, int>, hot: Address) {
    && tx.inputs == batch && tx.outputs == [(hot, SumUtxos(batch) - 3_000)] && tx.fee == 3_000
    && SoonAfter(tx.moment, batch, moments)
  }

  /** From place `n` on, the transactions are the sweeps of the batches, in order. */
  ghost predicate AreSweeps(txs: seq<Tx>, n: nat, batches: seq<seq<Utxo>>, moments: map<Utxo, int>, hot: Address) {
    |txs| == n + |batches| && forall k | 0 <= k < |batches| :: IsDaySweep(txs[n + k], batches[k], moments, hot)
  }

  lemma SweepsMore(txs: seq<Tx>, after: seq<Tx>, n: nat, batches: seq<seq<Utxo>>, batch: seq<Utxo>,
                   moments: map<Utxo, int>, hot: Address)
    requires AreSweeps(txs, n, batches, moments, hot) && txs <= after && |after| == |txs| + 1
    requires IsDaySweep(after[|txs|], batch, moments, hot)
    ensures AreSweeps(after, n, batches + [batch], moments, hot)
  {
    hide IsDaySweep;
    var more := batches + [batch];
    forall k | 0 <= k < |more| ensures IsDaySweep(after[n + k], more[k], moments, hot) {
      assert k < |batches| ==> after[n + k] == txs[n + k];
    }
  }

  /** Whatever came to the exchange has been swept, day by day, from place `n` on. */
  ghost predicate DailySwept(txs: seq<Tx>, n: nat, exchange: seq<Utxo>, moments: map<Utxo, int>, start: int,
                             days: seq<int>, hot: Address, pool: map<Utxo, int>)
  {
    && MadeAt(txs, exchange, moments) && AreDays(days, exchange, moments, start)
    && AreSweeps(txs, n, Batches(exchange, moments, start, days).0, moments, hot)
    && forall u | u in exchange :: u in pool <==> u in Batches(exchange, moments, start, days).1
  }

  /** At most one deposit is left. */
  lemma OneLeft(txs: seq<Tx>, n: nat, exchange: seq<Utxo>, moments: map<Utxo, int>, start: int, days: seq<int>,
                hot: Address, pool: map<Utxo, int>)
    requires DailySwept(txs, n, exchange, moments, start, days, hot, pool)
    ensures forall u, w | u in exchange && w in exchange && u in pool && w in pool :: u == w
  {
    hide AreSweeps, MadeAt, Batches, AllOfDays;
    BatchesByDay(exchange, moments, start, days);
  }

  // ---- the loop -------------------------------------------------------------------------------

  /** A deposit is unspent iff it waits or its day is still to come; at most one waits. */
  ghost predicate Sweeping(utxos: seq<Utxo>, moments: map<Utxo, int>, start: int, todo: seq<int>,
                           waiting: seq<Utxo>, pool: map<Utxo, int>) {
    && |waiting| <= 1
    && (forall i, j | 0 <= i < j < |todo| :: todo[i] < todo[j])
    && (forall u | u in waiting :: u in utxos && u in moments && DayOf(moments[u], start) !in todo)
    && (forall u | u in utxos :: u in moments && (u in pool <==> u in waiting || DayOf(moments[u], start) in todo))
    && (forall u | u in utxos && u in pool && u in moments :: pool[u] == moments[u])
  }

  lemma DayBatch(utxos: seq<Utxo>, moments: map<Utxo, int>, start: int, byDay: map<int, seq<Utxo>>, todo: seq<int>,
                 waiting: seq<Utxo>, pool: map<Utxo, int>)
    requires Grouped(utxos, moments, start, byDay) && Sweeping(utxos, moments, start, todo, waiting, pool)
    requires todo != [] && todo[0] in byDay && NoRepeats(utxos)
    ensures var batch := waiting + byDay[todo[0]];
      && AllIn(batch, pool) && (forall u | u in batch :: u in utxos && u in moments && pool[u] == moments[u])
      && (|batch| < 2 ==> Sweeping(utxos, moments, start, todo[1..], batch, pool))
  {
    var day := todo[0];
    FilterDistinct(utxos, MadeOn(moments, start, day));
    assert forall u | u in byDay[day] :: u !in waiting;
    NoRepeatsJoin(waiting, byDay[day]);
    var batch := waiting + byDay[day];
    assert todo == [day] + todo[1..];
    assert day !in todo[1..];
    forall u | u in batch ensures u in pool && u in utxos && u in moments && DayOf(moments[u], start) !in todo[1..] {
      assert u in waiting || u in byDay[day];
    }
  }

  /** After a day's sweep exactly the deposits of later days are unspent. */
  lemma DaySwept(utxos: seq<Utxo>, moments: map<Utxo, int>, start: int, byDay: map<int, seq<Utxo>>, todo: seq<int>,
                 waiting: seq<Utxo>, pool0: map<Utxo, int>, ever0: set<Utxo>, pool: map<Utxo, int>)
    requires Grouped(utxos, moments, start, byDay) && Sweeping(utxos, moments, start, todo, waiting, pool0)
    requires todo != [] && todo[0] in byDay && moments.Keys <= ever0
    requires var batch := waiting + byDay[todo[0]]; Keeps(pool0, pool, ever0, batch) && NoneIn(batch, pool)
    ensures Sweeping(utxos, moments, start, todo[1..], [], pool)
  {
    var day := todo[0];
    var batch := waiting + byDay[day];
    assert todo == [day] + todo[1..];
    forall u | u in utxos
      ensures u in pool <==> DayOf(moments[u], start) in todo[1..]
      ensures u in pool ==> pool[u] == moments[u]
    {
      assert u in batch <==> u in waiting || DayOf(moments[u], start) == day;
      var own := DayOf(moments[u], start);
      assert own in todo <==> own == day || own in todo[1..];
      assert day !in todo[1..];
    }
  }

  /** The first `i` days are done: their batches are swept, and `waiting` is left of them. */
  ghost predicate DaysDone(txs0: seq<Tx>, txs: seq<Tx>, utxos: seq<Utxo>, moments: map<Utxo, int>, start: int,
                           byDay: map<int, seq<Utxo>>, days: seq<int>, i: nat, waiting: seq<Utxo>,
                           pool: map<Utxo, int>, hot: Address)
  {
    && txs0 <= txs && i <= |days| && Grouped(utxos, moments, start, byDay) && (forall d :: d in days <==> d in byDay)
    && Sweeping(utxos, moments, start, days[i..], waiting, pool)
    && Batches(utxos, moments, start, days[..i]).1 == waiting
    && AreSweeps(txs, |txs0|, Batches(utxos, moments, start, days[..i]).0, moments, hot)
  }

  lemma NoDayDone(txs: seq<Tx>, utxos: seq<Utxo>, pool: map<Utxo, int>, start: int, byDay: map<int, seq<Utxo>>,
                  days: seq<int>, hot: Address)
    requires AllIn(utxos, pool) && Grouped(utxos, pool, start, byDay) && (forall d :: d in days <==> d in byDay)
    requires forall i, j | 0 <= i < j < |days| :: days[i] < days[j]
    ensures DaysDone(txs, txs, utxos, pool, start, byDay, days, 0, [], pool, hot)
    ensures AreDays(days, utxos, pool, start)
  {
    assert days[0..] == days;
    GroupedDays(utxos, pool, start, byDay, days);
  }

  lemma NextDay(utxos: seq<Utxo>, moments: map<Utxo, int>, start: int, byDay: map<int, seq<Utxo>>, days: seq<int>,
                i: nat)
    requires Grouped(utxos, moments, start, byDay) && i < |days| && days[i] in byDay
    ensures var (swept, waiting) := Batches(utxos, moments, start, days[..i]);
      var batch := waiting + byDay[days[i]];
      Batches(utxos, moments, start, days[..i + 1]) == if |batch| < 2 then (swept, batch) else (swept + [batch], [])
  {
    hide Batches;
    assert days[..i + 1][..i] == days[..i] && days[..i + 1][i] == days[i];
    BatchesNext(utxos, moments, start, days[..i + 1]);
  }

  lemma DayWaits(txs0: seq<Tx>, txs: seq<Tx>, utxos: seq<Utxo>, moments: map<Utxo, int>, start: int,
                 byDay: map<int, seq<Utxo>>, days: seq<int>, i: nat, waiting: seq<Utxo>, pool: map<Utxo, int>,
                 hot: Address)
    requires DaysDone(txs0, txs, utxos, moments, start, byDay, days, i, waiting, pool, hot)
    requires i < |days| && NoRepeats(utxos)
    ensures days[i] in byDay
    ensures var batch := waiting + byDay[days[i]];
      && AllIn(batch, pool) && (forall u | u in batch :: u in utxos && u in moments && pool[u] == moments[u])
      && (|batch| < 2 ==> DaysDone(txs0, txs, utxos, moments, start, byDay, days, i + 1, batch, pool, hot))
  {
    hide Sweeping, Batches, AreSweeps, Grouped;
    assert days[i] in days && days[i..][1..] == days[i + 1..] && days[i..][0] == days[i];
    NextDay(utxos, moments, start, byDay, days, i);
    DayBatch(utxos, moments, start, byDay, days[i..], waiting, pool);
  }

  lemma DayDone(txs0: seq<Tx>, txs: seq<Tx>, after: seq<Tx>, utxos: seq<Utxo>, moments: map<Utxo, int>, start: int,
                byDay: map<int, seq<Utxo>>, days: seq<int>, i: nat, waiting: seq<Utxo>, pool0: map<Utxo, int>,
                ever0: set<Utxo>, pool: map<Utxo, int>, hot: Address)
    requires DaysDone(txs0, txs, utxos, moments, start, byDay, days, i, waiting, pool0, hot)
    requires i < |days| && days[i] in byDay && moments.Keys <= ever0 && txs <= after && |after| == |txs| + 1
    requires var batch := waiting + byDay[days[i]];
      && |batch| >= 2 && IsDaySweep(after[|txs|], batch, moments, hot)
      && Keeps(pool0, pool, ever0, batch) && NoneIn(batch, pool)
    ensures DaysDone(txs0, after, utxos, moments, start, byDay, days, i + 1, [], pool, hot)
  {
    hide Sweeping, Batches, AreSweeps, Grouped, IsDaySweep, Keeps;
    assert days[i..][1..] == days[i + 1..] && days[i..][0] == days[i];
    Prefixes(txs0, txs, after);
    NextDay(utxos, moments, start, byDay, days, i);
    DaySwept(utxos, moments, start, byDay, days[i..], waiting, pool0, ever0, pool);
    SweepsMore(txs, after, |txs0|, Batches(utxos, moments, start, days[..i]).0, waiting + byDay[days[i]], moments, hot);
  }

  lemma AllDaysDone(txs0: seq<Tx>, txs: seq<Tx>, utxos: seq<Utxo>, moments: map<Utxo, int>, start: int,
                    byDay: map<int, seq<Utxo>>, days: seq<int>, waiting: seq<Utxo>, pool: map<Utxo, int>, hot: Address)
    requires DaysDone(txs0, txs, utxos, moments, start, byDay, days, |days|, waiting, pool, hot)
    requires AreDays(days, utxos, moments, start) && PoolOf(txs0, moments) && AllIn(utxos, moments)
    ensures txs0 <= txs && DailySwept(txs, |txs0|, utxos, moments, start, days, hot, pool)
  {
    hide Batches, AreSweeps, AreDays, PoolOf, Grouped;
    assert days[..|days|] == days;
    PoolMadeAt(txs0, moments, utxos, txs);
  }

  lemma SweepSoonAfter(tx: Tx, batch: seq<Utxo>, pool: map<Utxo, int>, moments: map<Utxo, int>, latest: int,
                       minutes: int, hot: Address)
    requires (forall u | u in batch :: u in pool && u in moments && pool[u] == moments[u] && pool[u] <= latest)
    requires (exists u :: u in batch && pool[u] == latest) && 5 <= minutes < 180
    requires tx.moment == latest + minutes * MINUTE
    requires tx.inputs == batch && tx.outputs == [(hot, SumUtxos(batch) - 3_000)] && tx.fee == 3_000
    ensures IsDaySweep(tx, batch, moments, hot)
  {
    var u :| u in batch && pool[u] == latest;
    assert IsLatest(u, batch, moments) && (tx.moment - moments[u]) % MINUTE == 0;
  }

  // ---- the days in order ---------------------------------------------------------------------

  lemma SomeDay(days: set<int>)
    requires days != {}
    ensures exists day :: day in days
  {
    assert (forall day :: day !in days) ==> days == {};
  }

  lemma {:induction false} LeastDay(days: set<int>) returns (least: int)
    requires exists day :: day in days
    ensures least in days && forall d | d in days :: least <= d
  {
    var day :| day in days;
    if d :| d in days && d < day {
      assert d in days - {day};
      var other := LeastDay(days - {day});
      least := if day < other then day else other;
      assert forall e | e in days :: e == day || e in days - {day};
    } else {
      least := day;
    }
  }

  /** `sorted(by_day)`. */
  method SortedDays(days: set<int>) returns (sorted: seq<int>)
    ensures forall d :: d in sorted <==> d in days
    ensures forall i, j | 0 <= i < j < |sorted| :: sorted[i] < sorted[j]
  {
    var rest := days;
    sorted := [];
    while rest != {}
      invariant forall d :: d in days <==> d in rest || d in sorted
      invariant forall d, e | d in sorted && e in rest :: d < e
      invariant forall i, j | 0 <= i < j < |sorted| :: sorted[i] < sorted[j]
      decreases |rest|
    {
      SomeDay(rest);
      ghost var least := LeastDay(rest);
      var day: int :| day in rest && forall d | d in rest :: day <= d;
      assert forall i | 0 <= i < |sorted| :: sorted[i] in sorted;
      sorted, rest := sorted + [day], rest - {day};
    }
  }
}
