/** Features from strictly earlier transactions: `time_groups` and `causal_history` of
    scripts/ml_controlled_study.py. */
module Causal {
  import opened Wrappers
  import opened Sequences
  import opened Ranks

  /** A transaction with its outputs as (address, value); a negative address is unknown. */
  datatype Tx = Tx(time: int, outs: seq<(int, int)>)

  // ---- history, declaratively ----------------------------------------------------------

  /** What is known of an address: how many transactions paid it, how much, and when last. */
  datatype Entry = Entry(count: nat, total: int, last: Option<int>)

  const NOTHING := Entry(0, 0, None)

  function ValueAt(outs: seq<(int, int)>, a: int): int {
    if outs == [] then 0
    else ValueAt(outs[..|outs| - 1], a) + if outs[|outs| - 1].0 == a then outs[|outs| - 1].1 else 0
  }

  predicate Pays(tx: Tx, a: int) { exists k :: 0 <= k < |tx.outs| && tx.outs[k].0 == a }

  function Later(last: Option<int>, time: int): int {
    if last.Some? && last.value > time then last.value else time
  }

  /** `e` after one more transaction. */
  function Update(e: Entry, tx: Tx, a: int): Entry {
    if Pays(tx, a) then Entry(e.count + 1, e.total + ValueAt(tx.outs, a), Some(Later(e.last, tx.time))) else e
  }

  /** Of all `txs`. */
  function Total(txs: seq<Tx>, a: int): Entry {
    if txs == [] then NOTHING else Update(Total(txs[..|txs| - 1], a), txs[|txs| - 1], a)
  }

  /** The transactions strictly before `time`. */
  function Earlier(txs: seq<Tx>, time: int): seq<Tx> {
    if txs == [] then []
    else
      var last := txs[|txs| - 1];
      Earlier(txs[..|txs| - 1], time) + if last.time < time then [last] else []
  }

  /** What the transactions strictly before `time` say of `a`. */
  function History(txs: seq<Tx>, a: int, time: int): Entry { Total(Earlier(txs, time), a) }

  // ---- the row of a transaction ------------------------------------------------------------

  /** The arguments of the logarithms, and the share of addresses seen before. */
  datatype Row = Row(activity: int, value: int, gap: int, reuse: real)

  const BLANK := Row(0, 0, 0, 0.0)

  /** The known addresses of a transaction, each once; no feature depends on their order. */
  function Addresses(outs: seq<(int, int)>): (addresses: seq<int>)
    ensures forall i, j | 0 <= i < j < |addresses| :: addresses[i] != addresses[j]
    ensures forall a :: a in addresses <==> a >= 0 && exists k :: 0 <= k < |outs| && outs[k].0 == a
  {
    if outs == [] then []
    else
      var front, a := Addresses(outs[..|outs| - 1]), outs[|outs| - 1].0;
      assert forall k | 0 <= k < |outs| - 1 :: outs[..|outs| - 1][k] == outs[k];
      if a < 0 || a in front then front else front + [a]
  }

  function Counts(prior: seq<Entry>): seq<int> { seq(|prior|, i requires 0 <= i < |prior| => prior[i].count) }

  function Totals(prior: seq<Entry>): seq<int> { seq(|prior|, i requires 0 <= i < |prior| => prior[i].total) }

  /** The largest gap since a last payment, 0 without one. */
  function WidestGap(prior: seq<Entry>, time: int): int {
    if prior == [] then 0
    else
      var rest, e := WidestGap(prior[..|prior| - 1], time), prior[|prior| - 1];
      if e.last.Some? && (time - e.last.value > rest || !AnyLast(prior[..|prior| - 1])) then time - e.last.value
      else rest
  }

  predicate AnyLast(prior: seq<Entry>) { exists i :: 0 <= i < |prior| && prior[i].last.Some? }

  function Reused(prior: seq<Entry>): nat {
    if prior == [] then 0 else Reused(prior[..|prior| - 1]) + if prior[|prior| - 1].count > 0 then 1 else 0
  }

  function Features(prior: seq<Entry>, time: int): Row {
    if prior == [] then BLANK
    else Row(Sequences.Sum(Counts(prior)), Sequences.Sum(Totals(prior)), WidestGap(prior, time),
             Reused(prior) as real / |prior| as real)
  }

  function Priors(txs: seq<Tx>, addresses: seq<int>, time: int): seq<Entry> {
    seq(|addresses|, i requires 0 <= i < |addresses| => History(txs, addresses[i], time))
  }

  /** Row `i`, from strictly earlier transactions only. */
  function RowAt(txs: seq<Tx>, i: nat): Row
    requires i < |txs|
  {
    Features(Priors(txs, Addresses(txs[i].outs), txs[i].time), txs[i].time)
  }

  // ---- what a row means --------------------------------------------------------------------

  /** Which transactions strictly before `time` pay `a`. */
  ghost function PaidBefore(txs: seq<Tx>, a: int, time: int): set<nat> {
    set k: nat | k < |txs| && txs[k].time < time && Pays(txs[k], a)
  }

  /** What each output pays to `a`. */
  function Shares(outs: seq<(int, int)>, a: int): seq<int> {
    seq(|outs|, k requires 0 <= k < |outs| => if outs[k].0 == a then outs[k].1 else 0)
  }

  /** What each transaction strictly before `time` pays to `a`. */
  function Received(txs: seq<Tx>, a: int, time: int): seq<int> {
    seq(|txs|, k requires 0 <= k < |txs| =>
      if txs[k].time < time then Sequences.Sum(Shares(txs[k].outs, a)) else 0)
  }

  lemma {:induction false} ValueIsSum(outs: seq<(int, int)>, a: int)
    ensures ValueAt(outs, a) == Sequences.Sum(Shares(outs, a))
  {
    if outs != [] {
      ValueIsSum(outs[..|outs| - 1], a);
      assert Shares(outs, a)[..|outs| - 1] == Shares(outs[..|outs| - 1], a);
    }
  }

  lemma {:induction false} NoPayNoValue(tx: Tx, a: int)
    ensures !Pays(tx, a) ==> ValueAt(tx.outs, a) == 0
    decreases |tx.outs|
  {
    if tx.outs != [] && !Pays(tx, a) {
      var front := tx.(outs := tx.outs[..|tx.outs| - 1]);
      assert forall k | 0 <= k < |front.outs| :: front.outs[k] == tx.outs[k];
      NoPayNoValue(front, a);
    }
  }

  lemma PaidMore(txs: seq<Tx>, a: int, time: int)
    requires txs != []
    ensures |txs| - 1 !in PaidBefore(txs[..|txs| - 1], a, time)
    ensures var n := |txs| - 1;
      PaidBefore(txs, a, time) ==
      PaidBefore(txs[..n], a, time) + (if txs[n].time < time && Pays(txs[n], a) then {n} else {})
  {
    var n := |txs| - 1;
    assert forall k | 0 <= k < n :: txs[..n][k] == txs[k];
  }

  /** The latest of the payments, None without one. */
  ghost predicate LatestPaid(txs: seq<Tx>, paid: set<nat>, last: Option<int>) {
    && (last.None? <==> paid == {})
    && (forall k | k in paid && k < |txs| :: last.Some? && txs[k].time <= last.value)
    && (last.Some? ==> exists k :: k in paid && k < |txs| && txs[k].time == last.value)
  }

  lemma LatestMore(txs: seq<Tx>, tx: Tx, paid: set<nat>, last: Option<int>)
    requires LatestPaid(txs, paid, last) && forall k | k in paid :: k < |txs|
    ensures LatestPaid(txs + [tx], paid, last)
    ensures LatestPaid(txs + [tx], paid + {|txs|}, Some(Later(last, tx.time)))
  {
    var more, n := txs + [tx], |txs|;
    assert forall k | 0 <= k < n :: more[k] == txs[k];
    assert more[n] == tx && n in paid + {n};
    if last.Some? {
      var k :| k in paid && k < n && txs[k].time == last.value;
      assert more[k].time == last.value && k in paid + {n};
    }
  }

  lemma {:induction false} HistoryTotal(txs: seq<Tx>, a: int, time: int)
    ensures History(txs, a, time).total == Sequences.Sum(Received(txs, a, time))
  {
    hide History, Pays;
    if txs == [] {
      NothingPaid(a, time);
    } else {
      var n := |txs| - 1;
      var tx := txs[n];
      HistoryTotal(txs[..n], a, time);
      HistoryMore(txs[..n], tx, a, time);
      assert txs == txs[..n] + [tx];
      assert Received(txs, a, time)[..n] == Received(txs[..n], a, time);
      ValueIsSum(tx.outs, a);
      NoPayNoValue(tx, a);
    }
  }

  /** A history counts the strictly earlier transactions that pay the address, adds up what they pay, and holds
      the latest of their times. */
  lemma {:induction false} HistoryMeans(txs: seq<Tx>, a: int, time: int)
    ensures History(txs, a, time).count == |PaidBefore(txs, a, time)|
    ensures History(txs, a, time).total == Sequences.Sum(Received(txs, a, time))
    ensures LatestPaid(txs, PaidBefore(txs, a, time), History(txs, a, time).last)
  {
    hide PaidBefore, LatestPaid, History, Pays, Received;
    HistoryTotal(txs, a, time);
    if txs == [] {
      NothingPaid(a, time);
    } else {
      var n := |txs| - 1;
      HistoryMeans(txs[..n], a, time);
      PaidMore(txs, a, time);
      PaidInRange(txs[..n], a, time);
      LatestMore(txs[..n], txs[n], PaidBefore(txs[..n], a, time), History(txs[..n], a, time).last);
      assert txs == txs[..n] + [txs[n]];
      HistoryMore(txs[..n], txs[n], a, time);
    }
  }

  lemma NothingPaid(a: int, time: int)
    ensures PaidBefore([], a, time) == {} && LatestPaid([], {}, None) && History([], a, time) == NOTHING
  {}

  lemma PaidInRange(txs: seq<Tx>, a: int, time: int)
    ensures forall k | k in PaidBefore(txs, a, time) :: k < |txs|
  {}

  lemma HistoryMore(front: seq<Tx>, tx: Tx, a: int, time: int)
    ensures History(front + [tx], a, time) ==
      if tx.time < time then Update(History(front, a, time), tx, a) else History(front, a, time)
  {
    assert (front + [tx])[..|front|] == front;
    var before := Earlier(front, time);
    assert (before + [tx])[..|before|] == before;
    assert before + [] == before;
  }

  /** The largest gap since a last payment. */
  ghost predicate IsWidest(prior: seq<Entry>, time: int, gap: int) {
    if AnyLast(prior) then
      && (exists k :: 0 <= k < |prior| && prior[k].last.Some? && gap == time - prior[k].last.value)
      && (forall k | 0 <= k < |prior| && prior[k].last.Some? :: time - prior[k].last.value <= gap)
    else gap == 0
  }

  lemma {:induction false} WidestIs(prior: seq<Entry>, time: int)
    ensures IsWidest(prior, time, WidestGap(prior, time))
  {
    if prior != [] {
      var n := |prior| - 1;
      WidestIs(prior[..n], time);
      assert forall k | 0 <= k < n :: prior[..n][k] == prior[k];
      if k :| 0 <= k < n && prior[..n][k].last.Some? && WidestGap(prior[..n], time) == time - prior[..n][k].last.value {
        assert prior[k].last.Some?;
      }
      assert prior[n].last.Some? ==> AnyLast(prior);
    }
  }

  lemma {:induction false} ReusedIs(prior: seq<Entry>)
    ensures Reused(prior) == |set k | 0 <= k < |prior| && prior[k].count > 0|
  {
    if prior != [] {
      var n := |prior| - 1;
      ReusedIs(prior[..n]);
      var less := set k | 0 <= k < n && prior[..n][k].count > 0;
      assert (set k | 0 <= k < |prior| && prior[k].count > 0) == less + if prior[n].count > 0 then {n} else {};
    }
  }

  /** Activity and value add up the histories of the known addresses of the transaction. */
  lemma RowSums(txs: seq<Tx>, i: nat)
    requires i < |txs|
    ensures var row, known, time := RowAt(txs, i), Addresses(txs[i].outs), txs[i].time;
      && row.activity == Sequences.Sum(seq(|known|, k requires 0 <= k < |known| => History(txs, known[k], time).count))
      && row.value == Sequences.Sum(seq(|known|, k requires 0 <= k < |known| => History(txs, known[k], time).total))
  {
    hide History, WidestGap, Reused, Addresses;
    var known, time := Addresses(txs[i].outs), txs[i].time;
    var prior := Priors(txs, known, time);
    assert Counts(prior) == seq(|known|, k requires 0 <= k < |known| => History(txs, known[k], time).count);
    assert Totals(prior) == seq(|known|, k requires 0 <= k < |known| => History(txs, known[k], time).total);
  }

  /** The gap is the largest one since a last payment, 0 without one. */
  lemma RowGap(txs: seq<Tx>, i: nat)
    requires i < |txs|
    ensures var known, time := Addresses(txs[i].outs), txs[i].time;
      IsWidest(seq(|known|, k requires 0 <= k < |known| => History(txs, known[k], time)), time, RowAt(txs, i).gap)
  {
    hide History, WidestGap, Reused, Addresses, IsWidest;
    WidestIs(Priors(txs, Addresses(txs[i].outs), txs[i].time), txs[i].time);
    NoneWidest(txs[i].time);
  }

  /** The last feature is the share of the known addresses that were paid before; 0 without a known address. */
  lemma RowShare(txs: seq<Tx>, i: nat)
    requires i < |txs|
    ensures var row, known, time := RowAt(txs, i), Addresses(txs[i].outs), txs[i].time;
      if known == [] then row.reuse == 0.0
      else row.reuse == |set k | 0 <= k < |known| && PaidBefore(txs, known[k], time) != {}| as real / |known| as real
  {
    hide History, WidestGap, Reused, Addresses, PaidBefore;
    var known, time := Addresses(txs[i].outs), txs[i].time;
    var prior := Priors(txs, known, time);
    ReusedIs(prior);
    forall k | 0 <= k < |known| ensures prior[k].count > 0 <==> PaidBefore(txs, known[k], time) != {} {
      HistoryMeans(txs, known[k], time);
    }
    assert (set k | 0 <= k < |prior| && prior[k].count > 0) ==
           set k | 0 <= k < |known| && PaidBefore(txs, known[k], time) != {};
  }

  lemma NoneWidest(time: int)
    ensures IsWidest([], time, 0) && WidestGap([], time) == 0 && Reused([]) == 0
  {}

  // ---- causality ---------------------------------------------------------------------------

  lemma UpdatesCommute(e: Entry, x: Tx, y: Tx, a: int)
    ensures Update(Update(e, x, a), y, a) == Update(Update(e, y, a), x, a)
  {}

  lemma {:induction false} TotalWithout(txs: seq<Tx>, k: nat, a: int)
    requires k < |txs|
    ensures Total(txs, a) == Update(Total(Without(txs, k), a), txs[k], a)
  {
    var n := |txs| - 1;
    if k < n {
      TotalWithout(txs[..n], k, a);
      WithoutFront(txs, k);
      UpdatesCommute(Total(Without(txs[..n], k), a), txs[k], txs[n], a);
    } else {
      WithoutEnd(txs);
    }
  }

  /** A history does not depend on the order. */
  lemma {:induction false} TotalOfSame(s: seq<Tx>, t: seq<Tx>, a: int)
    requires multiset(s) == multiset(t)
    ensures Total(s, a) == Total(t, a)
  {
    SameLength(s, t);
    if s != [] {
      var k := PairLast(s, t);
      TotalOfSame(s[..|s| - 1], Without(t, k), a);
      TotalWithout(t, k, a);
    }
  }

  /** A row depends on its own transaction and on the strictly earlier ones, in any order: deleting, adding or
      altering transactions at the same or a later time, or permuting peers, leaves it as it was. */
  lemma RowIsCausal(txs: seq<Tx>, i: nat, others: seq<Tx>, j: nat)
    requires i < |txs| && j < |others| && txs[i] == others[j]
    requires multiset(Earlier(txs, txs[i].time)) == multiset(Earlier(others, txs[i].time))
    ensures RowAt(txs, i) == RowAt(others, j)
  {
    var time, addresses := txs[i].time, Addresses(txs[i].outs);
    forall k | 0 <= k < |addresses| ensures History(txs, addresses[k], time) == History(others, addresses[k], time) {
      TotalOfSame(Earlier(txs, time), Earlier(others, time), addresses[k]);
    }
    assert Priors(txs, addresses, time) == Priors(others, addresses, time);
  }

  lemma {:induction false} EarlierJoin(s: seq<Tx>, t: seq<Tx>, time: int)
    ensures Earlier(s + t, time) == Earlier(s, time) + Earlier(t, time)
  {
    if t == [] {
      assert s + t == s;
    } else {
      EarlierJoin(s, t[..|t| - 1], time);
      assert (s + t)[..|s + t| - 1] == s + t[..|t| - 1];
    }
  }

  lemma NotEarlier(tx: Tx, time: int)
    requires tx.time >= time
    ensures Earlier([tx], time) == []
  {
    assert [tx][..0] == [];
  }

  /** Deleting a transaction at the same or a later time. */
  lemma DeletingKeepsRow(front: seq<Tx>, tx: Tx, back: seq<Tx>, i: nat)
    requires i < |front + back| && tx.time >= (front + back)[i].time
    ensures RowAt(front + [tx] + back, if i < |front| then i else i + 1) == RowAt(front + back, i)
  {
    var time := (front + back)[i].time;
    EarlierJoin(front, back, time);
    EarlierJoin(front + [tx], back, time);
    EarlierJoin(front, [tx], time);
    NotEarlier(tx, time);
    RowIsCausal(front + [tx] + back, if i < |front| then i else i + 1, front + back, i);
  }

  // ---- time groups --------------------------------------------------------------------------

  datatype Group = Group(observed: int, members: seq<nat>)

  /** The indices at `time`, ascending. */
  function IndicesAt(txs: seq<Tx>, time: int): (indices: seq<nat>)
    ensures InRange(indices, |txs|)
    ensures forall k: nat :: Has(indices, k) <==> k < |txs| && txs[k].time == time
    ensures forall i, j | 0 <= i < j < |indices| :: indices[i] < indices[j]
  {
    if txs == [] then []
    else
      var n := |txs| - 1;
      var front := IndicesAt(txs[..n], time);
      if txs[n].time == time then
        HasMore(front, n);
        front + [n]
      else front
  }

  lemma {:induction false} SameRising(s: seq<nat>, t: seq<nat>)
    requires Rising(s) && Rising(t) && forall k: nat :: Has(s, k) <==> Has(t, k)
    ensures s == t
  {
    if s == [] || t == [] {
      assert s != [] ==> Has(s, s[0]);
      assert t != [] ==> Has(t, t[0]);
    } else {
      var m, n := |s| - 1, |t| - 1;
      assert Has(s, s[m]) && Has(t, t[n]);
      assert s[m] == t[n];
      forall k: nat ensures Has(s[..m], k) <==> Has(t[..n], k) {
        InFront(s, k);
        InFront(t, k);
      }
      SameRising(s[..m], t[..n]);
    }
  }

  lemma InFront(s: seq<nat>, k: nat)
    requires Rising(s) && s != []
    ensures Has(s[..|s| - 1], k) <==> Has(s, k) && k != s[|s| - 1]
  {
    if Has(s, k) && k != s[|s| - 1] {
      var i :| 0 <= i < |s| && s[i] == k;
      assert s[..|s| - 1][i] == k;
    }
  }

  function Times(txs: seq<Tx>): seq<real> { seq(|txs|, i requires 0 <= i < |txs| => txs[i].time as real) }

  /** The groups, so far, of the first `start` places of the order. */
  ghost predicate Groups(txs: seq<Tx>, groups: seq<Group>) {
    && (forall g | 0 <= g < |groups| ::
          groups[g].members != [] && groups[g].members == IndicesAt(txs, groups[g].observed))
    && (forall g, h | 0 <= g < h < |groups| :: groups[g].observed < groups[h].observed)
  }

  ghost predicate Grouped(groups: seq<Group>, time: int) { exists g :: 0 <= g < |groups| && groups[g].observed == time }

  /** The indices by time, ties in order of index. */
  ghost predicate Ordered(txs: seq<Tx>, order: seq<nat>) {
    && InRange(order, |txs|)
    && forall i, j | 0 <= i < j < |order| ::
         txs[order[i]].time < txs[order[j]].time || (txs[order[i]].time == txs[order[j]].time && order[i] < order[j])
  }

  lemma OrderedTimes(txs: seq<Tx>, order: seq<nat>)
    requires InRange(order, |txs|) && StablySorts(Times(txs), order)
    ensures Ordered(txs, order)
  {
    forall i, j | 0 <= i < j < |order|
      ensures txs[order[i]].time <= txs[order[j]].time
      ensures txs[order[i]].time == txs[order[j]].time ==> order[i] < order[j]
    {
      assert Times(txs)[order[i]] == txs[order[i]].time as real && Times(txs)[order[j]] == txs[order[j]].time as real;
    }
  }

  /** The places `start .. stop` of the order hold one time, and their neighbours other times. */
  ghost predicate Run(txs: seq<Tx>, order: seq<nat>, start: nat, stop: nat, time: int) {
    && InRange(order, |txs|) && start < stop <= |order|
    && (forall k | start <= k < stop :: txs[order[k]].time == time)
    && (start > 0 ==> txs[order[start - 1]].time < time)
    && (stop < |order| ==> time < txs[order[stop]].time)
  }

  /** A run of equal times in the stable order is the ascending list of all indices at that time. */
  lemma RunIsGroup(txs: seq<Tx>, order: seq<nat>, start: nat, stop: nat, time: int)
    requires Permutes(order, |txs|) && Ordered(txs, order) && Run(txs, order, start, stop, time)
    ensures order[start..stop] == IndicesAt(txs, time)
  {
    var run := order[start..stop];
    assert Rising(run) by {
      forall i, j | 0 <= i < j < |run| ensures run[i] < run[j] {
        assert run[i] == order[start + i] && run[j] == order[start + j];
      }
    }
    forall k: nat ensures Has(run, k) <==> k < |txs| && txs[k].time == time {
      RunHolds(txs, order, start, stop, time, k);
    }
    SameRising(run, IndicesAt(txs, time));
  }

  lemma OutsideRun(txs: seq<Tx>, order: seq<nat>, start: nat, stop: nat, time: int)
    requires Ordered(txs, order) && Run(txs, order, start, stop, time)
    ensures forall i | 0 <= i < start :: txs[order[i]].time < time
    ensures forall i | stop <= i < |order| :: time < txs[order[i]].time
  {
    forall i | 0 <= i < start ensures txs[order[i]].time < time {
      assert i < start - 1 ==> txs[order[i]].time <= txs[order[start - 1]].time;
    }
    forall i | stop <= i < |order| ensures time < txs[order[i]].time {
      assert stop < i ==> txs[order[stop]].time <= txs[order[i]].time;
    }
  }

  lemma RunHolds(txs: seq<Tx>, order: seq<nat>, start: nat, stop: nat, time: int, k: nat)
    requires Permutes(order, |txs|) && Ordered(txs, order) && Run(txs, order, start, stop, time)
    ensures Has(order[start..stop], k) <==> k < |txs| && txs[k].time == time
  {
    var run := order[start..stop];
    if Has(run, k) {
      var i :| 0 <= i < |run| && run[i] == k;
      assert order[start + i] == k;
    }
    if k < |txs| && txs[k].time == time {
      assert Has(order, k);
      var p :| 0 <= p < |order| && order[p] == k;
      OutsideRun(txs, order, start, stop, time);
      assert run[p - start] == k;
    }
  }

  /** The scan of the order at place `k`, inside the run that began at `start`. */
  ghost predicate Scanning(txs: seq<Tx>, order: seq<nat>, groups: seq<Group>, start: nat, k: nat) {
    && InRange(order, |txs|) && start <= k <= |order| && Groups(txs, groups)
    && (start == |order| || k < |order|)
    && (forall j | start <= j <= k && j < |order| :: txs[order[j]].time == txs[order[start]].time)
    && (0 < start < |order| ==> txs[order[start - 1]].time < txs[order[start]].time)
    && (groups != [] ==> start > 0 && groups[|groups| - 1].observed == txs[order[start - 1]].time)
    && (forall j | 0 <= j < start :: Grouped(groups, txs[order[j]].time))
  }

  /** `time_groups`: every index, in groups of equal time, the times ascending. */
  method TimeGroups(txs: seq<Tx>) returns (groups: seq<Group>)
    ensures Groups(txs, groups)
    ensures forall i | 0 <= i < |txs| :: Grouped(groups, txs[i].time)
  {
    hide Permutes, Ordered, Groups, Grouped, Scanning;
    var order := ArgSort(Times(txs));
    ArgSortSorts(Times(txs));
    OrderedTimes(txs, order);
    StartScan(txs, order);
    groups := [];
    var start := 0;
    for k := 0 to |order|
      invariant start <= k && Scanning(txs, order, groups, start, k)
    {
      if k == |order| - 1 || txs[order[k + 1]].time != txs[order[k]].time {
        groups := AddGroup(txs, order, groups, start, k + 1);
        start := k + 1;
      } else {
        KeepScanning(txs, order, groups, start, k);
      }
    }
    AllGrouped(txs, order, groups, start);
  }

  lemma StartScan(txs: seq<Tx>, order: seq<nat>)
    requires InRange(order, |txs|)
    ensures Scanning(txs, order, [], 0, 0)
  {}

  lemma KeepScanning(txs: seq<Tx>, order: seq<nat>, groups: seq<Group>, start: nat, k: nat)
    requires Scanning(txs, order, groups, start, k) && k + 1 < |order| && txs[order[k + 1]].time == txs[order[k]].time
    ensures Scanning(txs, order, groups, start, k + 1)
  {}

  lemma AllGrouped(txs: seq<Tx>, order: seq<nat>, groups: seq<Group>, start: nat)
    requires Permutes(order, |txs|) && Scanning(txs, order, groups, start, |order|)
    ensures Groups(txs, groups)
    ensures forall i | 0 <= i < |txs| :: Grouped(groups, txs[i].time)
  {
    forall i | 0 <= i < |txs| ensures Grouped(groups, txs[i].time) {
      assert Has(order, i);
      var j :| 0 <= j < |order| && order[j] == i;
    }
  }

  method AddGroup(txs: seq<Tx>, order: seq<nat>, groups: seq<Group>, start: nat, stop: nat) returns (more: seq<Group>)
    requires Permutes(order, |txs|) && Ordered(txs, order) && start < stop <= |order|
    requires Scanning(txs, order, groups, start, stop - 1)
    requires stop < |order| ==> txs[order[stop]].time != txs[order[stop - 1]].time
    ensures Scanning(txs, order, more, stop, stop)
  {
    more := groups + [Group(txs[order[start]].time, order[start..stop])];
    NextGroup(txs, order, groups, start, stop);
  }

  lemma NextGroup(txs: seq<Tx>, order: seq<nat>, groups: seq<Group>, start: nat, stop: nat)
    requires Permutes(order, |txs|) && Ordered(txs, order) && start < stop <= |order|
    requires Scanning(txs, order, groups, start, stop - 1)
    requires stop < |order| ==> txs[order[stop]].time != txs[order[stop - 1]].time
    ensures Scanning(txs, order, groups + [Group(txs[order[start]].time, order[start..stop])], stop, stop)
  {
    hide Permutes, Ordered, Groups, Grouped;
    var time := txs[order[start]].time;
    var group := Group(time, order[start..stop]);
    OrderedStep(txs, order, stop);
    assert Run(txs, order, start, stop, time);
    RunIsGroup(txs, order, start, stop, time);
    GroupedMore(groups, group);
    GroupsMore(txs, groups, group);
  }

  lemma OrderedStep(txs: seq<Tx>, order: seq<nat>, k: nat)
    requires Ordered(txs, order)
    ensures 0 < k < |order| ==> txs[order[k - 1]].time <= txs[order[k]].time
  {}

  lemma GroupsMore(txs: seq<Tx>, groups: seq<Group>, group: Group)
    requires Groups(txs, groups) && group.members != [] && group.members == IndicesAt(txs, group.observed)
    requires groups != [] ==> groups[|groups| - 1].observed < group.observed
    ensures Groups(txs, groups + [group])
  {
    assert forall g | 0 <= g < |groups| :: groups[g].observed <= groups[|groups| - 1].observed;
  }

  lemma GroupedMore(groups: seq<Group>, group: Group)
    ensures forall time :: Grouped(groups + [group], time) <==> Grouped(groups, time) || time == group.observed
  {
    var more := groups + [group];
    forall time ensures Grouped(more, time) <==> Grouped(groups, time) || time == group.observed {
      if Grouped(groups, time) {
        var g :| 0 <= g < |groups| && groups[g].observed == time;
        assert more[g].observed == time;
      }
      assert more[|groups|] == group;
    }
  }
}
