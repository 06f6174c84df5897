/** What the methods of the injector say of transactions and unspent outputs, and the lemmas they share. */
module InjectionShapes {
  import opened Wrappers
  import opened Sequences
  import opened InjectedLedger
  import opened Ledger

  const MINUTE: int := 60_000_000
  const HOUR: int := 3_600_000_000
  const DAY: int := 86_400_000_000

  /** Of the outputs made so far (`ever`), those unspent before and not in `spent` still are, and none
      that was spent is unspent again. */
  ghost predicate Keeps(before: map<Utxo, int>, after: map<Utxo, int>, ever: set<Utxo>, spent: seq<Utxo>) {
    && (forall u | u in before && u !in spent :: u in after && after[u] == before[u])
    && (forall u | u in ever && u !in before :: u !in after)
  }

  lemma MovesKeep(before: map<Utxo, int>, after: map<Utxo, int>, ever: set<Utxo>,
                  spent: seq<Utxo>, made: seq<Utxo>, moment: int)
    requires Moves(before, after, ever, spent, made, moment) && before.Keys <= ever
    requires forall u | u in spent :: u in before
    ensures Keeps(before, after, ever, spent) && NoneIn(spent, after)
  {}

  lemma NoRepeatsJoin(a: seq<Utxo>, b: seq<Utxo>)
    requires NoRepeats(a) && NoRepeats(b) && forall u | u in b :: u !in a
    ensures NoRepeats(a + b)
  {
    forall i, j | 0 <= i < j < |a + b| ensures (a + b)[i] != (a + b)[j] {
      assert i < |a| <= j ==> (a + b)[i] in a && (a + b)[j] in b;
    }
  }

  ghost predicate AllIn(utxos: seq<Utxo>, pool: map<Utxo, int>) {
    NoRepeats(utxos) && forall u | u in utxos :: u in pool
  }

  ghost predicate NoneIn(utxos: seq<Utxo>, pool: map<Utxo, int>) {
    forall u | u in utxos :: u !in pool
  }

  ghost predicate NewTo(utxos: seq<Utxo>, ever: set<Utxo>) {
    forall u | u in utxos :: u !in ever
  }

  /** Inside the consolidation: the payments from `cut` on are still there, those before are spent,
      and the carry is new. */
  ghost predicate Consolidating(victims: seq<Utxo>, cut: nat, held: Option<Utxo>, before: map<Utxo, int>,
                                known: set<Utxo>, pool: map<Utxo, int>, ever: set<Utxo>) {
    && cut <= |victims| && NoRepeats(victims) && known <= ever && (forall u | u in victims :: u in before)
    && Keeps(before, pool, known, victims)
    && (forall i | 0 <= i < |victims| :: victims[i] in pool <==> cut <= i)
    && (held.Some? ==> held.value in pool && held.value !in known)
  }

  lemma SumOne(x: (Address, int))
    ensures SumOutputs([x]) == x.1
  {
    assert [x][..0] == [];
  }

  lemma SumTwo(x: (Address, int), y: (Address, int))
    ensures SumOutputs([x, y]) == x.1 + y.1
  {
    SumOne(x);
    assert [x, y][..1] == [x];
  }

  lemma SumMore(outputs: seq<(Address, int)>, x: (Address, int))
    ensures SumOutputs(outputs + [x]) == SumOutputs(outputs) + x.1
  {
    assert (outputs + [x])[..|outputs|] == outputs;
  }

  lemma SumSingle(u: Utxo)
    ensures SumUtxos([u]) == u.amount
  {
    assert [u][..0] == [];
  }

  // ---- what was appended -------------------------------------------------------------

  /** Between `low` and `high` further transactions. */
  predicate Appended(before: seq<Tx>, after: seq<Tx>, low: nat, high: nat) {
    before <= after && low <= |after| - |before| <= high
  }

  lemma AppendedThen(a: seq<Tx>, b: seq<Tx>, c: seq<Tx>, low: nat, high: nat, low2: nat, high2: nat)
    requires Appended(a, b, low, high) && Appended(b, c, low2, high2)
    ensures Appended(a, c, low + low2, high + high2)
  {
    assert c[..|a|] == c[..|b|][..|a|];
  }

  lemma AppendedIs(a: seq<Tx>, b: seq<Tx>, low: nat, high: nat)
    requires Appended(a, b, low, high)
    ensures a <= b && low <= |b| - |a| <= high
  {}

  lemma IsAppended(a: seq<Tx>, b: seq<Tx>, low: nat, high: nat)
    requires a <= b && low <= |b| - |a| <= high
    ensures Appended(a, b, low, high)
  {}

  /** What was made and spent stays spent. */
  lemma StaysSpent(before: seq<Tx>, pool: map<Utxo, int>, ever: set<Utxo>, after: seq<Tx>, left: map<Utxo, int>,
                   spent: seq<Utxo>)
    requires PoolOf(before, pool) && EverOf(before, ever) && PoolOf(after, left) && before <= after
    requires NoneIn(spent, pool) && forall u | u in spent :: u in ever
    ensures NoneIn(spent, left)
  {
    forall u | u in spent ensures Spent(after, Key(u)) {
      assert Spent(before, Key(u));
      var tx, a: nat :| tx in before && SpendsKey(tx, a, Key(u));
      var i :| 0 <= i < |before| && before[i] == tx;
      assert after[i] == tx;
    }
  }

  lemma Widen(a: seq<Tx>, b: seq<Tx>, low: nat, high: nat, low2: nat, high2: nat)
    requires Appended(a, b, low, high) && low2 <= low && high <= high2
    ensures Appended(a, b, low2, high2)
  {}

  lemma ByOne(a: seq<Tx>, b: seq<Tx>)
    requires |b| == |a| + 1 && a <= b
    ensures Appended(a, b, 1, 1)
  {}

  /** `after` is `before` and one more transaction with these contents. */
  predicate Extends(before: seq<Tx>, after: seq<Tx>, moment: int, inputs: seq<Utxo>, outputs: seq<(Address, int)>,
                    fee: int) {
    && |after| == |before| + 1 && before <= after
    && var tx := after[|before|]; (tx.moment, tx.inputs, tx.outputs, tx.fee) == (moment, inputs, outputs, fee)
  }

  /** Output `v` of `tx`. */
  function Output(tx: Tx, v: nat): Utxo {
    if v < |tx.outputs| then OutputsOf(tx)[v] else Utxo(tx.txid, v, "", 0)
  }

  // ---- payments -----------------------------------------------------------------------

  /** What the payments of a scenario keep to: whom they pay and how much, what a payer is funded with beyond the
      price, how long before, and the fee. */
  datatype Terms = Terms(targets: seq<Address>, price: (int, int), extra: (int, int), gap: (int, int), fee: int)

  /** `fund` funds a payer, who spends exactly that in `pay`; the payment is its first output, the change the second. */
  predicate Pays(fund: Tx, pay: Tx, terms: Terms, paid: Utxo) {
    && fund.inputs == [] && |fund.outputs| == 1 && terms.gap.0 <= pay.moment - fund.moment <= terms.gap.1
    && pay.inputs == OutputsOf(fund) && |pay.outputs| == 2 && pay.fee == terms.fee
    && paid == Output(pay, 0) && paid.address in terms.targets && terms.price.0 <= paid.amount < terms.price.1
    && terms.extra.0 <= fund.outputs[0].1 - paid.amount < terms.extra.1
    && pay.outputs[1].1 == fund.outputs[0].1 - paid.amount - terms.fee
  }

  /** From place `n` on, each payment with its funding before it. */
  ghost predicate AllPay(txs: seq<Tx>, n: nat, terms: Terms, paid: seq<Utxo>) {
    && n + 2 * |paid| <= |txs|
    && forall i | 0 <= i < |paid| :: Pays(txs[n + 2 * i], txs[n + 2 * i + 1], terms, paid[i])
  }

  lemma AllPayMore(before: seq<Tx>, after: seq<Tx>, n: nat, terms: Terms, paid: seq<Utxo>, one: Utxo)
    requires AllPay(before, n, terms, paid) && |before| == n + 2 * |paid|
    requires before <= after && |after| == |before| + 2
    requires Pays(after[|before|], after[|before| + 1], terms, one)
    ensures AllPay(after, n, terms, paid + [one])
  {
    hide Pays;
    forall i | 0 <= i < |paid| + 1
      ensures Pays(after[n + 2 * i], after[n + 2 * i + 1], terms, (paid + [one])[i])
    {
      if i < |paid| {
        assert after[n + 2 * i] == before[n + 2 * i] && after[n + 2 * i + 1] == before[n + 2 * i + 1];
      }
    }
  }

  lemma NoPayments(txs: seq<Tx>, terms: Terms)
    ensures AllPay(txs, |txs|, terms, [])
  {}

  lemma AllPayKept(before: seq<Tx>, after: seq<Tx>, n: nat, terms: Terms, paid: seq<Utxo>)
    requires AllPay(before, n, terms, paid) && before <= after
    ensures AllPay(after, n, terms, paid)
  {
    hide Pays;
    forall i | 0 <= i < |paid| ensures Pays(after[n + 2 * i], after[n + 2 * i + 1], terms, paid[i]) {
      assert after[n + 2 * i] == before[n + 2 * i] && after[n + 2 * i + 1] == before[n + 2 * i + 1];
    }
  }

  /** Spending one output leaves all others as they were. */
  lemma KeepsOthers(before: map<Utxo, int>, after: map<Utxo, int>, ever: set<Utxo>, spent: Utxo, others: seq<Utxo>)
    requires Keeps(before, after, ever, [spent]) && forall u | u in others :: u in ever && u != spent
    ensures forall u | u in others :: u in after <==> u in before
  {}

  /** A payment of exact terms keeps to wider ones. */
  lemma PaysAmong(fund: Tx, pay: Tx, terms: Terms, k: nat, price: int, extra: int, gap: int, paid: Utxo)
    requires k < |terms.targets| && terms.price.0 <= price < terms.price.1
    requires terms.extra.0 <= extra < terms.extra.1 && terms.gap.0 <= gap <= terms.gap.1
    requires Pays(fund, pay, Terms([terms.targets[k]], (price, price + 1), (extra, extra + 1), (gap, gap), terms.fee),
                  paid)
    ensures Pays(fund, pay, terms, paid)
  {}

  lemma Prefixes(a: seq<Tx>, b: seq<Tx>, c: seq<Tx>)
    requires a <= b <= c
    ensures a <= c
  {
    assert c[..|a|] == c[..|b|][..|a|];
  }

  // ---- chains -------------------------------------------------------------------------

  /** What transaction `k`, counted from place `n`, spends of the one before it. */
  function LeftBefore(txs: seq<Tx>, n: nat, k: nat): seq<Utxo> {
    if 0 < k && n + k <= |txs| then [Output(txs[n + k - 1], 0)] else []
  }

  /** The consolidations of `s` spend the victims slice by slice, each also the output of the one before, and
      leave one output for a fee of 4 000. */
  ghost predicate CarryChain(s: seq<Tx>, victims: seq<Utxo>, size: nat, carry: Utxo) {
    && s != [] && carry == Output(s[|s| - 1], 0)
    && (forall i | 0 <= i < |s| :: |s[i].outputs| == 1 && s[i].fee == 4_000)
    && (forall i | 0 <= i < |s| :: s[i].inputs == LeftBefore(s, 0, i) + RoundOf(victims, size, i))
  }

  /** The change hop `i` spends. */
  function PeeledFrom(s: seq<Tx>, first: Utxo, i: nat): Utxo {
    if 0 < i <= |s| then Output(s[i - 1], 1) else first
  }

  /** When that was made. */
  function PeeledAt(s: seq<Tx>, start: int, i: nat): int { if 0 < i <= |s| then s[i - 1].moment else start }

  /** Each hop of `s` spends the change of the one before, the first one `first`, made at `start`, 4 to 600 minutes
      later; `last` is the last change. */
  ghost predicate PeelChain(s: seq<Tx>, first: Utxo, start: int, last: Utxo) {
    && last == PeeledFrom(s, first, |s|)
    && (forall i | 0 <= i < |s| :: |s[i].outputs| == 2 && 400 <= s[i].fee < 2_000)
    && (forall i | 0 <= i < |s| :: s[i].inputs == [PeeledFrom(s, first, i)])
    && (forall i | 0 <= i < |s| ::
          PeeledAt(s, start, i) + 4 * MINUTE <= s[i].moment <= PeeledAt(s, start, i) + 600 * MINUTE)
  }

  /** One consolidation: it spends the carried output, if any, and then its slice, and leaves `carry` alone. */
  predicate Carries(tx: Tx, held: Option<Utxo>, batch: seq<Utxo>, carry: Utxo) {
    && |tx.outputs| == 1 && carry == Output(tx, 0) && tx.fee == 4_000
    && tx.inputs == (if held.Some? then [held.value] else []) + batch
  }

  lemma CarryMore(s: seq<Tx>, tx: Tx, victims: seq<Utxo>, size: nat, held: Option<Utxo>, carry: Utxo)
    requires Carries(tx, held, RoundOf(victims, size, |s|), carry)
    requires if held.Some? then CarryChain(s, victims, size, held.value) else s == []
    ensures CarryChain(s + [tx], victims, size, carry)
  {
    hide RoundOf;
    var t, n := s + [tx], |s|;
    forall i | 0 <= i < n + 1
      ensures t[i].inputs == LeftBefore(t, 0, i) + RoundOf(victims, size, i)
    {
      assert LeftBefore(t, 0, i) == if i < n then LeftBefore(s, 0, i) else if held.Some? then [held.value] else [];
    }
  }

  /** One peel: it spends `current` alone, and its second output is the change. */
  predicate Peels(tx: Tx, current: Utxo, change: Utxo) {
    tx.inputs == [current] && |tx.outputs| == 2 && 400 <= tx.fee < 2_000 && change == Output(tx, 1)
  }

  /** The whole output, less the fee, goes to a deposit address of the exchange. */
  predicate IsCashOut(tx: Tx, utxo: Utxo, deposit: Address, fee: int) {
    tx.inputs == [utxo] && tx.outputs == [(deposit, utxo.amount - fee)] && tx.fee == fee
  }

  lemma NoPeel(txs: seq<Tx>, first: Utxo, start: int)
    ensures PeelChain(txs[|txs|..], first, start, first)
  {}

  lemma PeelMore(s: seq<Tx>, tx: Tx, first: Utxo, start: int, current: Utxo, change: Utxo)
    requires PeelChain(s, first, start, current) && Peels(tx, current, change)
    requires PeeledAt(s, start, |s|) + 4 * MINUTE <= tx.moment <= PeeledAt(s, start, |s|) + 600 * MINUTE
    ensures PeelChain(s + [tx], first, start, change) && PeeledAt(s + [tx], start, |s| + 1) == tx.moment
  {
    var t, n := s + [tx], |s|;
    forall i | 0 <= i < n + 1
      ensures t[i].inputs == [PeeledFrom(t, first, i)]
      ensures PeeledAt(t, start, i) + 4 * MINUTE <= t[i].moment <= PeeledAt(t, start, i) + 600 * MINUTE
    {
      assert PeeledFrom(t, first, i) == PeeledFrom(s, first, i) && PeeledAt(t, start, i) == PeeledAt(s, start, i);
    }
  }

  /** A part of what was appended stays where it is. */
  lemma PartKept(before: seq<Tx>, after: seq<Tx>, n: nat)
    requires n <= |before| && before <= after
    ensures after[n..|before|] == before[n..]
  {}

  /** A piece made at `start` is respent whole after 1 to 30 minutes, and that output cashed out whole after 5 to 240
      more. */
  predicate Relayed(respend: Tx, cashOut: Tx, piece: Utxo, start: int) {
    && respend.inputs == [piece] && |respend.outputs| == 1 && respend.fee == 800
    && start + MINUTE <= respend.moment <= start + 30 * MINUTE
    && respend.moment + 5 * MINUTE <= cashOut.moment <= respend.moment + 240 * MINUTE
    && cashOut.inputs == [Output(respend, 0)] && |cashOut.outputs| == 1 && cashOut.fee == 900
  }

  ghost predicate AllRelayed(txs: seq<Tx>, n: nat, pieces: seq<Utxo>, start: int) {
    && n + 2 * |pieces| <= |txs|
    && forall i | 0 <= i < |pieces| :: Relayed(txs[n + 2 * i], txs[n + 2 * i + 1], pieces[i], start)
  }

  lemma RelayedMore(txs: seq<Tx>, after: seq<Tx>, n: nat, pieces: seq<Utxo>, piece: Utxo, start: int)
    requires AllRelayed(txs, n, pieces, start) && |txs| == n + 2 * |pieces|
    requires txs <= after && |after| == |txs| + 2 && Relayed(after[|txs|], after[|txs| + 1], piece, start)
    ensures AllRelayed(after, n, pieces + [piece], start)
  {
    hide Relayed;
    var more := pieces + [piece];
    forall i | 0 <= i < |more| ensures Relayed(after[n + 2 * i], after[n + 2 * i + 1], more[i], start) {
      assert i < |pieces| ==> after[n + 2 * i] == txs[n + 2 * i] && after[n + 2 * i + 1] == txs[n + 2 * i + 1];
    }
  }

  /** From place `n` on: the source is minted, fanned out into equal pieces after 1 to 72 hours, and each piece
      relayed. */
  ghost predicate IsLayering(txs: seq<Tx>, n: nat, pieces: seq<Utxo>) {
    && 10 <= |pieces| < 26 && |txs| == n + 2 + 2 * |pieces|
    && var fund, fan := txs[n], txs[n + 1];
      && fund.inputs == [] && |fund.outputs| == 1 && 200_000_000 <= fund.outputs[0].1 < 2_000_000_000
      && fund.moment + HOUR <= fan.moment <= fund.moment + 72 * HOUR
      && fan.inputs == OutputsOf(fund) && pieces == OutputsOf(fan)
      && (forall u | u in pieces :: u.amount == (fund.outputs[0].1 - 10_000) / |pieces|)
      && AllRelayed(txs, n + 2, pieces, fan.moment)
  }

  lemma LayeringParts(txs0: seq<Tx>, txs1: seq<Tx>, txs2: seq<Tx>, txs: seq<Tx>, source: (Address, int), from: int,
                      moment: int, pieces: seq<Utxo>)
    requires Extends(txs0, txs1, from, [], [source], 0) && 200_000_000 <= source.1 < 2_000_000_000
    requires txs1 <= txs2 <= txs && |txs2| == |txs1| + 1 && from + HOUR <= moment <= from + 72 * HOUR
    requires var fan := txs2[|txs1|];
      fan.inputs == OutputsOf(txs1[|txs0|]) && pieces == OutputsOf(fan) && fan.moment == moment
    requires forall u | u in pieces :: u.amount == (source.1 - 10_000) / |pieces|
    requires 10 <= |pieces| < 26 && |txs| == |txs2| + 2 * |pieces| && AllRelayed(txs, |txs2|, pieces, moment)
    ensures IsLayering(txs, |txs0|, pieces) && Appended(txs0, txs, 22, 52)
  {
    hide AllRelayed;
    Prefixes(txs0, txs1, txs2);
    Prefixes(txs0, txs2, txs);
  }

  /** A customer's deposit is minted to a deposit address. */
  predicate IsCustomer(tx: Tx, address: Address, received: Utxo) {
    && tx.inputs == [] && |tx.outputs| == 1 && received == Output(tx, 0)
    && received.address == address && 200_000 <= received.amount < 40_000_000
  }

  /** The parts of a ransomware scenario stay in place. */
  lemma RansomParts(txs0: seq<Tx>, txs1: seq<Tx>, txs2: seq<Tx>, txs: seq<Tx>, terms: Terms, victims: seq<Utxo>)
    requires txs0 <= txs1 <= txs2 <= txs
    requires AllPay(txs1, |txs0|, terms, victims)
    ensures AllPay(txs, |txs0|, terms, victims)
    ensures txs[|txs1|..|txs2|] == txs2[|txs1|..] && txs0 <= txs
  {
    Prefixes(txs1, txs2, txs);
    Prefixes(txs0, txs1, txs);
    AllPayKept(txs1, txs, |txs0|, terms, victims);
    PartKept(txs2, txs, |txs1|);
  }

  /** From the places `n`, `d` and `e` on, `count` customer deposits. */
  ghost predicate AllCustomers(txs: seq<Tx>, n: nat, deposits: seq<Address>, d: nat, exchange: seq<Utxo>, e: nat,
                               count: nat) {
    && n + count <= |txs| && d + count <= |deposits| && e + count <= |exchange|
    && forall i: nat | i < count :: Customer(txs, n, deposits, d, exchange, e, i)
  }

  ghost predicate Customer(txs: seq<Tx>, n: nat, deposits: seq<Address>, d: nat, exchange: seq<Utxo>, e: nat, i: nat)
    requires n + i < |txs| && d + i < |deposits| && e + i < |exchange|
  {
    IsCustomer(txs[n + i], deposits[d + i], exchange[e + i])
  }

  lemma CustomersMore(txs: seq<Tx>, after: seq<Tx>, n: nat, deposits: seq<Address>, more: seq<Address>, d: nat,
                      exchange: seq<Utxo>, received: seq<Utxo>, e: nat, count: nat)
    requires AllCustomers(txs, n, deposits, d, exchange, e, count)
    requires |txs| == n + count && |deposits| == d + count && |exchange| == e + count
    requires txs <= after && deposits <= more && exchange <= received
    requires |after| > |txs| && |more| > |deposits| && |received| > |exchange|
    requires IsCustomer(after[|txs|], more[|deposits|], received[|exchange|])
    ensures AllCustomers(after, n, more, d, received, e, count + 1)
  {
    hide IsCustomer;
    forall i: nat | i < count + 1 ensures Customer(after, n, more, d, received, e, i) {
      assert i < count ==> Customer(txs, n, deposits, d, exchange, e, i);
    }
  }

  lemma CustomersKept(txs: seq<Tx>, after: seq<Tx>, n: nat, deposits: seq<Address>, d: nat, exchange: seq<Utxo>, e: nat,
                      count: nat)
    requires AllCustomers(txs, n, deposits, d, exchange, e, count) && txs <= after
    ensures AllCustomers(after, n, deposits, d, exchange, e, count)
  {
    hide IsCustomer;
    forall i: nat | i < count ensures Customer(after, n, deposits, d, exchange, e, i) {
      assert Customer(txs, n, deposits, d, exchange, e, i) && after[n + i] == txs[n + i];
    }
  }

  lemma Suffix(before: seq<Tx>, after: seq<Tx>, n: nat)
    requires n <= |before| && before <= after && |after| == |before| + 1
    ensures after[n..] == before[n..] + [after[|before|]]
  {}

  /** `n` equal outputs and the change, for a fee of 600 an input. */
  predicate IsMix(tx: Tx, first: Utxo, mixed: Utxo) {
    && tx.inputs != [] && tx.inputs[0] == first && mixed == Output(tx, 0)
    && |tx.outputs| == |tx.inputs| + 1 && tx.fee == 600 * |tx.inputs|
    && forall i | 0 <= i < |tx.inputs| :: tx.outputs[i].1 == mixed.amount
  }

  /** The equal outputs are the greatest multiple of 100 000 in half of what the operator brings, but at least that. */
  predicate IsDenomination(denomination: int, amount: int) {
    && denomination >= 100_000 && denomination % 100_000 == 0 && amount < 2 * (denomination + 100_000)
    && (denomination > 100_000 ==> 2 * denomination <= amount)
  }

  /** The participants hold 20 000 to 3 000 000 more, funded 1 to 24 hours before. */
  ghost predicate AreParticipants(utxos: seq<Utxo>, at: map<Utxo, int>, moment: int, denomination: int) {
    forall u | u in utxos :: u in at && moment - 24 * HOUR <= at[u] <= moment - HOUR &&
                             denomination + 20_000 <= u.amount < denomination + 3_000_000
  }

  ghost predicate AllSalaries(salaries: seq<(Address, int)>) {
    forall i | 0 <= i < |salaries| :: 2_000_000 <= salaries[i].1 < 20_000_000 && salaries[i].1 % 100_000 == 0
  }

  lemma SalariesMore(salaries: seq<(Address, int)>, employee: Address, units: int)
    requires AllSalaries(salaries) && 20 <= units < 200
    ensures AllSalaries(salaries + [(employee, units * 100_000)])
  {}

  lemma NoSalaries()
    ensures AllSalaries([])
  {}

  /** The employer is funded a day before, with what the salaries and the fee of 50 000 take. */
  ghost predicate IsPayday(fund: Tx, pay: Tx) {
    && fund.inputs == [] && |fund.outputs| == 1 && fund.moment == pay.moment - DAY
    && pay.inputs == OutputsOf(fund) && pay.fee == 50_000
    && 15 <= |pay.outputs| < 41 && AllSalaries(pay.outputs)
  }

  lemma {:induction false} PaydayIs(txs0: seq<Tx>, txs1: seq<Tx>, txs: seq<Tx>, source: Address, moment: int,
                                    salaries: seq<(Address, int)>, amount: int)
    requires Extends(txs0, txs1, moment - DAY, [], [(source, amount)], 0) && amount == SumOutputs(salaries) + 50_000
    requires Extends(txs1, txs, moment, OutputsOf(txs1[|txs0|]), salaries, 50_000)
    requires 15 <= |salaries| < 41 && AllSalaries(salaries)
    ensures txs0 <= txs && |txs| == |txs0| + 2 && IsPayday(txs[|txs0|], txs[|txs0| + 1])
    ensures txs[|txs0|].outputs == [(source, SumOutputs(txs[|txs0| + 1].outputs) + 50_000)]
  {
    hide AllSalaries;
    Prefixes(txs0, txs1, txs);
  }

  /** The moments are those of the transactions that made the outputs. */
  ghost predicate MadeAt(txs: seq<Tx>, utxos: seq<Utxo>, moments: map<Utxo, int>) {
    forall u | u in utxos :: u in moments && exists tx :: tx in txs && Makes(tx, u) && tx.moment == moments[u]
  }

  lemma PoolMadeAt(txs: seq<Tx>, pool: map<Utxo, int>, utxos: seq<Utxo>, after: seq<Tx>)
    requires PoolOf(txs, pool) && AllIn(utxos, pool) && txs <= after
    ensures MadeAt(after, utxos, pool)
  {
    forall u | u in utxos ensures exists tx :: tx in after && Makes(tx, u) && tx.moment == pool[u] {
      assert Made(txs, u);
      var tx :| tx in txs && Makes(tx, u);
      assert tx in after && Makes(tx, u) && tx.moment == pool[u];
    }
  }

  /** `moment` is between `low` and `high` after the latest of `utxos`. */
  ghost predicate Follows(moment: int, utxos: seq<Utxo>, at: map<Utxo, int>, low: int, high: int) {
    && (forall u | u in utxos :: u in at && at[u] + low <= moment)
    && exists u :: u in utxos && u in at && moment <= at[u] + high
  }

  lemma AfterLatest(utxos: seq<Utxo>, at: map<Utxo, int>, latest: int, gap: int, low: int, high: int)
    requires (forall u | u in utxos :: u in at && at[u] <= latest) && (exists u :: u in utxos && at[u] == latest)
    requires low <= gap <= high
    ensures Follows(latest + gap, utxos, at, low, high)
  {}

  /** New payments leave the deposits of the exchange unspent, and are none of them. */
  lemma ExchangeKept(exchange: seq<Utxo>, pool0: map<Utxo, int>, ever0: set<Utxo>, pool: map<Utxo, int>,
                     paid: seq<Utxo>)
    requires AllIn(exchange, pool0) && pool0.Keys <= ever0 && Keeps(pool0, pool, ever0, []) && NewTo(paid, ever0)
    ensures AllIn(exchange, pool) && forall u | u in paid :: u !in exchange
  {}

  lemma SpendableAfter(utxos: seq<Utxo>, pool: map<Utxo, int>, latest: int, moment: int)
    requires AllIn(utxos, pool) && (forall u | u in utxos :: u in pool && pool[u] <= latest) && latest < moment
    ensures Spendable(pool, utxos, moment)
  {}

  /** All within a time of `span`. */
  ghost predicate Together(utxos: seq<Utxo>, at: map<Utxo, int>, span: int) {
    forall u, w | u in utxos && w in utxos && u in at && w in at :: at[u] <= at[w] + span
  }

  /** One sweep of the batch, `gap` after `last`, and the cash-out of what it made, `wait` after `last`. */
  predicate SweptOut(before: seq<Tx>, after: seq<Tx>, batch: seq<Utxo>, last: int, gap: int, wait: int,
                     deposit: Address)
  {
    && before <= after && |after| == |before| + 2
    && var sweep, out := after[|before|], after[|before| + 1];
      && sweep.inputs == batch && sweep.fee == 2_000 && |sweep.outputs| == 1 && sweep.moment == last + gap
      && IsCashOut(out, Output(sweep, 0), deposit, 1_000) && out.moment == last + wait
  }

  function ExtortionTerms(targets: seq<Address>): Terms {
    Terms(targets, (1_000_000, 10_000_000), (50_000, 50_001), (HOUR, 12 * HOUR), 700)
  }

  lemma TermsAre(target: Address)
    ensures var terms := ExtortionTerms([target]);
      && terms.targets == [target] && terms.price.0 < terms.price.1
      && 0 <= terms.fee <= terms.extra.0 < terms.extra.1 && 0 < terms.gap.0 <= terms.gap.1
  {}

  /** From place `n` on: the payments to one target, all within 600 minutes; 10 to 60 minutes after the latest one
      sweep of exactly these, and 2 to 30 hours after it the cash-out. */
  ghost predicate IsExtortion(txs: seq<Tx>, n: nat, payments: seq<Utxo>, at: map<Utxo, int>, deposit: Address) {
    && 5 <= |payments| < 13 && |txs| == n + 2 * |payments| + 2
    && (exists target :: AllPay(txs, n, ExtortionTerms([target]), payments))
    && MadeAt(txs, payments, at) && Together(payments, at, 600 * MINUTE)
    && var sweep, out := txs[|txs| - 2], txs[|txs| - 1];
      && sweep.inputs == payments && sweep.fee == 2_000 && |sweep.outputs| == 1
      && IsCashOut(out, Output(sweep, 0), deposit, 1_000)
      && Follows(sweep.moment, payments, at, 10 * MINUTE, 60 * MINUTE)
      && Follows(out.moment, payments, at, 2 * HOUR, 30 * HOUR)
  }

  lemma ExtortionParts(txs0: seq<Tx>, txs1: seq<Tx>, txs: seq<Tx>, target: Address, paid: seq<Utxo>,
                       at: map<Utxo, int>, last: int, gap: int, wait: int, deposit: Address)
    requires Appended(txs0, txs1, 2 * |paid|, 2 * |paid|) && AllPay(txs1, |txs0|, ExtortionTerms([target]), paid)
    requires SweptOut(txs1, txs, paid, last, gap, wait, deposit) && 5 <= |paid| < 13
    requires PoolOf(txs1, at) && AllIn(paid, at) && Together(paid, at, 600 * MINUTE)
    requires (forall u | u in paid :: u in at && at[u] <= last) && (exists u :: u in paid && at[u] == last)
    requires 10 * MINUTE <= gap <= 60 * MINUTE && 2 * HOUR <= wait <= 30 * HOUR
    ensures IsExtortion(txs, |txs0|, paid, at, deposit) && Appended(txs0, txs, 12, 26)
  {
    hide AllPay, MadeAt, Together, Follows, PoolOf, ExtortionTerms;
    AfterLatest(paid, at, last, gap, 10 * MINUTE, 60 * MINUTE);
    AfterLatest(paid, at, last, wait, 2 * HOUR, 30 * HOUR);
    Prefixes(txs0, txs1, txs);
    AllPayKept(txs1, txs, |txs0|, ExtortionTerms([target]), paid);
    PoolMadeAt(txs1, at, paid, txs);
  }

  // ---- the order of time ----------------------------------------------------------------------

  function MadeThen(at: map<Utxo, int>, moment: int): Utxo -> bool { u => u in at && at[u] == moment }

  ghost predicate Ascend(at: map<Utxo, int>, sorted: seq<Utxo>) {
    && (forall u | u in sorted :: u in at)
    && forall i, j | 0 <= i < j < |sorted| :: sorted[i] in at && sorted[j] in at && at[sorted[i]] <= at[sorted[j]]
  }

  /** `sorted` is what a stable sort of `utxos` by moment gives. */
  ghost predicate InTimeOrder(utxos: seq<Utxo>, at: map<Utxo, int>, sorted: seq<Utxo>) {
    && multiset(sorted) == multiset(utxos) && Ascend(at, sorted)
    && forall moment :: Filter(sorted, MadeThen(at, moment)) == Filter(utxos, MadeThen(at, moment))
  }

  lemma InsertAscends(at: map<Utxo, int>, sorted: seq<Utxo>, u: Utxo, k: nat)
    requires Ascend(at, sorted) && u in at && k <= |sorted|
    requires k > 0 ==> at[sorted[k - 1]] <= at[u]
    requires forall j | k <= j < |sorted| :: at[u] < at[sorted[j]]
    ensures Ascend(at, sorted[..k] + [u] + sorted[k..])
  {
    var more := sorted[..k] + [u] + sorted[k..];
    forall i | 0 <= i < |more| ensures more[i] == if i < k then sorted[i] else if i == k then u else sorted[i - 1] {}
    forall i | 0 <= i < k ensures at[sorted[i]] <= at[u] {
      assert at[sorted[i]] <= at[sorted[k - 1]];
    }
  }

  lemma InsertHolds(sorted: seq<Utxo>, u: Utxo, k: nat)
    requires k <= |sorted|
    ensures multiset(sorted[..k] + [u] + sorted[k..]) == multiset(sorted) + multiset{u}
  {
    assert sorted == sorted[..k] + sorted[k..];
  }

  lemma InsertInOrder(utxos: seq<Utxo>, at: map<Utxo, int>, sorted: seq<Utxo>, u: Utxo, k: nat)
    requires InTimeOrder(utxos, at, sorted) && u in at && k <= |sorted| && forall w | w in sorted :: w in at
    requires k > 0 ==> at[sorted[k - 1]] <= at[u]
    requires forall j | k <= j < |sorted| :: at[u] < at[sorted[j]]
    ensures InTimeOrder(utxos + [u], at, sorted[..k] + [u] + sorted[k..])
  {
    hide Filter, Ascend;
    var more := sorted[..k] + [u] + sorted[k..];
    InsertAscends(at, sorted, u, k);
    InsertHolds(sorted, u, k);
    forall moment ensures Filter(more, MadeThen(at, moment)) == Filter(utxos + [u], MadeThen(at, moment)) {
      InsertFilters(utxos, at, sorted, u, k, moment);
    }
  }

  lemma InsertFilters(utxos: seq<Utxo>, at: map<Utxo, int>, sorted: seq<Utxo>, u: Utxo, k: nat, moment: int)
    requires k <= |sorted| && u in at && Filter(sorted, MadeThen(at, moment)) == Filter(utxos, MadeThen(at, moment))
    requires forall j | k <= j < |sorted| :: sorted[j] in at && at[u] < at[sorted[j]]
    ensures Filter(sorted[..k] + [u] + sorted[k..], MadeThen(at, moment)) == Filter(utxos + [u], MadeThen(at, moment))
  {
    hide Filter;
    var p, low, high := MadeThen(at, moment), sorted[..k], sorted[k..];
    assert sorted == low + high;
    FilterJoin(low, high, p);
    FilterMore(low, u, p);
    FilterJoin(low + [u], high, p);
    FilterMore(utxos, u, p);
    if at[u] == moment {
      FilterNone(high, p);
    }
  }

  lemma FilterNone(utxos: seq<Utxo>, p: Utxo -> bool)
    requires forall u | u in utxos :: !p(u)
    ensures Filter(utxos, p) == []
  {
    hide Filter;
    FilterHolds(utxos, p);
    if Filter(utxos, p) != [] {
      HasMember(Filter(utxos, p));
    }
  }

  lemma HasMember(utxos: seq<Utxo>)
    requires utxos != []
    ensures exists u :: u in utxos
  {
    assert utxos[0] in utxos;
  }

  lemma NoneInOrder(at: map<Utxo, int>)
    ensures InTimeOrder([], at, [])
  {}

  lemma InOrder(utxos: seq<Utxo>, at: map<Utxo, int>, sorted: seq<Utxo>)
    requires InTimeOrder(utxos, at, sorted)
    ensures forall u | u in sorted :: u in at
  {}

  lemma SortedMembers(utxos: seq<Utxo>, at: map<Utxo, int>, sorted: seq<Utxo>)
    requires InTimeOrder(utxos, at, sorted)
    ensures |sorted| == |utxos| && (NoRepeats(utxos) ==> NoRepeats(sorted))
    ensures forall u :: u in sorted <==> u in utxos
  {
    SameLength(sorted, utxos);
    forall u ensures u in sorted <==> u in utxos {
      assert u in multiset(sorted) <==> u in multiset(utxos);
    }
    if NoRepeats(utxos) {
      forall i, j | 0 <= i < j < |sorted| ensures sorted[i] != sorted[j] {
        OnceIn(utxos, sorted[i]);
        NotTwice(sorted, i, j);
      }
    }
  }

  lemma NotTwice(utxos: seq<Utxo>, i: nat, j: nat)
    requires i < j < |utxos| && multiset(utxos)[utxos[i]] <= 1
    ensures utxos[i] != utxos[j]
  {
    assert utxos == utxos[..j] + utxos[j..];
    assert utxos[i] in utxos[..j] && utxos[j] in utxos[j..];
  }

  lemma {:induction false} OnceIn(utxos: seq<Utxo>, u: Utxo)
    requires NoRepeats(utxos)
    ensures multiset(utxos)[u] <= 1
  {
    if utxos != [] {
      var n := |utxos| - 1;
      OnceIn(utxos[..n], u);
      assert utxos == utxos[..n] + [utxos[n]];
      assert forall i | 0 <= i < n :: utxos[i] != utxos[n];
      assert u == utxos[n] ==> u !in utxos[..n];
    }
  }

  // ---- sweeps by slices of time ----------------------------------------------------------

  /** `from + i * step`. */
  function Cursor(from: int, step: int, i: nat): int {
    if i == 0 then from else Cursor(from, step, i - 1) + step
  }

  /** Not yet due after `i` sweeps. */
  predicate Remains(from: int, step: int, i: nat, moment: int) { i == 0 || Cursor(from, step, i) <= moment }

  /** Due at the sweep number `i`, counted from 0. */
  predicate InSlice(from: int, step: int, i: nat, moment: int) {
    Remains(from, step, i, moment) && moment < Cursor(from, step, i + 1)
  }

  function RemainsAt(at: map<Utxo, int>, from: int, step: int, i: nat): Utxo -> bool {
    u => u in at && Remains(from, step, i, at[u])
  }

  function DueAt(at: map<Utxo, int>, from: int, step: int, i: nat): Utxo -> bool {
    u => u in at && InSlice(from, step, i, at[u])
  }

  function MadeFrom(at: map<Utxo, int>, cursor: int): Utxo -> bool { u => u in at && cursor <= at[u] }

  function MadeBy(at: map<Utxo, int>, cursor: int): Utxo -> bool { u => u in at && at[u] < cursor }

  /** The payments due at sweep `i`, in order. */
  function SliceOf(payments: seq<Utxo>, at: map<Utxo, int>, from: int, step: int, i: nat): (slice: seq<Utxo>)
    ensures forall u :: u in slice <==> u in payments && u in at && InSlice(from, step, i, at[u])
  {
    FilterHolds(payments, DueAt(at, from, step, i));
    Filter(payments, DueAt(at, from, step, i))
  }

  /** Those not yet due after `i` sweeps, in order. */
  function RemainsOf(payments: seq<Utxo>, at: map<Utxo, int>, from: int, step: int, i: nat): (rest: seq<Utxo>)
    ensures forall u :: u in rest <==> u in payments && u in at && Remains(from, step, i, at[u])
  {
    FilterHolds(payments, RemainsAt(at, from, step, i));
    Filter(payments, RemainsAt(at, from, step, i))
  }

  /** The order of the payments is kept when slices are split off. */
  lemma SplitRemains(payments: seq<Utxo>, at: map<Utxo, int>, pool: map<Utxo, int>, from: int, step: int, i: nat)
    requires step >= 0
    requires forall u | u in RemainsOf(payments, at, from, step, i) :: u in pool && u in at && pool[u] == at[u]
    ensures var received, cursor := RemainsOf(payments, at, from, step, i), Cursor(from, step, i + 1);
      && Filter(received, MadeBy(pool, cursor)) == SliceOf(payments, at, from, step, i)
      && Filter(received, MadeFrom(pool, cursor)) == RemainsOf(payments, at, from, step, i + 1)
  {
    hide Cursor;
    var received, cursor := RemainsOf(payments, at, from, step, i), Cursor(from, step, i + 1);
    CursorRises(from, step, i, i + 1);
    FilterSame(received, MadeBy(pool, cursor), MadeBy(at, cursor));
    FilterSame(received, MadeFrom(pool, cursor), MadeFrom(at, cursor));
    FilterTwice(payments, RemainsAt(at, from, step, i), MadeBy(at, cursor), DueAt(at, from, step, i));
    FilterTwice(payments, RemainsAt(at, from, step, i), MadeFrom(at, cursor), RemainsAt(at, from, step, i + 1));
  }

  /** At most one payment is due at sweep `i`. */
  ghost predicate Sparse(payments: seq<Utxo>, at: map<Utxo, int>, from: int, step: int, i: nat) {
    forall u, w | u in payments && w in payments && u in at && w in at &&
                  InSlice(from, step, i, at[u]) && InSlice(from, step, i, at[w]) :: u == w
  }

  /** Due at one of the first `n` sweeps, with none so far that had two payments. */
  ghost predicate Dropped(payments: seq<Utxo>, at: map<Utxo, int>, from: int, step: int, n: nat, u: Utxo)
    requires u in at
  {
    exists i: nat :: i < n && InSlice(from, step, i, at[u]) && SparseUpTo(payments, at, from, step, i + 1)
  }

  ghost predicate SparseUpTo(payments: seq<Utxo>, at: map<Utxo, int>, from: int, step: int, n: nat) {
    forall j: nat | j < n :: Sparse(payments, at, from, step, j)
  }

  lemma {:induction false} CursorRises(from: int, step: int, i: nat, j: nat)
    requires step >= 0 && i <= j
    ensures Cursor(from, step, i) <= Cursor(from, step, j)
    decreases j
  {
    if i < j {
      CursorRises(from, step, i, j - 1);
    }
  }

  /** No moment is due twice. */
  lemma OneSlice(from: int, step: int, i: nat, j: nat, moment: int)
    requires step >= 0 && InSlice(from, step, i, moment) && InSlice(from, step, j, moment)
    ensures i == j
  {
    if i < j {
      CursorRises(from, step, i + 1, j);
    } else if j < i {
      CursorRises(from, step, j + 1, i);
    }
  }

  lemma {:induction false} FindSlice(from: int, step: int, n: nat, moment: int) returns (i: nat)
    requires n > 0 && moment < Cursor(from, step, n)
    ensures i < n && InSlice(from, step, i, moment)
  {
    if n > 1 && moment < Cursor(from, step, n - 1) {
      i := FindSlice(from, step, n - 1, moment);
    } else {
      i := n - 1;
    }
  }

  /** The batch of a sweep has fewer than two payments exactly when its slice is sparse. */
  lemma BatchSparse(payments: seq<Utxo>, at: map<Utxo, int>, from: int, step: int, i: nat, batch: seq<Utxo>)
    requires (forall u | u in payments :: u in at) && NoRepeats(batch)
    requires forall u :: u in batch <==> u in payments && u in at && InSlice(from, step, i, at[u])
    ensures |batch| < 2 <==> Sparse(payments, at, from, step, i)
  {
    if |batch| >= 2 {
      assert batch[0] in batch && batch[1] in batch && batch[0] != batch[1];
    } else {
      forall u, w | u in batch && w in batch ensures u == w {
        assert u == batch[0] && w == batch[0];
      }
    }
  }

  /** Before sweep `i` of the market: what is still to come, and what was dropped, is unspent. */
  ghost predicate Held(payments: seq<Utxo>, at: map<Utxo, int>, from: int, step: int, i: nat, received: seq<Utxo>,
                       hot: bool, pool: map<Utxo, int>) {
    && (forall u | u in payments :: u in at) && AllIn(received, pool)
    && received == RemainsOf(payments, at, from, step, i)
    && (forall u | u in received :: u in pool && u in at && pool[u] == at[u])
    && (!hot <==> SparseUpTo(payments, at, from, step, i))
    && (forall u | u in payments && u in at :: u in pool <==>
          u in received || Dropped(payments, at, from, step, i, u))
  }

  /** What was made before the cursor, and the rest, both in order. */
  ghost predicate Split(received: seq<Utxo>, pool: map<Utxo, int>, cursor: int, batch: seq<Utxo>, rest: seq<Utxo>) {
    && AllIn(batch, pool) && AllIn(rest, pool)
    && batch == Filter(received, MadeBy(pool, cursor)) && rest == Filter(received, MadeFrom(pool, cursor))
  }

  lemma SplitHolds(received: seq<Utxo>, pool: map<Utxo, int>, cursor: int, batch: seq<Utxo>, rest: seq<Utxo>)
    requires Split(received, pool, cursor, batch, rest)
    ensures AllIn(batch, pool) && forall u | u in batch :: u in received && pool[u] < cursor
    ensures forall u | u in rest :: u in received
  {
    FilterHolds(received, MadeBy(pool, cursor));
    FilterHolds(received, MadeFrom(pool, cursor));
  }

  lemma SplitMore(received: seq<Utxo>, u: Utxo, pool: map<Utxo, int>, cursor: int, batch: seq<Utxo>, rest: seq<Utxo>)
    requires Split(received, pool, cursor, batch, rest) && AllIn(received + [u], pool)
    ensures if pool[u] < cursor then Split(received + [u], pool, cursor, batch + [u], rest)
      else Split(received + [u], pool, cursor, batch, rest + [u])
  {
    var more := received + [u];
    assert more[|received|] == u && u in more;
    assert forall i | 0 <= i < |received| :: more[i] == received[i];
    FilterMore(received, u, MadeBy(pool, cursor));
    FilterMore(received, u, MadeFrom(pool, cursor));
    FilterHolds(received, MadeBy(pool, cursor));
    FilterHolds(received, MadeFrom(pool, cursor));
  }

  lemma DroppedMore(payments: seq<Utxo>, at: map<Utxo, int>, from: int, step: int, i: nat, u: Utxo)
    requires u in at
    ensures Dropped(payments, at, from, step, i + 1, u) <==>
      (Dropped(payments, at, from, step, i, u) ||
       (InSlice(from, step, i, at[u]) && SparseUpTo(payments, at, from, step, i + 1)))
  {
    if Dropped(payments, at, from, step, i + 1, u) {
      var k: nat :| k < i + 1 && InSlice(from, step, k, at[u]) && SparseUpTo(payments, at, from, step, k + 1);
      assert k < i || k == i;
    }
  }

  lemma SplitSlices(payments: seq<Utxo>, at: map<Utxo, int>, from: int, step: int, i: nat, received: seq<Utxo>,
                    hot: bool, pool: map<Utxo, int>, batch: seq<Utxo>, rest: seq<Utxo>)
    requires step >= 0 && Held(payments, at, from, step, i, received, hot, pool)
    requires Split(received, pool, Cursor(from, step, i + 1), batch, rest)
    ensures batch == SliceOf(payments, at, from, step, i) && rest == RemainsOf(payments, at, from, step, i + 1)
    ensures |batch| < 2 <==> Sparse(payments, at, from, step, i)
  {
    SplitRemains(payments, at, pool, from, step, i);
    BatchSparse(payments, at, from, step, i, batch);
  }

  /** A sweep that spends its batch, because there are two of it or a hot output to go with it. */
  lemma SliceSwept(payments: seq<Utxo>, at: map<Utxo, int>, from: int, step: int, i: nat, received: seq<Utxo>,
                   hot: bool, pool: map<Utxo, int>, batch: seq<Utxo>, rest: seq<Utxo>, after: map<Utxo, int>)
    requires step >= 0 && Held(payments, at, from, step, i, received, hot, pool)
    requires Split(received, pool, Cursor(from, step, i + 1), batch, rest) && (hot || |batch| >= 2)
    requires forall u | u in payments :: u in after <==> u in pool && u !in batch
    requires forall u | u in payments && u in after :: after[u] == pool[u]
    ensures Held(payments, at, from, step, i + 1, rest, true, after)
  {
    hide Sparse, Filter, SliceOf, RemainsOf;
    SplitSlices(payments, at, from, step, i, received, hot, pool, batch, rest);
    assert !SparseUpTo(payments, at, from, step, i + 1);
    forall u | u in payments && u in at
      ensures u in after <==> u in rest || Dropped(payments, at, from, step, i + 1, u)
    {
      DroppedMore(payments, at, from, step, i, u);
      if Dropped(payments, at, from, step, i, u) && InSlice(from, step, i, at[u]) {
        var k: nat :| k < i && InSlice(from, step, k, at[u]);
        OneSlice(from, step, k, i, at[u]);
      }
      SliceOrRest(from, step, i, at[u]);
    }
  }

  lemma SliceOrRest(from: int, step: int, i: nat, moment: int)
    requires step >= 0
    ensures Remains(from, step, i, moment) <==> InSlice(from, step, i, moment) || Remains(from, step, i + 1, moment)
  {
    CursorRises(from, step, i, i + 1);
  }

  /** A sweep without two inputs spends nothing; a lone payment is out of the later batches all the same. */
  lemma SliceSkipped(payments: seq<Utxo>, at: map<Utxo, int>, from: int, step: int, i: nat, received: seq<Utxo>,
                     hot: bool, pool: map<Utxo, int>, batch: seq<Utxo>, rest: seq<Utxo>)
    requires step >= 0 && Held(payments, at, from, step, i, received, hot, pool)
    requires Split(received, pool, Cursor(from, step, i + 1), batch, rest)
    requires if hot then batch == [] else |batch| < 2
    ensures Held(payments, at, from, step, i + 1, rest, hot, pool)
  {
    hide Sparse, Filter, SliceOf, RemainsOf;
    SplitSlices(payments, at, from, step, i, received, hot, pool, batch, rest);
    forall u | u in payments && u in at
      ensures u in pool <==> u in rest || Dropped(payments, at, from, step, i + 1, u)
    {
      DroppedMore(payments, at, from, step, i, u);
      SliceOrRest(from, step, i, at[u]);
    }
  }

  lemma {:induction false} AllRemain(payments: seq<Utxo>, pool: map<Utxo, int>, from: int, step: int)
    requires forall u | u in payments :: u in pool
    ensures RemainsOf(payments, pool, from, step, 0) == payments
  {
    if payments != [] {
      var n := |payments| - 1;
      AllRemain(payments[..n], pool, from, step);
      assert payments[n] in payments && payments == payments[..n] + [payments[n]];
      assert RemainsAt(pool, from, step, 0)(payments[n]);
    }
  }

  lemma NothingSwept(payments: seq<Utxo>, pool: map<Utxo, int>, from: int, step: int)
    requires AllIn(payments, pool)
    ensures Held(payments, pool, from, step, 0, payments, false, pool)
  {
    AllRemain(payments, pool, from, step);
  }

  lemma HeldReceived(payments: seq<Utxo>, at: map<Utxo, int>, from: int, step: int, i: nat, received: seq<Utxo>,
                     hot: bool, pool: map<Utxo, int>)
    requires Held(payments, at, from, step, i, received, hot, pool)
    ensures AllIn(received, pool) && (forall u | u in received :: u in payments) && forall u | u in payments :: u in at
  {}

  lemma HeldEnd(payments: seq<Utxo>, at: map<Utxo, int>, from: int, step: int, n: nat, received: seq<Utxo>,
                hot: bool, pool: map<Utxo, int>)
    requires n > 0 && Held(payments, at, from, step, n, received, hot, pool)
    ensures !hot <==> SparseUpTo(payments, at, from, step, n)
    ensures forall u | u in payments && u in at ::
      u in pool <==> (Cursor(from, step, n) <= at[u] || Dropped(payments, at, from, step, n, u))
  {}

  /** The hot output is unspent, none of the payments, and made by 90 minutes after the last sweep. */
  ghost predicate HotWell(hot: Option<Utxo>, payments: seq<Utxo>, known: set<Utxo>, pool: map<Utxo, int>, cursor: int) {
    hot.Some? ==> && hot.value in pool && hot.value !in known && hot.value !in payments
                  && pool[hot.value] <= cursor + 90 * MINUTE
  }

  /** What goes into a market sweep is spendable. */
  lemma HotInputs(hot: Option<Utxo>, batch: seq<Utxo>, payments: seq<Utxo>, pool: map<Utxo, int>, cursor: int)
    requires AllIn(batch, pool) && forall u | u in batch :: u in payments && pool[u] < cursor
    requires hot.Some? ==> hot.value in pool && hot.value !in payments && pool[hot.value] < cursor
    ensures Spendable(pool, if hot.Some? then [hot.value] + batch else batch, cursor)
    ensures forall u | u in payments :: u in (if hot.Some? then [hot.value] + batch else batch) <==> u in batch
  {
    if hot.Some? {
      NoRepeatsJoin([hot.value], batch);
    }
  }

  /** When every payment before the last cursor is swept: exactly when the earliest one is not alone in its
      slice. */
  lemma AllSweptExactly(payments: seq<Utxo>, at: map<Utxo, int>, from: int, step: int, n: nat, first: Utxo, i: nat)
    requires step >= 0 && (forall u | u in payments :: u in at) && first in payments && i < n
    requires (forall u | u in payments :: at[first] <= at[u]) && InSlice(from, step, i, at[first])
    ensures (forall u | u in payments :: !Dropped(payments, at, from, step, n, u)) <==>
      !Sparse(payments, at, from, step, i)
  {
    if Sparse(payments, at, from, step, i) {
      forall j: nat | j < i + 1 ensures Sparse(payments, at, from, step, j) {
        if j < i {
          forall u | u in payments ensures !InSlice(from, step, j, at[u]) {
            CursorRises(from, step, j + 1, i);
          }
        }
      }
      assert Dropped(payments, at, from, step, n, first);
    } else {
      forall u | u in payments ensures !Dropped(payments, at, from, step, n, u) {
        forall k: nat | k < n && InSlice(from, step, k, at[u]) ensures !SparseUpTo(payments, at, from, step, k + 1) {
          if k < i {
            CursorRises(from, step, k + 1, i);
          }
        }
      }
    }
  }

  // ---- payments that are never swept --------------------------------------------------------

  /** Transactions, and the books that go with them. */
  ghost predicate Books(txs: seq<Tx>, pool: map<Utxo, int>, ever: set<Utxo>) {
    Disciplined(txs) && PoolOf(txs, pool) && EverOf(txs, ever) && pool.Keys <= ever
  }

  /** The name of the i-th transaction: `i + 1` letters. */
  function Name(i: nat): TxId { seq(i + 1, _ => 'a') }

  ghost predicate Numbered(txs: seq<Tx>) { forall i | 0 <= i < |txs| :: txs[i].txid == Name(i) }

  lemma NewName(txs: seq<Tx>)
    requires Numbered(txs)
    ensures forall tx | tx in txs :: tx.txid != Name(|txs|)
  {
    assert forall i: nat :: |Name(i)| == i + 1;
  }

  /** One more payment: its funding an hour before, and the payment at `moment`. */
  /** The terms of the example: within those of the market and of the merchant, the fee aside. */
  function ShopTerms(fee: int): Terms { Terms(["shop"], (200_000, 200_001), (30_000, 30_001), (HOUR, HOUR), fee) }

  lemma ShopPays(fund: Tx, pay: Tx, fee: int)
    requires fund.inputs == [] && fund.outputs == [("payer", 230_000)] && fund.moment == pay.moment - HOUR
    requires pay.inputs == OutputsOf(fund) && pay.outputs == [("shop", 200_000), ("payer", 30_000 - fee)]
    requires pay.fee == fee
    ensures Pays(fund, pay, ShopTerms(fee), Output(pay, 0))
  {}

  lemma OnePayment(txs: seq<Tx>, pool: map<Utxo, int>, ever: set<Utxo>, moment: int, fee: int)
    returns (more: seq<Tx>, after: map<Utxo, int>, known: set<Utxo>, paid: Utxo)
    requires Books(txs, pool, ever) && Numbered(txs) && 0 <= fee <= 30_000
    ensures Books(more, after, known) && Numbered(more) && ever <= known && Keeps(pool, after, ever, [])
    ensures txs <= more && |more| == |txs| + 2
    ensures Pays(more[|txs|], more[|txs| + 1], ShopTerms(fee), paid)
    ensures paid in after && after[paid] == moment && paid !in ever
  {
    hide Books, Pays;
    var fund := Tx(Name(|txs|), moment - HOUR, [], [("payer", 230_000)], 0);
    NewName(txs);
    AddBooks(txs, pool, ever, fund);
    var middle, held, made := txs + [fund], PoolAfter(pool, fund), ever + set u | u in OutputsOf(fund);
    var pay := Tx(Name(|middle|), moment, OutputsOf(fund), [("shop", 200_000), ("payer", 30_000 - fee)], fee);
    NewName(middle);
    assert OutputsOf(fund) == [OutputsOf(fund)[0]];
    SumSingle(OutputsOf(fund)[0]);
    SumTwo(pay.outputs[0], pay.outputs[1]);
    AddBooks(middle, held, made, pay);
    more, after, known := middle + [pay], PoolAfter(held, pay), made + set u | u in OutputsOf(pay);
    paid := Output(pay, 0);
    assert paid in OutputsOf(pay);
    ShopPays(fund, pay, fee);
    FundingGone(pool, held, after, ever, made, OutputsOf(fund), moment - HOUR, OutputsOf(pay), moment);
  }

  lemma AddBooks(txs: seq<Tx>, pool: map<Utxo, int>, ever: set<Utxo>, tx: Tx)
    requires Books(txs, pool, ever) && (forall p | p in txs :: p.txid != tx.txid)
    requires Spendable(pool, tx.inputs, tx.moment)
    requires tx.inputs != [] ==> SumUtxos(tx.inputs) == SumOutputs(tx.outputs) + tx.fee && tx.fee >= 0
    ensures Books(txs + [tx], PoolAfter(pool, tx), ever + set u | u in OutputsOf(tx)) && pool.Keys <= ever
    ensures Moves(pool, PoolAfter(pool, tx), ever, tx.inputs, OutputsOf(tx), tx.moment)
  {
    hide Disciplined, PoolOf, EverOf;
    AddTransaction(txs, pool, ever, tx);
  }

  /** A funding that comes and goes leaves what was unspent before. */
  lemma FundingGone(pool: map<Utxo, int>, held: map<Utxo, int>, after: map<Utxo, int>,
                    ever: set<Utxo>, made: set<Utxo>, funded: seq<Utxo>, first: int,
                    paid: seq<Utxo>, moment: int)
    requires Moves(pool, held, ever, [], funded, first) && Moves(held, after, made, funded, paid, moment)
    requires pool.Keys <= ever && made == ever + set u | u in funded
    ensures Keeps(pool, after, ever, []) && forall u | u in paid :: u in after && after[u] == moment && u !in ever
  {}

  /** `n` payments, the first at `from`, the others at `late`. */
  lemma {:induction false} SomePayments(n: nat, from: int, late: int, fee: int)
    returns (txs: seq<Tx>, pool: map<Utxo, int>, ever: set<Utxo>, paid: seq<Utxo>)
    requires 0 <= fee <= 30_000
    ensures Books(txs, pool, ever) && Numbered(txs) && |txs| == 2 * n
    ensures |paid| == n && AllIn(paid, pool) && AllPay(txs, 0, ShopTerms(fee), paid)
    ensures forall i | 0 <= i < n :: pool[paid[i]] == if i == 0 then from else late
  {
    hide Books, AllPay, Pays;
    if n == 0 {
      txs, pool, ever, paid := [], map[], {}, [];
      NoBooks();
      NoPayments(txs, ShopTerms(fee));
    } else {
      txs, pool, ever, paid := SomePayments(n - 1, from, late, fee);
      BooksKnow(txs, pool, ever);
      var more, after, known, one := OnePayment(txs, pool, ever, if n == 1 then from else late, fee);
      AllPayMore(txs, more, 0, ShopTerms(fee), paid, one);
      txs, pool, ever, paid := more, after, known, paid + [one];
    }
  }

  lemma NoBooks()
    ensures Books([], map[], {})
  {}

  lemma BooksKnow(txs: seq<Tx>, pool: map<Utxo, int>, ever: set<Utxo>)
    requires Books(txs, pool, ever)
    ensures pool.Keys <= ever
  {}

  /** A ledger of forty payments with their fundings, one payment at the start and the others a step later:
      neither the market, for a fee of 900, nor the merchant, for one of 800, ever sweeps the first. */
  lemma LonePayment(from: int, step: int, n: nat, fee: int)
    returns (txs: seq<Tx>, pool: map<Utxo, int>, ever: set<Utxo>, payments: seq<Utxo>)
    requires step > 0 && n > 0 && 0 <= fee <= 30_000
    ensures Books(txs, pool, ever) && |txs| == 80 && |payments| == 40 && AllIn(payments, pool)
    ensures AllPay(txs, 0, ShopTerms(fee), payments)
    ensures forall i | 0 <= i < 40 :: pool[payments[i]] == if i == 0 then from else from + step
    ensures Dropped(payments, pool, from, step, n, payments[0])
    ensures LoneInWeek(payments, pool, from, step, n, payments[0])
  {
    hide Books, AllPay;
    txs, pool, ever, payments := SomePayments(40, from, from + step, fee);
    assert Cursor(from, step, 1) == from + step;
    assert InSlice(from, step, 0, pool[payments[0]]);
    forall u | u in payments && InSlice(from, step, 0, pool[u]) ensures u == payments[0] {
      var i :| 0 <= i < 40 && payments[i] == u;
    }
    assert SparseUpTo(payments, pool, from, step, 1) && Sparse(payments, pool, from, step, 0);
  }

  // ---- the weekly sweeps of the merchant -----------------------------------------------------

  /** Due at one of the first `n` weekly sweeps, alone. */
  ghost predicate LoneInWeek(payments: seq<Utxo>, at: map<Utxo, int>, from: int, step: int, n: nat, u: Utxo)
    requires u in at
  {
    exists i: nat :: i < n && InSlice(from, step, i, at[u]) && Sparse(payments, at, from, step, i)
  }

  ghost predicate HeldByWeek(payments: seq<Utxo>, at: map<Utxo, int>, from: int, step: int, i: nat,
                             received: seq<Utxo>, pool: map<Utxo, int>) {
    && (forall u | u in payments :: u in at) && AllIn(received, pool)
    && received == RemainsOf(payments, at, from, step, i)
    && (forall u | u in received :: u in pool && u in at && pool[u] == at[u])
    && (forall u | u in payments && u in at :: u in pool <==>
          u in received || LoneInWeek(payments, at, from, step, i, u))
  }

  lemma LoneMore(payments: seq<Utxo>, at: map<Utxo, int>, from: int, step: int, i: nat, u: Utxo)
    requires u in at
    ensures LoneInWeek(payments, at, from, step, i + 1, u) <==>
      (LoneInWeek(payments, at, from, step, i, u) ||
       (InSlice(from, step, i, at[u]) && Sparse(payments, at, from, step, i)))
  {
    if LoneInWeek(payments, at, from, step, i + 1, u) {
      var k: nat :| k < i + 1 && InSlice(from, step, k, at[u]) && Sparse(payments, at, from, step, k);
      assert k < i || k == i;
    }
  }

  /** A week's batch is spent exactly when there are two of it. */
  lemma WeekDone(payments: seq<Utxo>, at: map<Utxo, int>, from: int, step: int, i: nat, received: seq<Utxo>,
                 pool: map<Utxo, int>, batch: seq<Utxo>, rest: seq<Utxo>, after: map<Utxo, int>)
    requires step >= 0 && HeldByWeek(payments, at, from, step, i, received, pool)
    requires Split(received, pool, Cursor(from, step, i + 1), batch, rest)
    requires forall u | u in payments :: u in after <==> u in pool && (|batch| < 2 || u !in batch)
    requires forall u | u in payments && u in after :: after[u] == pool[u]
    ensures HeldByWeek(payments, at, from, step, i + 1, rest, after)
  {
    hide Sparse, Filter, SliceOf, RemainsOf;
    SplitRemains(payments, at, pool, from, step, i);
    BatchSparse(payments, at, from, step, i, batch);
    forall u | u in payments && u in at
      ensures u in after <==> u in rest || LoneInWeek(payments, at, from, step, i + 1, u)
    {
      LoneMore(payments, at, from, step, i, u);
      if LoneInWeek(payments, at, from, step, i, u) && InSlice(from, step, i, at[u]) {
        var k: nat :| k < i && InSlice(from, step, k, at[u]);
        OneSlice(from, step, k, i, at[u]);
      }
      SliceOrRest(from, step, i, at[u]);
    }
  }

  lemma WeekReceived(payments: seq<Utxo>, at: map<Utxo, int>, from: int, step: int, i: nat, received: seq<Utxo>,
                     pool: map<Utxo, int>)
    requires HeldByWeek(payments, at, from, step, i, received, pool)
    ensures AllIn(received, pool) && forall u | u in received :: u in payments
  {}

  lemma WeekEnd(payments: seq<Utxo>, at: map<Utxo, int>, from: int, step: int, n: nat, received: seq<Utxo>,
                pool: map<Utxo, int>)
    requires n > 0 && HeldByWeek(payments, at, from, step, n, received, pool)
    ensures forall u | u in payments && u in at ::
      u in pool <==> (Cursor(from, step, n) <= at[u] || LoneInWeek(payments, at, from, step, n, u))
  {}

  lemma {:induction false} CursorProduct(from: int, step: int, i: nat)
    ensures Cursor(from, step, i) == from + i * step
  {
    if i > 0 {
      CursorProduct(from, step, i - 1);
      assert i * step == (i - 1) * step + step;
    }
  }

  lemma NoWeekDone(payments: seq<Utxo>, pool: map<Utxo, int>, from: int, step: int)
    requires AllIn(payments, pool)
    ensures HeldByWeek(payments, pool, from, step, 0, payments, pool)
  {
    AllRemain(payments, pool, from, step);
  }

  lemma StepIsLong(span: nat, sweeps: nat)
    requires 6 * DAY <= span && 6 <= sweeps < 11
    ensures span / sweeps > 90 * MINUTE
  {
    var step := span / sweeps;
    assert span == step * sweeps + span % sweeps;
    assert step <= 90 * MINUTE ==> step * sweeps <= 90 * MINUTE * 10;
  }

  lemma {:induction false} EqualOutputs(outputs: seq<(Address, int)>, amount: int)
    requires forall i | 0 <= i < |outputs| :: outputs[i].1 == amount
    ensures SumOutputs(outputs) == amount * |outputs|
  {
    if outputs != [] {
      EqualOutputs(outputs[..|outputs| - 1], amount);
    }
  }

  lemma NothingConsolidated(victims: seq<Utxo>, pool: map<Utxo, int>, ever: set<Utxo>)
    requires AllIn(victims, pool) && pool.Keys <= ever
    ensures Consolidating(victims, 0, None, pool, ever, pool, ever)
  {}

  lemma AllConsolidated(victims: seq<Utxo>, held: Option<Utxo>, before: map<Utxo, int>, known: set<Utxo>,
                        pool: map<Utxo, int>, ever: set<Utxo>)
    requires Consolidating(victims, |victims|, held, before, known, pool, ever) && held.Some?
    ensures Keeps(before, pool, known, victims) && NoneIn(victims, pool)
    ensures known <= ever && held.value !in known && held.value in pool
  {}

  /** What goes into a round is unspent. */
  lemma RoundBatch(victims: seq<Utxo>, cut: nat, next: nat, held: Option<Utxo>, before: map<Utxo, int>,
                   known: set<Utxo>, pool: map<Utxo, int>, ever: set<Utxo>)
    requires Consolidating(victims, cut, held, before, known, pool, ever) && before.Keys <= known
    requires cut <= next <= |victims| && (held.Some? || cut < next)
    ensures var batch := (if held.Some? then [held.value] else []) + victims[cut..next];
      batch != [] && AllIn(batch, pool)
  {
    if held.Some? {
      NoRepeatsJoin([held.value], victims[cut..next]);
    } else {
      assert [] + victims[cut..next] == victims[cut..next];
    }
  }

  lemma RoundDone(victims: seq<Utxo>, cut: nat, next: nat, held: Option<Utxo>, before: map<Utxo, int>, known: set<Utxo>,
                  pool0: map<Utxo, int>, ever0: set<Utxo>, pool: map<Utxo, int>, ever: set<Utxo>, carry: Utxo)
    requires Consolidating(victims, cut, held, before, known, pool0, ever0) && before.Keys <= known
    requires cut <= next <= |victims| && ever0 <= ever
    requires var batch := (if held.Some? then [held.value] else []) + victims[cut..next];
      Keeps(pool0, pool, ever0, batch) && NoneIn(batch, pool)
    requires carry in pool && carry !in ever0
    ensures Consolidating(victims, next, Some(carry), before, known, pool, ever)
  {
    var batch := (if held.Some? then [held.value] else []) + victims[cut..next];
    forall i | 0 <= i < |victims| ensures victims[i] in pool <==> next <= i {
      if cut <= i < next {
        assert victims[cut..next][i - cut] == victims[i];
        assert victims[i] in batch;
      } else if next <= i {
        assert victims[i] !in victims[cut..next];
        assert victims[i] !in batch;
      }
    }
    forall u | u in before && u !in victims ensures u in pool && pool[u] == before[u] {
      assert u !in batch;
    }
  }

  /** Where the slice of a round ends: `min(round * size, n)`. */
  function RoundEnd(round: nat, size: nat, n: nat): nat {
    if round * size < n then round * size else n
  }

  /** The victims of round `i`. */
  function RoundOf(victims: seq<Utxo>, size: nat, i: nat): seq<Utxo> {
    var low, high := RoundEnd(i, size, |victims|), RoundEnd(i + 1, size, |victims|);
    if low <= high then victims[low..high] else []
  }

  /** How many victims go into one round. */
  function RoundSize(n: nat, rounds: nat): nat
    requires rounds > 0
  {
    var ceiling := (n + rounds - 1) / rounds;
    if ceiling < 2 then 2 else ceiling
  }

  /** It is the least size, but at least 2, with which the rounds take all victims. */
  lemma RoundSizeIsLeast(n: nat, rounds: nat, size: nat)
    requires rounds > 0
    ensures size >= RoundSize(n, rounds) <==> size >= 2 && rounds * size >= n
  {
    var q, m := (n + rounds - 1) / rounds, n + rounds - 1;
    var full := rounds * q;
    assert full <= m < full + rounds;
    if size >= q {
      Multiples(rounds, q, size);
    } else {
      Multiples(rounds, size, q - 1);
      assert rounds * (q - 1) == full - rounds;
    }
  }

  lemma Multiples(k: nat, a: nat, b: nat)
    requires a <= b
    ensures k * a <= k * b
  {}

  lemma NextRoundEnd(round: nat, size: nat, n: nat)
    ensures RoundEnd(round + 1, size, n) ==
      if RoundEnd(round, size, n) + size < n then RoundEnd(round, size, n) + size else n
  {
    assert (round + 1) * size == round * size + size;
  }

  lemma RoundIs(victims: seq<Utxo>, size: nat, i: nat, cut: nat, next: nat)
    requires cut == RoundEnd(i, size, |victims|) && next == RoundEnd(i + 1, size, |victims|)
    ensures cut <= next ==> RoundOf(victims, size, i) == victims[cut..next]
  {}

  lemma CeilingCovers(n: nat, rounds: nat, size: nat)
    requires rounds >= 2 && size >= (n + rounds - 1) / rounds
    ensures RoundEnd(rounds, size, n) == n
  {
    var q := (n + rounds - 1) / rounds;
    assert rounds * q + (n + rounds - 1) % rounds == n + rounds - 1;
    assert rounds * size >= rounds * q;
  }
}
