/** The scenario injector of generator.py. Random draws are arbitrary values of the drawn range;
    moments count microseconds. */
module Injection {
  import opened Wrappers
  import opened Ledger
  import opened InjectedLedger
  import opened InjectionShapes
  import opened DailySweeps
  import opened SliceSweeps

  class Injector {
    // SHA-256 and BLAKE2 of the n-th token; a token holds the counter, so no two are equal.
    const digest: nat -> string
    const start: int
    const end: int
    var txs: seq<Tx>
    var counter: nat
    var deposits: seq<Address>
    var exchange: seq<Utxo>           // what `receive_at_exchange` collected
    ghost var pool: map<Utxo, int>    // the unspent outputs, with the moment each was made
    ghost var ever: set<Utxo>         // every output made so far

    ghost predicate IssuedId(txid: TxId)
      reads this`counter
    {
      exists n: nat :: n <= counter && txid == digest(n)
    }

    ghost predicate Valid()
      reads this
    {
      && start <= end
      && (forall m: nat, n: nat :: digest(m) == digest(n) ==> m == n)
      && (forall tx | tx in txs :: IssuedId(tx.txid))
      && Disciplined(txs)
      && PoolOf(txs, pool) && EverOf(txs, ever) && pool.Keys <= ever
    }

    /** Every deposit the exchange has received is unspent. */
    ghost predicate ExchangeOk()
      reads this
    {
      AllIn(exchange, pool) && (deposits == [] ==> exchange == [])
    }

    constructor (digest: nat -> string, start: int, end: int)
      requires start <= end && forall m: nat, n: nat :: digest(m) == digest(n) ==> m == n
      ensures Valid() && ExchangeOk() && txs == []
    {
      this.digest, this.start, this.end := digest, start, end;
      txs, counter, deposits, exchange, pool, ever := [], 0, [], [], map[], {};
    }

    /** `_token`: the next digest, for a txid or an address. */
    method Token() returns (token: string)
      modifies this`counter
      ensures counter == old(counter) + 1 && token == digest(counter)
      ensures old(Valid()) ==> Valid() && forall tx | tx in txs :: tx.txid != token
    {
      hide Disciplined, PoolOf, EverOf;
      counter := counter + 1;
      token := digest(counter);
      if old(Valid()) {
        forall tx | tx in txs ensures IssuedId(tx.txid) && tx.txid != token {
          assert old(IssuedId(tx.txid));
        }
      }
    }

    method When() returns (moment: int)
      requires Valid()
      ensures start <= moment <= end
    {
      moment :| start <= moment <= end;
    }

    /** `_time_of`: the moment of the transaction that made `u`. */
    method TimeOf(u: Utxo) returns (moment: int)
      requires Valid() && u in pool
      ensures moment == pool[u]
    {
      ghost var maker :| maker in txs && Makes(maker, u);
      var i := 0;
      while txs[i].txid != u.txid
        invariant 0 <= i < |txs| && forall j | 0 <= j < i :: txs[j].txid != u.txid
        decreases |txs| - i
      {
        assert maker in txs[i + 1..];
        i := i + 1;
      }
      ghost var m :| 0 <= m < |txs| && txs[m] == maker;
      moment := txs[i].moment;
    }

    /** The latest moment of a batch. */
    method Latest(batch: seq<Utxo>) returns (latest: int)
      requires Valid() && batch != [] && forall u | u in batch :: u in pool
      ensures forall u | u in batch :: pool[u] <= latest
      ensures exists u :: u in batch && pool[u] == latest
    {
      hide Disciplined, PoolOf, EverOf;
      latest := TimeOf(batch[0]);
      for i := 1 to |batch|
        invariant forall j | 0 <= j < i :: pool[batch[j]] <= latest
        invariant exists u :: u in batch && pool[u] == latest
      {
        var moment := TimeOf(batch[i]);
        if moment > latest {
          latest := moment;
        }
      }
    }

    /** Appending to `txs`. A new transaction that spends from the pool keeps the books. */
    method Append(tx: Tx) returns (made: seq<Utxo>)
      modifies this`txs, this`pool, this`ever
      ensures txs == old(txs) + [tx] && made == OutputsOf(tx) && ever == old(ever) + set u | u in made
      ensures old(Valid()) && IssuedId(tx.txid) && SpendsRightly(old(txs), old(pool), tx) ==>
        Valid() && Moves(old(pool), pool, old(ever), tx.inputs, made, tx.moment)
    {
      hide Disciplined, PoolOf, EverOf, Moves;
      if Valid() && IssuedId(tx.txid) && SpendsRightly(txs, pool, tx) {
        AddTransaction(txs, pool, ever, tx);
      }
      txs, pool, ever := txs + [tx], PoolAfter(pool, tx), ever + set u | u in OutputsOf(tx);
      made := OutputsOf(tx);
    }

    /** `fund`: a transaction that mints its outputs. */
    method Fund(moment: int, outputs: seq<(Address, int)>) returns (made: seq<Utxo>)
      modifies this`txs, this`counter, this`pool, this`ever
      ensures Extends(old(txs), txs, moment, [], outputs, 0) && made == OutputsOf(txs[|old(txs)|])
      ensures ever == old(ever) + set u | u in made
      ensures old(Valid()) ==> Valid() && Moves(old(pool), pool, old(ever), [], made, moment)
    {
      hide Disciplined, PoolOf, EverOf, Moves;
      var txid := Token();
      made := Append(Tx(txid, moment, [], outputs, 0));
    }

    /** `spend`: it refuses to create value, and otherwise moves the inputs' value to the outputs and
        records the whole difference as the fee. It does not ask whether the inputs are unspent. */
    method Spend(moment: int, inputs: seq<Utxo>, outputs: seq<(Address, int)>, fee: int)
      returns (r: Result<seq<Utxo>, string>)
      modifies this`txs, this`counter, this`pool, this`ever
      ensures r.Ok? <==> SumOutputs(outputs) + fee <= SumUtxos(inputs)
      ensures r.Err? ==> txs == old(txs) && pool == old(pool) && ever == old(ever) && counter == old(counter)
      ensures r.Ok? ==> Extends(old(txs), txs, moment, inputs, outputs, SumUtxos(inputs) - SumOutputs(outputs))
      ensures r.Ok? ==> r.value == OutputsOf(txs[|old(txs)|]) && ever == old(ever) + set u | u in r.value
      ensures r.Ok? && old(Valid()) && fee >= 0 && Spendable(old(pool), inputs, moment) ==>
        Valid() && Moves(old(pool), pool, old(ever), inputs, r.value, moment)
    {
      hide Disciplined, PoolOf, EverOf, Moves, Spendable;
      var total, paidOut := SumUtxos(inputs), SumOutputs(outputs);
      if paidOut + fee > total {
        return Err("scenario transaction would create value");
      }
      var txid := Token();
      var made := Append(Tx(txid, moment, inputs, outputs, total - paidOut));
      r := Ok(made);
    }

    /** `exchange_deposit`: a new deposit address. */
    method Deposit() returns (address: Address)
      requires Valid()
      modifies this`counter, this`deposits
      ensures Valid() && deposits == old(deposits) + [address]
      ensures counter == old(counter) + 1 && address == digest(counter)
    {
      hide Disciplined, PoolOf, EverOf;
      address := Token();
      deposits := deposits + [address];
    }

    /** `receive_at_exchange`. */
    method Receive(utxos: seq<Utxo>)
      requires Valid() && ExchangeOk() && AllIn(utxos, pool) && forall u | u in utxos :: u !in exchange
      modifies this`exchange, this`counter, this`deposits
      ensures Valid() && ExchangeOk() && exchange == old(exchange) + utxos && deposits != []
      ensures old(deposits) != [] ==> deposits == old(deposits) && counter == old(counter)
    {
      hide Disciplined, PoolOf, EverOf;
      if deposits == [] {
        var _ := Deposit();
      }
      NoRepeatsJoin(exchange, utxos);
      exchange := exchange + utxos;
    }

    method Addresses(count: nat) returns (addresses: seq<Address>)
      requires Valid()
      modifies this`counter
      ensures Valid() && |addresses| == count
    {
      hide Disciplined, PoolOf, EverOf;
      addresses := [];
      for i := 0 to count
        invariant Valid() && |addresses| == i
      {
        var address := Token();
        addresses := addresses + [address];
      }
    }

    // ---- payments -----------------------------------------------------------------

    /** One payer is funded `gap` before and pays `price` to `target`, keeping the change. */
    method Payment(moment: int, target: Address, gap: int, price: int, extra: int, fee: int) returns (paid: Utxo)
      requires Valid() && gap > 0 && extra >= fee >= 0
      modifies this`txs, this`counter, this`pool, this`ever
      ensures Valid() && Keeps(old(pool), pool, old(ever), []) && old(ever) <= ever
      ensures paid !in old(ever) && paid in pool && pool[paid] == moment && paid.amount == price
      ensures old(txs) <= txs && |txs| == |old(txs)| + 2
      ensures Pays(txs[|old(txs)|], txs[|old(txs)| + 1],
                   Terms([target], (price, price + 1), (extra, extra + 1), (gap, gap), fee), paid)
    {
      hide Disciplined, PoolOf, EverOf;
      var payer := Token();
      var funded := Fund(moment - gap, [(payer, price + extra)]);
      var change := Token();
      var outputs := [(target, price), (change, funded[0].amount - price - fee)];
      assert funded == [funded[0]];
      SumSingle(funded[0]);
      SumTwo(outputs[0], outputs[1]);
      var r := Spend(moment, funded, outputs, fee);
      paid := r.value[0];
      assert paid in r.value;
    }

    /** `count` payments between `from` and `from + span`. */
    method Payments(count: nat, terms: Terms, from: int, span: nat) returns (paid: seq<Utxo>)
      requires Valid() && terms.targets != [] && terms.price.0 < terms.price.1
      requires 0 <= terms.fee <= terms.extra.0 < terms.extra.1 && 0 < terms.gap.0 <= terms.gap.1
      modifies this`txs, this`counter, this`pool, this`ever
      ensures Valid() && Keeps(old(pool), pool, old(ever), []) && old(ever) <= ever
      ensures |paid| == count && AllIn(paid, pool) && NewTo(paid, old(ever))
      ensures forall u | u in paid :: u in pool && from <= pool[u] <= from + span
      ensures Appended(old(txs), txs, 2 * count, 2 * count) && AllPay(txs, |old(txs)|, terms, paid)
    {
      hide Disciplined, PoolOf, EverOf, Pays, AllPay;
      paid := [];
      NoPayments(txs, terms);
      for i := 0 to count
        invariant Valid() && Keeps(old(pool), pool, old(ever), []) && old(ever) <= ever
        invariant |paid| == i && AllIn(paid, pool) && NewTo(paid, old(ever))
        invariant forall u | u in paid :: u in pool && from <= pool[u] <= from + span
        invariant old(txs) <= txs && |txs| == |old(txs)| + 2 * i
        invariant AllPay(txs, |old(txs)|, terms, paid)
      {
        var moment: int :| from <= moment <= from + span;
        var amount: int :| terms.price.0 <= amount < terms.price.1;
        var more: int :| terms.extra.0 <= more < terms.extra.1;
        var before: int :| terms.gap.0 <= before <= terms.gap.1;
        var k :| 0 <= k < |terms.targets|;
        ghost var txs0 := txs;
        var one := Payment(moment, terms.targets[k], before, amount, more, terms.fee);
        PaysAmong(txs[|txs0|], txs[|txs0| + 1], terms, k, amount, more, before, one);
        AllPayMore(txs0, txs, |old(txs)|, terms, paid, one);
        Prefixes(old(txs), txs0, txs);
        paid := paid + [one];
      }
    }

    /** `sort(key=_time_of)`: by moment, equal ones in the order they came. */
    method SortByTime(utxos: seq<Utxo>) returns (sorted: seq<Utxo>)
      requires Valid() && AllIn(utxos, pool)
      ensures InTimeOrder(utxos, pool, sorted)
    {
      hide Disciplined, PoolOf, EverOf, InTimeOrder;
      sorted := [];
      NoneInOrder(pool);
      for i := 0 to |utxos|
        invariant InTimeOrder(utxos[..i], pool, sorted)
      {
        var moment := TimeOf(utxos[i]);
        InOrder(utxos[..i], pool, sorted);
        var k := |sorted|;
        while k > 0
          invariant 0 <= k <= |sorted| && forall j | k <= j < |sorted| :: moment < pool[sorted[j]]
        {
          var other := TimeOf(sorted[k - 1]);
          if other <= moment {
            break;
          }
          k := k - 1;
        }
        InsertInOrder(utxos[..i], pool, sorted, utxos[i], k);
        assert utxos[..i + 1] == utxos[..i] + [utxos[i]];
        sorted := sorted[..k] + [utxos[i]] + sorted[k..];
      }
      assert utxos[..|utxos|] == utxos;
    }

    /** One transaction moves a whole batch, less the fee, to one address. */
    method Sweep(batch: seq<Utxo>, moment: int, target: Address, fee: int) returns (swept: Utxo)
      requires Valid() && fee >= 0 && batch != [] && Spendable(pool, batch, moment)
      modifies this`txs, this`counter, this`pool, this`ever
      ensures Valid() && Keeps(old(pool), pool, old(ever), batch) && NoneIn(batch, pool) && old(ever) <= ever
      ensures swept !in old(ever) && swept in pool && pool[swept] == moment
      ensures Extends(old(txs), txs, moment, batch, [(target, SumUtxos(batch) - fee)], fee)
      ensures swept.address == target && swept.amount == SumUtxos(batch) - fee && swept == Output(txs[|old(txs)|], 0)
    {
      hide Disciplined, PoolOf, EverOf;
      var total := SumUtxos(batch);
      SumOne((target, total - fee));
      var r := Spend(moment, batch, [(target, total - fee)], fee);
      swept := r.value[0];
      assert swept in r.value;
      MovesKeep(old(pool), pool, old(ever), batch, r.value, moment);
    }

    // ---- ransomware ---------------------------------------------------------------

    /** The consolidation rounds: each also spends the output of the one before, and together they
        spend every victim payment. */
    method Consolidate(victims: seq<Utxo>, rounds: nat) returns (carry: Utxo)
      requires Valid() && rounds >= 2 && victims != [] && AllIn(victims, pool)
      modifies this`txs, this`counter, this`pool, this`ever
      ensures Valid() && Keeps(old(pool), pool, old(ever), victims) && old(ever) <= ever
      ensures NoneIn(victims, pool)
      ensures carry !in old(ever) && carry in pool
      ensures Appended(old(txs), txs, rounds, rounds) && pool[carry] == txs[|txs| - 1].moment
      ensures CarryChain(txs[|old(txs)|..], victims, RoundSize(|victims|, rounds), carry)
    {
      hide Disciplined, PoolOf, EverOf, CarryChain, RoundOf, Consolidating, Carries, Keeps, Follows;
      NothingConsolidated(victims, pool, ever);
      var n := |victims|;
      var size := (n + rounds - 1) / rounds;
      if size < 2 { size := 2; }
      var held: Option<Utxo> := None;
      var cut: nat := 0;
      for round := 0 to rounds
        invariant Valid() && Consolidating(victims, cut, held, old(pool), old(ever), pool, ever)
        invariant held.Some? <==> round > 0
        invariant cut == RoundEnd(round, size, n)
        invariant old(txs) <= txs && |txs| == |old(txs)| + round
        invariant held.Some? ==> held.value in pool && |txs| > 0 && pool[held.value] == txs[|txs| - 1].moment
        invariant held.Some? ==> CarryChain(txs[|old(txs)|..], victims, size, held.value)
      {
        var next := if cut + size < n then cut + size else n;
        NextRoundEnd(round, size, n);
        ghost var txs0 := txs;
        var one := Round(victims, cut, next, held, old(pool), old(ever));
        Prefixes(old(txs), txs0, txs);
        Suffix(txs0, txs, |old(txs)|);
        RoundIs(victims, size, round, cut, next);
        CarryMore(txs0[|old(txs)|..], txs[|txs0|], victims, size, held, one);
        held, cut := Some(one), next;
      }
      CeilingCovers(n, rounds, size);
      AllConsolidated(victims, held, old(pool), old(ever), pool, ever);
      carry := held.value;
    }

    method Round(victims: seq<Utxo>, cut: nat, next: nat, held: Option<Utxo>,
                 ghost before: map<Utxo, int>, ghost known: set<Utxo>) returns (carry: Utxo)
      requires Valid() && Consolidating(victims, cut, held, before, known, pool, ever) && before.Keys <= known
      requires cut <= next <= |victims| && (held.Some? || cut < next)
      modifies this`txs, this`counter, this`pool, this`ever
      ensures Valid() && Consolidating(victims, next, Some(carry), before, known, pool, ever)
      ensures old(txs) <= txs && |txs| == |old(txs)| + 1
      ensures Carries(txs[|old(txs)|], held, victims[cut..next], carry)
      ensures carry in pool && pool[carry] == txs[|old(txs)|].moment
      ensures Follows(txs[|old(txs)|].moment, txs[|old(txs)|].inputs, old(pool), HOUR, 18 * HOUR)
    {
      hide Disciplined, PoolOf, EverOf, Consolidating, Follows;
      var batch := (if held.Some? then [held.value] else []) + victims[cut..next];
      RoundBatch(victims, cut, next, held, before, known, pool, ever);
      ghost var pool0, ever0 := pool, ever;
      var latest := Latest(batch);
      var gap: int :| HOUR <= gap <= 18 * HOUR;
      AfterLatest(batch, pool, latest, gap, HOUR, 18 * HOUR);
      var target := Token();
      carry := Sweep(batch, latest + gap, target, 4_000);
      RoundDone(victims, cut, next, held, before, known, pool0, ever0, pool, ever, carry);
    }

    /** The peeling chain from the last consolidation: each hop spends the change of the one before, and
        some peels land at the exchange. */
    method Peel(carry: Utxo) returns (last: Utxo)
      requires Valid() && ExchangeOk() && carry in pool && carry !in exchange
      modifies this
      ensures Valid() && ExchangeOk() && last in pool && last !in exchange
      ensures Appended(old(txs), txs, 4, 8) && PeelChain(txs[|old(txs)|..], carry, old(pool)[carry], last)
    {
      hide Disciplined, PoolOf, EverOf, PeelChain, Peels;
      var moment := TimeOf(carry);
      last := carry;
      NoPeel(txs, carry, pool[carry]);
      var hops: nat :| 4 <= hops < 9;
      for hop := 0 to hops
        invariant Valid() && ExchangeOk() && last in pool && last !in exchange && pool[last] == moment
        invariant old(txs) <= txs && |txs| == |old(txs)| + hop
        invariant PeelChain(txs[|old(txs)|..], carry, old(pool)[carry], last)
        invariant PeeledAt(txs[|old(txs)|..], old(pool)[carry], hop) == moment
      {
        var wait: int :| 4 * MINUTE <= wait <= 600 * MINUTE;
        moment := moment + wait;
        ghost var txs0, before := txs, last;
        last := Hop(moment, last);
        Prefixes(old(txs), txs0, txs);
        Suffix(txs0, txs, |old(txs)|);
        PeelMore(txs0[|old(txs)|..], txs[|txs0|], carry, old(pool)[carry], before, last);
      }
    }

    /** One peel spends the whole output; its second output is the next change, and the first lands at the
        exchange if it goes to a deposit. */
    method Hop(moment: int, current: Utxo) returns (change: Utxo)
      requires Valid() && ExchangeOk() && current in pool && current !in exchange && pool[current] < moment
      modifies this
      ensures Valid() && ExchangeOk() && change in pool && change !in exchange && pool[change] == moment
      ensures current !in pool && old(txs) <= txs && |txs| == |old(txs)| + 1 && Peels(txs[|old(txs)|], current, change)
      ensures txs[|old(txs)|].moment == moment
      ensures exchange == old(exchange) + if |deposits| > |old(deposits)| then [Output(txs[|old(txs)|], 0)] else []
    {
      hide Disciplined, PoolOf, EverOf;
      var peel: int := *;
      var cashedOut: bool := *;
      var destination: Address;
      if cashedOut { destination := Deposit(); } else { destination := Token(); }
      var address := Token();
      var fee: int :| 400 <= fee < 2_000;
      var outputs := [(destination, peel), (address, current.amount - peel - fee)];
      SumSingle(current);
      SumTwo(outputs[0], outputs[1]);
      var r := Spend(moment, [current], outputs, fee);
      var landed := r.value[0];
      change := r.value[1];
      assert landed in r.value && change in r.value && landed != change;
      assert current in [current];
      if cashedOut {
        Receive([landed]);
      }
    }

    /** The mix spends the operator's output with funded participants; the operator keeps the first equal
        output. */
    method CoinJoin(current: Utxo) returns (mixed: Utxo)
      requires Valid() && ExchangeOk() && current in pool && current !in exchange
      modifies this`txs, this`counter, this`pool, this`ever
      ensures Valid() && ExchangeOk() && mixed in pool && mixed !in exchange
      ensures Appended(old(txs), txs, 4, 7) && IsMix(txs[|txs| - 1], current, mixed)
      ensures |txs[|txs| - 1].inputs| == |txs| - |old(txs)| && IsDenomination(mixed.amount, current.amount)
      ensures pool[mixed] == txs[|txs| - 1].moment
      ensures old(pool)[current] + 10 * MINUTE <= pool[mixed] <= old(pool)[current] + 240 * MINUTE
    {
      hide Disciplined, PoolOf, EverOf, SumUtxos, SumOutputs;
      var moment := TimeOf(current);
      var wait: int :| 10 * MINUTE <= wait <= 240 * MINUTE;
      moment := moment + wait;
      var participants: nat :| 3 <= participants < 7;
      var denomination := current.amount / 2 / 100_000 * 100_000;
      if denomination < 100_000 { denomination := 100_000; }
      var others := Participants(participants, moment, denomination);
      ghost var txs0 := txs;
      NoRepeatsJoin([current], others);
      mixed := Mix(moment, [current] + others, denomination);
      ByOne(txs0, txs);
      AppendedThen(old(txs), txs0, txs, participants, participants, 1, 1);
      Widen(old(txs), txs, participants + 1, participants + 1, 4, 7);
    }

    method Mix(moment: int, inputs: seq<Utxo>, denomination: int) returns (mixed: Utxo)
      requires Valid() && inputs != [] && Spendable(pool, inputs, moment)
      modifies this`txs, this`counter, this`pool, this`ever
      ensures Valid() && Keeps(old(pool), pool, old(ever), inputs) && NoneIn(inputs, pool) && old(ever) <= ever
      ensures mixed in pool && mixed !in old(ever) && mixed.amount == denomination
      ensures pool[mixed] == moment == txs[|txs| - 1].moment
      ensures old(txs) <= txs && |txs| == |old(txs)| + 1
      ensures IsMix(txs[|old(txs)|], inputs[0], mixed) && txs[|old(txs)|].inputs == inputs
    {
      hide Disciplined, PoolOf, EverOf, SumUtxos, SumOutputs;
      var fee := 600 * |inputs|;
      var targets := Addresses(|inputs|);
      var outputs := seq(|inputs|, i requires 0 <= i < |inputs| => (targets[i], denomination));
      var change := Token();
      var remainder := SumUtxos(inputs) - denomination * |inputs| - fee;
      EqualOutputs(outputs, denomination);
      SumMore(outputs, (change, remainder));
      var r := Spend(moment, inputs, outputs + [(change, remainder)], fee);
      mixed := r.value[0];
      assert mixed in r.value;
      MovesKeep(old(pool), pool, old(ever), inputs, r.value, moment);
    }

    /** Every participant is funded before the mix. */
    method Participants(count: nat, moment: int, denomination: int) returns (funded: seq<Utxo>)
      requires Valid()
      modifies this`txs, this`counter, this`pool, this`ever
      ensures Valid() && Keeps(old(pool), pool, old(ever), []) && old(ever) <= ever
      ensures |funded| == count && Spendable(pool, funded, moment) && NewTo(funded, old(ever))
      ensures Appended(old(txs), txs, count, count) && AreParticipants(funded, pool, moment, denomination)
    {
      hide Disciplined, PoolOf, EverOf;
      funded := [];
      for i := 0 to count
        invariant Valid() && Keeps(old(pool), pool, old(ever), []) && old(ever) <= ever
        invariant |funded| == i && Spendable(pool, funded, moment) && NewTo(funded, old(ever))
        invariant AreParticipants(funded, pool, moment, denomination)
        invariant old(txs) <= txs && |txs| == |old(txs)| + i
      {
        var address := Token();
        var extra: int :| 20_000 <= extra < 3_000_000;
        var gap: int :| HOUR <= gap <= 24 * HOUR;
        ghost var txs0 := txs;
        var one := Fund(moment - gap, [(address, denomination + extra)]);
        Prefixes(old(txs), txs0, txs);
        assert one[0] in one;
        funded := funded + [one[0]];
      }
    }

    /** A whole output moves to a new deposit address of the exchange. */
    method CashOut(utxo: Utxo, moment: int, fee: int)
      requires Valid() && ExchangeOk() && fee >= 0 && utxo in pool && utxo !in exchange && pool[utxo] < moment
      modifies this
      ensures Valid() && ExchangeOk() && Keeps(old(pool), pool, old(ever), [utxo]) && old(ever) <= ever
      ensures utxo !in pool && forall u | u in exchange :: u in old(exchange) || u !in old(ever)
      ensures |deposits| == |old(deposits)| + 1
      ensures Extends(old(txs), txs, moment, [utxo], [(deposits[|old(deposits)|], utxo.amount - fee)], fee)
      ensures exchange == old(exchange) + OutputsOf(txs[|old(txs)|])
    {
      hide Disciplined, PoolOf, EverOf;
      var deposit := Deposit();
      SumSingle(utxo);
      SumOne((deposit, utxo.amount - fee));
      var r := Spend(moment, [utxo], [(deposit, utxo.amount - fee)], fee);
      MovesKeep(old(pool), pool, old(ever), [utxo], r.value, moment);
      assert forall u | u in r.value :: u !in exchange;
      assert utxo in [utxo];
      Receive(r.value);
    }

    /** The ransomware scenario: the payments, then the rounds from place `rounds` on, the hops from `hops`, the mix
        before `cashOut`, and the cash-out, each spending what the one before left; every victim payment is spent. */
    method Ransomware()
      returns (ghost victims: seq<Utxo>, ghost at: map<Utxo, int>, ghost ordered: seq<Utxo>, ghost rounds: nat,
               ghost hops: nat, ghost mix: nat, ghost cashOut: nat, ghost carry: Utxo, ghost current: Utxo,
               ghost mixed: Utxo)
      requires Valid() && ExchangeOk()
      modifies this
      ensures Valid() && ExchangeOk() && Appended(old(txs), txs, 35, 100)
      ensures 12 <= |victims| < 41 && NoneIn(victims, pool)
      ensures exists targets :: 1 <= |targets| < 4 && AllPay(txs, |old(txs)|,
        Terms(targets, (5_000_000, 150_000_000), (40_000, 2_000_000), (HOUR, 30 * HOUR), 1_500), victims)
      ensures rounds == |old(txs)| + 2 * |victims| && rounds + 2 <= hops <= rounds + 4 && hops + 4 <= mix <= hops + 8
      ensures mix + 4 <= cashOut <= mix + 7 && |txs| == cashOut + 1
      ensures MadeAt(txs, victims, at) && InTimeOrder(victims, at, ordered) && Together(victims, at, 3 * DAY)
      ensures CarryChain(txs[rounds..hops], ordered, RoundSize(|victims|, hops - rounds), carry)
      ensures PeelChain(txs[hops..mix], carry, txs[hops - 1].moment, current)
      ensures IsMix(txs[cashOut - 1], current, mixed)
      ensures txs[cashOut - 1].moment + 2 * HOUR <= txs[cashOut].moment <= txs[cashOut - 1].moment + 48 * HOUR
      ensures deposits != [] && IsCashOut(txs[cashOut], mixed, deposits[|deposits| - 1], 1_200)
    {
      hide Disciplined, PoolOf, EverOf, Appended, AllPay, CarryChain, PeelChain, IsMix, InTimeOrder, MadeAt;
      var collections: nat :| 1 <= collections < 4;
      var collection := Addresses(collections);
      var from := When();
      var count: nat :| 12 <= count < 41;
      var terms := Terms(collection, (5_000_000, 150_000_000), (40_000, 2_000_000), (HOUR, 30 * HOUR), 1_500);
      var paid := Payments(count, terms, from, 3 * DAY);
      victims, rounds, at := paid, |txs|, pool;
      ghost var txs1 := txs;
      var sorted := SortByTime(paid);
      ordered := sorted;
      SortedMembers(paid, pool, sorted);
      var times: nat :| 2 <= times < 5;
      var held := Consolidate(sorted, times);
      carry, hops := held, |txs|;
      ghost var txs2, pool2, ever2 := txs, pool, ever;
      current, mixed, mix, cashOut := Launder(held);
      AppendedIs(old(txs), txs1, 2 * count, 2 * count);
      AppendedIs(txs1, txs2, times, times);
      RansomParts(old(txs), txs1, txs2, txs, terms, victims);
      Prefixes(txs1, txs2, txs);
      PoolMadeAt(txs1, at, victims, txs);
      IsAppended(old(txs), txs, 35, 100);
      StaysSpent(txs2, pool2, ever2, txs, pool, victims);
    }

    /** The hops, the mix and the cash-out. */
    method Launder(carry: Utxo) returns (ghost current: Utxo, ghost mixed: Utxo, ghost mix: nat, ghost cashOut: nat)
      requires Valid() && ExchangeOk() && carry in pool && carry !in exchange
      modifies this
      ensures Valid() && ExchangeOk() && old(txs) <= txs
      ensures |old(txs)| + 4 <= mix <= |old(txs)| + 8 && mix + 4 <= cashOut <= mix + 7 && |txs| == cashOut + 1
      ensures PeelChain(txs[|old(txs)|..mix], carry, old(pool)[carry], current)
      ensures IsMix(txs[cashOut - 1], current, mixed)
      ensures txs[cashOut - 1].moment + 2 * HOUR <= txs[cashOut].moment <= txs[cashOut - 1].moment + 48 * HOUR
      ensures deposits != [] && IsCashOut(txs[cashOut], mixed, deposits[|deposits| - 1], 1_200)
    {
      hide Disciplined, PoolOf, EverOf, Appended, PeelChain, IsMix;
      var last := Peel(carry);
      current, mix := last, |txs|;
      ghost var txs1 := txs;
      var kept := CoinJoin(last);
      mixed, cashOut := kept, |txs|;
      ghost var txs2 := txs;
      var moment := TimeOf(kept);
      var wait: int :| 2 * HOUR <= wait <= 48 * HOUR;
      CashOut(kept, moment + wait, 1_200);
      AppendedIs(old(txs), txs1, 4, 8);
      AppendedIs(txs1, txs2, 4, 7);
      Prefixes(txs1, txs2, txs);
      Prefixes(old(txs), txs1, txs);
      PartKept(txs1, txs, |old(txs)|);
    }

    // ---- the other scenarios --------------------------------------------------------

    /** The extortion scenario: the payments, one sweep of them all, and its cash-out. */
    method Extortion() returns (ghost payments: seq<Utxo>, ghost at: map<Utxo, int>)
      requires Valid() && ExchangeOk()
      modifies this
      ensures Valid() && ExchangeOk() && Appended(old(txs), txs, 12, 26)
      ensures deposits != [] && IsExtortion(txs, |old(txs)|, payments, at, deposits[|deposits| - 1])
    {
      hide Disciplined, PoolOf, EverOf, AllPay, Appended, IsExtortion, SweptOut, Keeps, NewTo, ExtortionTerms;
      var target := Token();
      var from := When();
      var count: nat :| 5 <= count < 13;
      TermsAre(target);
      var paid := Payments(count, ExtortionTerms([target]), from, 600 * MINUTE);
      payments, at := paid, pool;
      ExchangeKept(exchange, old(pool), old(ever), pool, paid);
      ghost var txs1 := txs;
      var last := Latest(paid);
      var gap: int :| 10 * MINUTE <= gap <= 60 * MINUTE;
      var wait: int :| 2 * HOUR <= wait <= 30 * HOUR;
      SweepAndCashOut(paid, last, gap, wait);
      ExtortionParts(old(txs), txs1, txs, target, paid, at, last, gap, wait, deposits[|deposits| - 1]);
    }

    /** One sweep of a whole batch, and the cash-out of what it made. */
    method SweepAndCashOut(batch: seq<Utxo>, last: int, gap: int, wait: int)
      requires Valid() && ExchangeOk() && 0 < gap < wait && batch != [] && Spendable(pool, batch, last + gap)
      requires forall u | u in batch :: u !in exchange
      modifies this
      ensures Valid() && ExchangeOk() && NoneIn(batch, pool) && deposits != []
      ensures SweptOut(old(txs), txs, batch, last, gap, wait, deposits[|deposits| - 1])
    {
      hide Disciplined, PoolOf, EverOf;
      var target := Token();
      var swept := Sweep(batch, last + gap, target, 2_000);
      ghost var txs1, pool1, ever1 := txs, pool, ever;
      CashOut(swept, last + wait, 1_000);
      Prefixes(old(txs), txs1, txs);
      StaysSpent(txs1, pool1, ever1, txs, pool, batch);
    }

    /** The layering scenario: the source is minted and fanned out, and each piece respent and cashed out. */
    method Layering() returns (ghost pieces: seq<Utxo>)
      requires Valid() && ExchangeOk()
      modifies this
      ensures Valid() && ExchangeOk() && Appended(old(txs), txs, 22, 52)
      ensures IsLayering(txs, |old(txs)|, pieces) && NoneIn(pieces, pool)
    {
      hide Disciplined, PoolOf, EverOf, AllRelayed, Appended, IsLayering, Keeps;
      var moment := When();
      var source := Token();
      var gap: int :| HOUR <= gap <= 72 * HOUR;
      var amount: int :| 200_000_000 <= amount < 2_000_000_000;
      var funded := Fund(moment - gap, [(source, amount)]);
      assert funded[0] in funded && funded == [funded[0]];
      var branches: nat :| 10 <= branches < 26;
      ghost var txs1 := txs;
      var parts := FanOut(moment, funded[0], branches);
      pieces := parts;
      ghost var txs2 := txs;
      Respends(moment, parts);
      LayeringParts(old(txs), txs1, txs2, txs, (source, amount), moment - gap, moment, parts);
    }

    /** Every piece is respent and cashed out. */
    method Respends(moment: int, pieces: seq<Utxo>)
      requires Valid() && ExchangeOk() && NoRepeats(pieces)
      requires forall u | u in pieces :: u in pool && pool[u] == moment && u !in exchange
      modifies this
      ensures Valid() && ExchangeOk() && NoneIn(pieces, pool)
      ensures old(txs) <= txs && |txs| == |old(txs)| + 2 * |pieces| && AllRelayed(txs, |old(txs)|, pieces, moment)
    {
      hide Disciplined, PoolOf, EverOf, Extends, Relayed;
      for i := 0 to |pieces|
        invariant Valid() && ExchangeOk() && old(ever) <= ever && old(pool).Keys <= old(ever)
        invariant forall j | i <= j < |pieces| ::
          pieces[j] in pool && pool[pieces[j]] == moment && pieces[j] !in exchange
        invariant forall j | 0 <= j < i :: pieces[j] !in pool
        invariant old(txs) <= txs && |txs| == |old(txs)| + 2 * i
        invariant AllRelayed(txs, |old(txs)|, pieces[..i], moment)
      {
        var hop: int :| MINUTE <= hop <= 30 * MINUTE;
        var wait: int :| 5 * MINUTE <= wait <= 240 * MINUTE;
        ghost var txs0 := txs;
        Respend(moment, pieces[i], hop, wait);
        Prefixes(old(txs), txs0, txs);
        RelayedMore(txs0, txs, |old(txs)|, pieces[..i], pieces[i], moment);
        assert pieces[..i + 1] == pieces[..i] + [pieces[i]];
      }
      assert pieces[..|pieces|] == pieces;
    }

    method Respend(moment: int, piece: Utxo, hop: int, wait: int)
      requires Valid() && ExchangeOk() && MINUTE <= hop <= 30 * MINUTE && 5 * MINUTE <= wait <= 240 * MINUTE
      requires piece in pool && pool[piece] == moment && piece !in exchange
      modifies this
      ensures Valid() && ExchangeOk() && piece !in pool && old(ever) <= ever
      ensures Keeps(old(pool), pool, old(ever), [piece])
      ensures forall u | u in exchange :: u in old(exchange) || u !in old(ever)
      ensures old(txs) <= txs && |txs| == |old(txs)| + 2 && Relayed(txs[|old(txs)|], txs[|old(txs)| + 1], piece, moment)
    {
      hide Disciplined, PoolOf, EverOf;
      assert forall u | u in [piece] :: u == piece;
      var next := Token();
      var second := Sweep([piece], moment + hop, next, 800);
      assert piece in [piece];
      ghost var txs0 := txs;
      CashOut(second, moment + hop + wait, 900);
      Prefixes(old(txs), txs0, txs);
    }

    /** One output becomes `branches` equal ones; the remainder of the division goes to the fee. */
    method FanOut(moment: int, funded: Utxo, branches: nat) returns (pieces: seq<Utxo>)
      requires Valid() && ExchangeOk() && funded in pool && pool[funded] < moment && funded !in exchange
      requires 0 < branches && 10_000 <= funded.amount
      modifies this`txs, this`counter, this`pool, this`ever
      ensures Valid() && ExchangeOk() && NoRepeats(pieces) && |pieces| == branches
      ensures forall u | u in pieces :: u in pool && pool[u] == moment && u !in exchange
      ensures forall u | u in pieces :: u.amount == (funded.amount - 10_000) / branches
      ensures funded !in pool && old(txs) <= txs && |txs| == |old(txs)| + 1
      ensures txs[|old(txs)|].inputs == [funded] && pieces == OutputsOf(txs[|old(txs)|])
      ensures txs[|old(txs)|].moment == moment
      ensures txs[|old(txs)|].fee == funded.amount - (funded.amount - 10_000) / branches * branches
    {
      hide Disciplined, PoolOf, EverOf;
      var piece := (funded.amount - 10_000) / branches;
      var targets := Addresses(branches);
      var outputs := seq(branches, i requires 0 <= i < branches => (targets[i], piece));
      EqualOutputs(outputs, piece);
      SumSingle(funded);
      var r := Spend(moment, [funded], outputs, funded.amount - piece * branches);
      pieces := r.value;
      MovesKeep(old(pool), pool, old(ever), [funded], pieces, moment);
      assert funded in [funded];
    }

    /** Those received before `cursor`, and the others. */
    method Earlier(received: seq<Utxo>, cursor: int) returns (batch: seq<Utxo>, rest: seq<Utxo>)
      requires Valid() && AllIn(received, pool)
      ensures Split(received, pool, cursor, batch, rest)
    {
      hide Disciplined, PoolOf, EverOf;
      batch, rest := [], [];
      for i := 0 to |received|
        invariant Split(received[..i], pool, cursor, batch, rest)
      {
        var moment := TimeOf(received[i]);
        assert received[..i + 1] == received[..i] + [received[i]];
        SplitMore(received[..i], received[i], pool, cursor, batch, rest);
        if moment < cursor {
          batch := batch + [received[i]];
        } else {
          rest := rest + [received[i]];
        }
      }
      assert received[..|received|] == received;
    }

    /** The market scenario: the payments, the sweeps and, from the last hot output, the payout. In the end a
        payment is unspent exactly as `HotSweeps` says; `at` are the moments of the payments. */
    method DarknetMarket()
      returns (ghost payments: seq<Utxo>, ghost at: map<Utxo, int>, ghost ordered: seq<Utxo>, ghost from: int,
               ghost span: nat, ghost sweeps: nat, ghost step: nat, ghost hot: Option<Utxo>, ghost turns: seq<nat>)
      requires Valid() && ExchangeOk()
      modifies this
      ensures Valid() && ExchangeOk() && Appended(old(txs), txs, 80, 251)
      ensures 40 <= |payments| < 121
      ensures exists targets :: 6 <= |targets| < 16 && AllPay(txs, |old(txs)|,
        Terms(targets, (200_000, 5_000_000), (20_000, 900_000), (HOUR / 2, 48 * HOUR), 900), payments)
      ensures MadeAt(txs, payments, at) && InTimeOrder(payments, at, ordered) && 6 * DAY <= span <= 12 * DAY
      ensures forall u | u in payments :: u in at && from <= at[u] <= from + span
      ensures 6 <= sweeps < 11 && (step == span / sweeps || step == span / sweeps + 1)
      ensures forall u | u in ordered :: u in at && (u in pool <==>
        (Cursor(from, step, sweeps) <= at[u] || Dropped(ordered, at, from, step, sweeps, u)))
      ensures hot.None? <==> SparseUpTo(ordered, at, from, step, sweeps)
      ensures hot.Some? ==> hot.value !in pool && txs[|txs| - 1].inputs == [hot.value]
      ensures HotTurns(turns, ordered, at, from, step, sweeps) && (hot.None? <==> turns == [])
      ensures |txs| == |old(txs)| + 2 * |payments| + |turns| + (if hot.Some? then 1 else 0)
      ensures HotSwept(txs, |old(txs)| + 2 * |payments|, turns, ordered, at, from, step)
    {
      hide Disciplined, PoolOf, EverOf, AllPay, Appended, Dropped, SparseUpTo, HotTurns, HotSwept, TurnsDone, MadeAt,
           InTimeOrder;
      var stalls: nat :| 6 <= stalls < 16;
      var addresses := Addresses(stalls);
      var start := When();
      var width: nat :| 6 * DAY <= width <= 12 * DAY;
      var count: nat :| 40 <= count < 121;
      var terms := Terms(addresses, (200_000, 5_000_000), (20_000, 900_000), (HOUR / 2, 48 * HOUR), 900);
      var received := Payments(count, terms, start, width);
      ghost var txs1 := txs;
      var sorted := SortByTime(received);
      payments, at, ordered, from, span := received, pool, sorted, start, width;
      SortedMembers(received, pool, sorted);
      var last, n, gap;
      last, n, gap, turns := HotSweeps(sorted, start, width, old(pool), old(ever));
      hot, sweeps, step := last, n, gap;
      ghost var txs2, pool2, ever2 := txs, pool, ever;
      if last.Some? {
        Payout(last.value);
        KeepsOthers(pool2, pool, ever2, last.value, sorted);
      }
      MarketParts(old(txs), txs1, txs2, txs, turns, last, terms, received, sorted, at, from, step, sweeps);
      PoolMadeAt(txs1, at, received, txs);
    }

    /** The sweeps into the hot wallet: each also spends the hot output of the one before. A payment is left
        unspent exactly when it is not due before the last sweep, or was alone at its own while there was no
        hot output yet. */
    method HotSweeps(payments: seq<Utxo>, from: int, span: nat, ghost before: map<Utxo, int>, ghost known: set<Utxo>)
      returns (hot: Option<Utxo>, sweeps: nat, step: nat, ghost turns: seq<nat>)
      requires Valid() && 6 * DAY <= span && AllIn(payments, pool) && NewTo(payments, known)
      requires before.Keys <= known <= ever && Keeps(before, pool, known, [])
      modifies this`txs, this`counter, this`pool, this`ever
      ensures Valid() && known <= ever && Keeps(before, pool, known, [])
      ensures hot.Some? ==> hot.value in pool && hot.value !in known && hot.value !in payments
      ensures forall u | u in payments :: u in ever
      ensures 6 <= sweeps < 11 && (step == span / sweeps || step == span / sweeps + 1)
      ensures forall u | u in payments :: u in pool <==>
        (Cursor(from, step, sweeps) <= old(pool)[u] || Dropped(payments, old(pool), from, step, sweeps, u))
      ensures hot.None? <==> SparseUpTo(payments, old(pool), from, step, sweeps)
      ensures TurnsDone(old(txs), txs, turns, hot, payments, old(pool), from, step, sweeps)
    {
      hide Disciplined, PoolOf, EverOf, Held, Dropped, SparseUpTo, Remains, TurnsDone, TurnDone;
      var received := payments;
      sweeps :| 6 <= sweeps < 11;
      step := span / sweeps;
      StepIsLong(span, sweeps);
      if * { step := step + 1; }        // the division rounds
      var cursor := from;
      hot, turns := None, [];
      NothingSwept(payments, pool, from, step);
      NoTurnsDone(txs, payments, pool, from, step);
      for i := 0 to sweeps
        invariant Valid() && known <= ever && Keeps(before, pool, known, []) && NewTo(payments, known)
        invariant cursor == Cursor(from, step, i) && Held(payments, old(pool), from, step, i, received, hot.Some?, pool)
        invariant HotWell(hot, payments, known, pool, cursor)
        invariant old(pool).Keys <= ever
        invariant TurnsDone(old(txs), txs, turns, hot, payments, old(pool), from, step, i)
      {
        cursor := cursor + step;
        ghost var txs0, hot0 := txs, hot;
        hot, received := SweepSlice(payments, from, step, i, received, hot, cursor, old(pool), before, known);
        TurnsMore(old(txs), txs0, txs, turns, hot0, hot, payments, old(pool), from, step, i);
        turns := NextTurns(turns, payments, old(pool), from, step, i);
      }
      HeldEnd(payments, old(pool), from, step, sweeps, received, hot.Some?, pool);
    }

    /** One sweep of the market: with fewer than two inputs it is skipped, its batch with it. */
    method SweepSlice(payments: seq<Utxo>, ghost from: int, ghost step: nat, ghost i: nat, received: seq<Utxo>,
                      hot0: Option<Utxo>, cursor: int, ghost at: map<Utxo, int>,
                      ghost before: map<Utxo, int>, ghost known: set<Utxo>)
      returns (hot: Option<Utxo>, rest: seq<Utxo>)
      requires Valid() && before.Keys <= known <= ever && Keeps(before, pool, known, []) && NewTo(payments, known)
      requires cursor == Cursor(from, step, i + 1) && Held(payments, at, from, step, i, received, hot0.Some?, pool)
      requires step > 90 * MINUTE && HotWell(hot0, payments, known, pool, cursor - step) && at.Keys <= ever
      modifies this`txs, this`counter, this`pool, this`ever
      ensures Valid() && old(ever) <= ever && Keeps(before, pool, known, [])
      ensures Held(payments, at, from, step, i + 1, rest, hot.Some?, pool)
      ensures HotWell(hot, payments, known, pool, cursor)
      ensures TurnDone(old(txs), txs, hot0, hot, payments, at, from, step, i)
    {
      hide Disciplined, PoolOf, EverOf, Held, Cursor, HotDue, TurnDone, SliceOf, Split;
      HeldReceived(payments, at, from, step, i, received, hot0.Some?, pool);
      var batch: seq<Utxo>;
      batch, rest := Earlier(received, cursor);
      SplitHolds(received, pool, cursor, batch, rest);
      HotDueExactly(payments, at, from, step, i, received, hot0.Some?, pool, batch, rest);
      var inputs := if hot0.Some? then [hot0.value] + batch else batch;
      hot := hot0;
      if |inputs| >= 2 {
        var gap: int :| 5 * MINUTE <= gap <= 90 * MINUTE;
        HotInputs(hot0, batch, payments, pool, cursor);
        var target := Token();
        var swept := Sweep(inputs, cursor + gap, target, 3_500);
        SliceSwept(payments, at, from, step, i, received, hot0.Some?, old(pool), batch, rest, pool);
        TurnMade(old(txs), txs, hot0, swept, payments, at, from, step, i, batch, target, gap);
        hot := Some(swept);
      } else {
        SliceSkipped(payments, at, from, step, i, received, hot0.Some?, pool, batch, rest);
        TurnSkipped(txs, hot, payments, at, from, step, i);
      }
    }

    /** The hot output pays the vendors; the change may be of any amount. */
    method Payout(hot: Utxo)
      requires Valid() && ExchangeOk() && hot in pool && hot !in exchange
      modifies this`txs, this`counter, this`pool, this`ever
      ensures Valid() && ExchangeOk() && hot !in pool && Keeps(old(pool), pool, old(ever), [hot])
      ensures old(txs) <= txs && |txs| == |old(txs)| + 1
      ensures var tx := txs[|old(txs)|]; tx.inputs == [hot] && tx.fee == 5_000 && 6 <= |tx.outputs| <= 16
      ensures old(pool)[hot] + HOUR <= txs[|old(txs)|].moment <= old(pool)[hot] + 12 * HOUR
    {
      hide Disciplined, PoolOf, EverOf;
      var moment := TimeOf(hot);
      var vendors: nat :| 5 <= vendors < 16;
      var payouts: seq<(Address, int)> := [];
      for i := 0 to vendors
        invariant Valid() && ExchangeOk() && pool == old(pool) && txs == old(txs) && ever == old(ever) && |payouts| == i
      {
        var vendor := Token();
        var amount: int := *;
        payouts := payouts + [(vendor, amount)];
      }
      var change := Token();
      var rest := hot.amount - SumOutputs(payouts) - 5_000;
      SumMore(payouts, (change, rest));
      SumSingle(hot);
      var wait: int :| HOUR <= wait <= 12 * HOUR;
      var r := Spend(moment + wait, [hot], payouts + [(change, rest)], 5_000);
      MovesKeep(old(pool), pool, old(ever), [hot], r.value, moment + wait);
      assert hot in [hot];
    }

    /** The merchant scenario: the purchases and the weekly consolidations; which purchases these spend is as
        `WeeklySweeps` says. `at` are the moments of the purchases. */
    method BenignMerchant()
      returns (ghost purchases: seq<Utxo>, ghost at: map<Utxo, int>, ghost ordered: seq<Utxo>, ghost from: int,
               ghost turns: seq<nat>, ghost treasury: Address)
      requires Valid() && ExchangeOk()
      modifies this
      ensures Valid() && ExchangeOk() && Appended(old(txs), txs, 60, 163)
      ensures 30 <= |purchases| < 81
      ensures exists targets :: 3 <= |targets| < 7 && AllPay(txs, |old(txs)|,
        Terms(targets, (100_000, 20_000_000), (30_000, 900_000), (HOUR, 72 * HOUR), 800), purchases)
      ensures MadeAt(txs, purchases, at) && InTimeOrder(purchases, at, ordered)
      ensures forall u | u in purchases :: u in at && from <= at[u] <= from + 14 * DAY
      ensures forall u | u in ordered :: u in at && (u in pool <==>
        (from + 21 * DAY <= at[u] || LoneInWeek(ordered, at, from, 7 * DAY, 3, u)))
      ensures WeekTurns(turns, ordered, at, from, 7 * DAY, 3)
      ensures WeekSwept(txs, |old(txs)| + 2 * |purchases|, turns, ordered, at, from, 7 * DAY, treasury)
    {
      hide Disciplined, PoolOf, EverOf, AllPay, Appended, LoneInWeek, WeekTurns, WeekSwept, WeeksDone, MadeAt,
           InTimeOrder;
      var shops: nat :| 3 <= shops < 7;
      var addresses := Addresses(shops);
      var start := When();
      var count: nat :| 30 <= count < 81;
      var terms := Terms(addresses, (100_000, 20_000_000), (30_000, 900_000), (HOUR, 72 * HOUR), 800);
      var received := Payments(count, terms, start, 14 * DAY);
      var wallet := Token();
      var sorted := SortByTime(received);
      purchases, at, ordered, from, treasury := received, pool, sorted, start, wallet;
      SortedMembers(received, pool, sorted);
      ghost var txs1 := txs;
      turns := WeeklySweeps(sorted, start, wallet, old(pool), old(ever));
      AppendedIs(old(txs), txs1, 2 * count, 2 * count);
      WeeksAppended(txs1, txs, turns, sorted, at, from, 7 * DAY, wallet, 3);
      AppendedIs(txs1, txs, 0, 3);
      PoolMadeAt(txs1, at, received, txs);
      AllPayKept(txs1, txs, |old(txs)|, terms, received);
      AppendedThen(old(txs), txs1, txs, 2 * count, 2 * count, 0, 3);
      Widen(old(txs), txs, 2 * count, 2 * count + 3, 60, 163);
    }

    /** The weekly consolidations. A purchase is left unspent exactly when it is not due before the third, or was
        alone in its week. */
    method WeeklySweeps(payments: seq<Utxo>, from: int, treasury: Address, ghost before: map<Utxo, int>,
                        ghost known: set<Utxo>)
      returns (ghost turns: seq<nat>)
      requires Valid() && AllIn(payments, pool) && NewTo(payments, known)
      requires before.Keys <= known <= ever && Keeps(before, pool, known, [])
      modifies this`txs, this`counter, this`pool, this`ever
      ensures Valid() && known <= ever && Keeps(before, pool, known, [])
      ensures forall u | u in payments :: u in pool <==>
        (from + 21 * DAY <= old(pool)[u] || LoneInWeek(payments, old(pool), from, 7 * DAY, 3, u))
      ensures WeeksDone(old(txs), txs, turns, payments, old(pool), from, 7 * DAY, treasury, 3)
    {
      hide Disciplined, PoolOf, EverOf, HeldByWeek, WeeksDone, Consolidated, Sparse, Split;
      var received := payments;
      turns := [];
      NoWeeksDone(txs, payments, pool, from, 7 * DAY, treasury);
      NoWeekDone(payments, pool, from, 7 * DAY);
      for week := 1 to 4
        invariant Valid() && known <= ever && Keeps(before, pool, known, []) && NewTo(received, known)
        invariant HeldByWeek(payments, old(pool), from, 7 * DAY, week - 1, received, pool)
        invariant old(pool).Keys <= old(ever) <= ever
        invariant WeeksDone(old(txs), txs, turns, payments, old(pool), from, 7 * DAY, treasury, week - 1)
      {
        CursorProduct(from, 7 * DAY, week);
        var cursor := from + week * (7 * DAY);
        WeekReceived(payments, old(pool), from, 7 * DAY, week - 1, received, pool);
        var batch, rest := Earlier(received, cursor);
        SplitHolds(received, pool, cursor, batch, rest);
        ghost var txs0, pool0 := txs, pool;
        ConsolidateWeek(batch, cursor, treasury);
        WeeksMore(old(txs), txs0, txs, turns, payments, old(pool), from, 7 * DAY, treasury, week - 1, received, pool0,
                  batch, rest);
        turns := NextWeeks(turns, payments, old(pool), from, 7 * DAY, week - 1);
        WeekDone(payments, old(pool), from, 7 * DAY, week - 1, received, pool0, batch, rest, pool);
        received := rest;
      }
      CursorProduct(from, 7 * DAY, 3);
      WeekEnd(payments, old(pool), from, 7 * DAY, 3, received, pool);
    }

    /** The purchases of one week go to the treasury, if there are two. */
    method ConsolidateWeek(batch: seq<Utxo>, cursor: int, treasury: Address)
      requires Valid() && AllIn(batch, pool) && forall u | u in batch :: pool[u] < cursor
      modifies this`txs, this`counter, this`pool, this`ever
      ensures Valid() && old(ever) <= ever && Consolidated(old(txs), txs, batch, cursor, treasury)
      ensures if |batch| < 2 then pool == old(pool) else Keeps(old(pool), pool, old(ever), batch) && NoneIn(batch, pool)
    {
      hide Disciplined, PoolOf, EverOf;
      if |batch| >= 2 {
        var gap: int :| DAY / 2 <= gap <= 2 * DAY;
        var _ := Sweep(batch, cursor + gap, treasury, 3_000);
      }
    }

    /** The payroll scenario: twice, the employer is funded a day before, with just what the salaries and the fee
        take. */
    method BenignPayroll()
      requires Valid() && ExchangeOk()
      modifies this
      ensures Valid() && ExchangeOk() && Appended(old(txs), txs, 4, 4)
      ensures IsPayday(txs[|old(txs)|], txs[|old(txs)| + 1]) && IsPayday(txs[|old(txs)| + 2], txs[|old(txs)| + 3])
      ensures exists source, a, b ::
        txs[|old(txs)|].outputs == [(source, a)] && txs[|old(txs)| + 2].outputs == [(source, b)]
    {
      hide Disciplined, PoolOf, EverOf, IsPayday;
      var source := Token();
      Payday(source);
      ghost var txs1 := txs;
      Payday(source);
      Prefixes(old(txs), txs1, txs);
    }

    /** One month: the salaries are paid from their funding. */
    method Payday(source: Address)
      requires Valid() && ExchangeOk()
      modifies this`txs, this`counter, this`pool, this`ever
      ensures Valid() && ExchangeOk()
      ensures old(txs) <= txs && |txs| == |old(txs)| + 2 && IsPayday(txs[|old(txs)|], txs[|old(txs)| + 1])
      ensures txs[|old(txs)|].outputs == [(source, SumOutputs(txs[|old(txs)| + 1].outputs) + 50_000)]
    {
      hide Disciplined, PoolOf, EverOf, AllSalaries, IsPayday;
      NoSalaries();
      var moment := When();
      var staff: nat :| 15 <= staff < 41;
      var salaries: seq<(Address, int)> := [];
      for i := 0 to staff
        invariant Valid() && ExchangeOk() && |salaries| == i && txs == old(txs) && AllSalaries(salaries)
      {
        var employee := Token();
        var units: int :| 20 <= units < 200;
        SalariesMore(salaries, employee, units);
        salaries := salaries + [(employee, units * 100_000)];
      }
      var amount := SumOutputs(salaries) + 50_000;
      var funded := Fund(moment - DAY, [(source, amount)]);
      ghost var txs1 := txs;
      assert funded == [funded[0]];
      SumSingle(funded[0]);
      assert funded[0] in funded;
      var r := Spend(moment, funded, salaries, 50_000);
      assert r.Ok?;
      PaydayIs(old(txs), txs1, txs, source, moment, salaries, amount);
    }

    // ---- the exchange -----------------------------------------------------------------

    /** Customer deposits, so that the cash-outs are not alone: each a new address, funded and received. */
    method Customers()
      requires Valid() && ExchangeOk()
      modifies this
      ensures Valid() && ExchangeOk() && old(exchange) <= exchange && 40 <= |exchange| - |old(exchange)| < 90
      ensures Appended(old(txs), txs, 40, 89) && |txs| - |old(txs)| == |exchange| - |old(exchange)|
      ensures |deposits| == |old(deposits)| + (|exchange| - |old(exchange)|)
      ensures AllCustomers(txs, |old(txs)|, deposits, |old(deposits)|, exchange, |old(exchange)|, |txs| - |old(txs)|)
    {
      hide Disciplined, PoolOf, EverOf, IsCustomer;
      var count: nat :| 40 <= count < 90;
      for i := 0 to count
        invariant Valid() && ExchangeOk() && old(exchange) <= exchange && |exchange| == |old(exchange)| + i
        invariant old(txs) <= txs && |txs| == |old(txs)| + i && |deposits| == |old(deposits)| + i
        invariant AllCustomers(txs, |old(txs)|, deposits, |old(deposits)|, exchange, |old(exchange)|, i)
      {
        ghost var txs0, deposits0, exchange0 := txs, deposits, exchange;
        AddCustomer();
        Prefixes(old(txs), txs0, txs);
        CustomersMore(txs0, txs, |old(txs)|, deposits0, deposits, |old(deposits)|, exchange0, exchange,
                      |old(exchange)|, i);
      }
    }

    /** One customer deposit: a new address, funded, and what it holds received. */
    method AddCustomer()
      requires Valid() && ExchangeOk()
      modifies this
      ensures Valid() && ExchangeOk()
      ensures old(txs) <= txs && |txs| == |old(txs)| + 1
      ensures old(deposits) <= deposits && |deposits| == |old(deposits)| + 1
      ensures old(exchange) <= exchange && |exchange| == |old(exchange)| + 1
      ensures IsCustomer(txs[|old(txs)|], deposits[|old(deposits)|], exchange[|old(exchange)|])
    {
      hide Disciplined, PoolOf, EverOf;
      var address := Deposit();
      var moment := When();
      var amount: int :| 200_000 <= amount < 40_000_000;
      var made := Fund(moment, [(address, amount)]);
      Receive(made);
    }

    /** The deposits of each day. */
    method ByDay() returns (byDay: map<int, seq<Utxo>>)
      requires Valid() && ExchangeOk()
      ensures Grouped(exchange, pool, start, byDay)
    {
      hide Disciplined, PoolOf, EverOf;
      byDay := map[];
      assert exchange[..0] == [];
      for i := 0 to |exchange|
        invariant Grouped(exchange[..i], pool, start, byDay)
      {
        var moment := TimeOf(exchange[i]);
        var day := DayOf(moment, start);
        GroupedMore(exchange[..i], pool, start, byDay, exchange[i]);
        byDay := byDay[day := (if day in byDay then byDay[day] else []) + [exchange[i]]];
        assert exchange[..i + 1] == exchange[..i] + [exchange[i]];
      }
      assert exchange[..|exchange|] == exchange;
    }

    /** `finish_exchange`: customer deposits, and then, day by day, the sweeps of all deposits, whatever their days.
        `at` are the moments of the deposits, `days` their days. */
    method FinishExchange() returns (ghost at: map<Utxo, int>, ghost days: seq<int>, ghost hot: Address)
      requires Valid() && ExchangeOk()
      modifies this
      ensures Valid() && old(exchange) <= exchange && old(txs) <= txs
      ensures old(deposits) == [] ==> txs == old(txs) && exchange == [] && deposits == []
      ensures old(deposits) != [] ==> deposits != [] && 40 <= |exchange| - |old(exchange)| < 90
      ensures old(deposits) != [] ==>
        && AllCustomers(txs, |old(txs)|, deposits, |old(deposits)|, exchange, |old(exchange)|,
                        |exchange| - |old(exchange)|)
        && DailySwept(txs, |old(txs)| + |exchange| - |old(exchange)|, exchange, at, start, days, hot, pool)
    {
      hide Disciplined, PoolOf, EverOf, AllCustomers, DailySwept;
      at, days, hot := pool, [], "";
      if deposits == [] {
        return;
      }
      Customers();
      ghost var txs1 := txs;
      var wallet := Token();
      at, hot := pool, wallet;
      days := SweepDays(wallet);
      CustomersKept(txs1, txs, |old(txs)|, deposits, |old(deposits)|, exchange, |old(exchange)|,
                    |exchange| - |old(exchange)|);
      Prefixes(old(txs), txs1, txs);
    }

    /** The daily sweeps: what is swept together is what `Batches` says. */
    method SweepDays(hot: Address) returns (ghost swept: seq<int>)
      requires Valid() && ExchangeOk()
      modifies this`txs, this`counter, this`pool, this`ever
      ensures Valid() && old(txs) <= txs
      ensures DailySwept(txs, |old(txs)|, exchange, old(pool), start, swept, hot, pool)
    {
      hide Disciplined, PoolOf, EverOf, DaysDone, AreDays, IsDaySweep, DailySwept, Grouped, OnDay, Keeps, NoneIn;
      var byDay := ByDay();
      var days := SortedDays(byDay.Keys);
      swept := days;
      ghost var moments := pool;
      NoDayDone(txs, exchange, pool, start, byDay, days, hot);
      var waiting: seq<Utxo> := [];
      for i := 0 to |days|
        invariant Valid() && NoRepeats(exchange) && moments.Keys <= ever
        invariant DaysDone(old(txs), txs, exchange, moments, start, byDay, days, i, waiting, pool, hot)
      {
        DayWaits(old(txs), txs, exchange, moments, start, byDay, days, i, waiting, pool, hot);
        var batch := waiting + byDay[days[i]];
        if |batch| < 2 {
          waiting := batch;
        } else {
          ghost var txs0, pool0, ever0 := txs, pool, ever;
          SweepDay(batch, hot, moments);
          DayDone(old(txs), txs0, txs, exchange, moments, start, byDay, days, i, waiting, pool0, ever0, pool, hot);
          waiting := [];
        }
      }
      AllDaysDone(old(txs), txs, exchange, moments, start, byDay, days, waiting, pool, hot);
    }

    /** One batch goes to the hot wallet. */
    method SweepDay(batch: seq<Utxo>, hot: Address, ghost moments: map<Utxo, int>)
      requires Valid() && batch != [] && AllIn(batch, pool)
      requires forall u | u in batch :: u in moments && pool[u] == moments[u]
      modifies this`txs, this`counter, this`pool, this`ever
      ensures Valid() && Keeps(old(pool), pool, old(ever), batch) && NoneIn(batch, pool) && old(ever) <= ever
      ensures |txs| == |old(txs)| + 1 && old(txs) <= txs && IsDaySweep(txs[|old(txs)|], batch, moments, hot)
    {
      hide Disciplined, PoolOf, EverOf;
      var latest := Latest(batch);
      var minutes: int :| 5 <= minutes < 180;
      var _ := Sweep(batch, latest + minutes * MINUTE, hot, 3_000);
      SweepSoonAfter(txs[|old(txs)|], batch, old(pool), moments, latest, minutes, hot);
    }

    // ---- a whole run ---------------------------------------------------------------------

    /** A scenario appends the transactions of its kind. */
    method Scenario(kind: Kind)
      requires Valid() && ExchangeOk()
      modifies this
      ensures Valid() && ExchangeOk() && Appended(old(txs), txs, SizeOf(kind).0, SizeOf(kind).1)
    {
      match kind
      case Ransomware => var _, _, _, _, _, _, _, _, _, _ := Ransomware();
      case DarknetMarket => var _, _, _, _, _, _, _, _, _ := DarknetMarket();
      case Layering => var _ := Layering();
      case Extortion => var _, _ := Extortion();
      case BenignMerchant => var _, _, _, _, _, _ := BenignMerchant();
      case BenignPayroll => BenignPayroll();
    }

    /** The scenarios of one part, then the exchange: sorted by moment, what comes out is a ledger the
        checker accepts, with no unresolved prevout. */
    method Run(kinds: seq<Kind>)
      returns (ghost at: map<Utxo, int>, ghost days: seq<int>, ghost hot: Address, ghost n: nat)
      requires Valid() && txs == [] && ExchangeOk()
      modifies this
      ensures Valid() && Disciplined(txs) && |txs| >= 4 * |kinds|
      ensures if deposits == [] then exchange == [] else DailySwept(txs, n, exchange, at, start, days, hot, pool)
      ensures forall u, w | u in exchange && w in exchange && u in pool && w in pool :: u == w
      ensures forall sorted | multiset(sorted) == multiset(txs) && SortedByMoment(sorted) ::
        TakeRows(Rows(sorted)).Ok? && TakeRows(Rows(sorted)).value.checks == Checks(|txs|, 0, 0)
    {
      hide Disciplined, PoolOf, EverOf, DailySwept, AllCustomers, TakeRows, SortedByMoment, Rows;
      for i := 0 to |kinds|
        invariant Valid() && ExchangeOk() && |txs| >= 4 * i
      {
        Scenario(kinds[i]);
      }
      n := |txs|;
      ghost var held := |exchange|;
      at, days, hot := FinishExchange();
      n := n + |exchange| - held;
      if deposits != [] {
        OneLeft(txs, n, exchange, at, start, days, hot, pool);
      }
      forall sorted | multiset(sorted) == multiset(txs) && SortedByMoment(sorted)
        ensures TakeRows(Rows(sorted)).Ok? && TakeRows(Rows(sorted)).value.checks == Checks(|txs|, 0, 0)
      {
        SortedLedgerAccepted(txs, sorted);
      }
    }
  }

  datatype Kind = Ransomware | DarknetMarket | Layering | Extortion | BenignMerchant | BenignPayroll

  /** How many transactions a scenario appends, at least and at most. */
  function SizeOf(kind: Kind): (nat, nat) {
    match kind
    case Ransomware => (35, 100)
    case DarknetMarket => (80, 251)
    case Layering => (22, 52)
    case Extortion => (12, 26)
    case BenignMerchant => (60, 163)
    case BenignPayroll => (4, 4)
  }
}
