/** The incremental address state of `causal_history` is the history by strictly earlier times. */
module CausalHistory {
  import opened Wrappers
  import opened Ranks
  import opened Causal

  type State = map<int, Entry>

  function Get(state: State, a: int): Entry { if a in state then state[a] else NOTHING }

  /** The state is the history up to `time`, for every known address. */
  ghost predicate Knows(state: State, txs: seq<Tx>, time: int) {
    forall a | a >= 0 :: Get(state, a) == History(txs, a, time)
  }

  // ---- the pending updates of a group -----------------------------------------------------

  function PendingOf(outs: seq<(int, int)>, addresses: seq<int>): seq<(int, int)> {
    seq(|addresses|, i requires 0 <= i < |addresses| => (addresses[i], ValueAt(outs, addresses[i])))
  }

  function Pending(txs: seq<Tx>, members: seq<nat>): seq<(int, int)>
    requires InRange(members, |txs|)
  {
    if members == [] then []
    else
      var last := members[|members| - 1];
      Pending(txs, members[..|members| - 1]) + PendingOf(txs[last].outs, Addresses(txs[last].outs))
  }

  function Applied(e: Entry, value: int, observed: int): Entry { Entry(e.count + 1, e.total + value, Some(observed)) }

  function ApplyAll(state: State, pending: seq<(int, int)>, observed: int): State {
    if pending == [] then state
    else
      var before, item := ApplyAll(state, pending[..|pending| - 1], observed), pending[|pending| - 1];
      before[item.0 := Applied(Get(before, item.0), item.1, observed)]
  }

  lemma {:induction false} ApplyJoin(state: State, p: seq<(int, int)>, q: seq<(int, int)>, observed: int)
    ensures ApplyAll(state, p + q, observed) == ApplyAll(ApplyAll(state, p, observed), q, observed)
  {
    if q == [] {
      assert p + q == p;
    } else {
      ApplyJoin(state, p, q[..|q| - 1], observed);
      assert (p + q)[..|p + q| - 1] == p + q[..|q| - 1];
    }
  }

  lemma {:induction false} ApplyOne(state: State, outs: seq<(int, int)>, addresses: seq<int>, observed: int, a: int)
    requires forall i, j | 0 <= i < j < |addresses| :: addresses[i] != addresses[j]
    ensures Get(ApplyAll(state, PendingOf(outs, addresses), observed), a) ==
      if a in addresses then Applied(Get(state, a), ValueAt(outs, a), observed) else Get(state, a)
  {
    if addresses != [] {
      var n := |addresses| - 1;
      assert PendingOf(outs, addresses)[..n] == PendingOf(outs, addresses[..n]);
      ApplyOne(state, outs, addresses[..n], observed, a);
      assert a in addresses <==> a in addresses[..n] || a == addresses[n];
    }
  }

  function Members(txs: seq<Tx>, members: seq<nat>): seq<Tx>
    requires InRange(members, |txs|)
  {
    seq(|members|, i requires 0 <= i < |members| => txs[members[i]])
  }

  lemma {:induction false} LastIsEarlier(txs: seq<Tx>, a: int, time: int)
    requires forall i | 0 <= i < |txs| :: txs[i].time < time
    ensures var e := Total(txs, a); e.last.Some? ==> e.last.value < time
  {
    if txs != [] {
      LastIsEarlier(txs[..|txs| - 1], a, time);
    }
  }

  lemma {:induction false} EarlierTimes(txs: seq<Tx>, time: int)
    ensures forall i | 0 <= i < |Earlier(txs, time)| :: Earlier(txs, time)[i].time < time
  {
    if txs != [] {
      EarlierTimes(txs[..|txs| - 1], time);
    }
  }

  /** The updates of a group do to an entry what its transactions do to the history. */
  lemma {:induction false} GroupApplied(state: State, txs: seq<Tx>, members: seq<nat>, before: seq<Tx>,
                                        observed: int, a: int)
    requires InRange(members, |txs|) && a >= 0 && Get(state, a) == Total(before, a)
    requires forall i | 0 <= i < |before| :: before[i].time < observed
    requires forall i | 0 <= i < |members| :: txs[members[i]].time == observed
    ensures Get(ApplyAll(state, Pending(txs, members), observed), a) == Total(before + Members(txs, members), a)
  {
    hide ApplyAll, Pending, Total;
    if members == [] {
      NoMembers(state, txs, observed);
      assert before + Members(txs, members) == before;
    } else {
      var n := |members| - 1;
      var prior := before + Members(txs, members[..n]);
      GroupApplied(state, txs, members[..n], before, observed, a);
      MemberApplied(state, txs, members, prior, observed, a);
      assert before + Members(txs, members) == prior + [txs[members[n]]];
    }
  }

  lemma NoMembers(state: State, txs: seq<Tx>, observed: int)
    ensures ApplyAll(state, Pending(txs, []), observed) == state
  {}

  lemma MemberApplied(state: State, txs: seq<Tx>, members: seq<nat>, prior: seq<Tx>, observed: int, a: int)
    requires InRange(members, |txs|) && a >= 0 && members != [] && txs[members[|members| - 1]].time == observed
    requires forall i | 0 <= i < |prior| :: prior[i].time <= observed
    requires Get(ApplyAll(state, Pending(txs, members[..|members| - 1]), observed), a) == Total(prior, a)
    ensures Get(ApplyAll(state, Pending(txs, members), observed), a) == Total(prior + [txs[members[|members| - 1]]], a)
  {
    hide Addresses;
    var n := |members| - 1;
    var front, tx := members[..n], txs[members[n]];
    assert (prior + [tx])[..|prior|] == prior;
    var held := ApplyAll(state, Pending(txs, front), observed);
    ApplyJoin(state, Pending(txs, front), PendingOf(tx.outs, Addresses(tx.outs)), observed);
    ApplyOne(held, tx.outs, Addresses(tx.outs), observed, a);
    LastIsEarlier(prior, a, observed + 1);
    OneUpdate(Total(prior, a), tx, a);
  }

  lemma OneUpdate(e: Entry, tx: Tx, a: int)
    requires a >= 0 && (e.last.Some? ==> e.last.value <= tx.time)
    ensures Update(e, tx, a) == if a in Addresses(tx.outs) then Applied(e, ValueAt(tx.outs, a), tx.time) else e
  {}

  /** Up to the next moment come the earlier transactions and those of this moment. */
  lemma {:induction false} EarlierNext(txs: seq<Tx>, time: int)
    ensures multiset(Earlier(txs, time + 1)) == multiset(Earlier(txs, time) + Members(txs, IndicesAt(txs, time)))
  {
    hide Has, IndicesAt, Members;
    NextMembers(txs, time);
    if txs != [] {
      var n := |txs| - 1;
      EarlierNext(txs[..n], time);
      var now := Members(txs[..n], IndicesAt(txs[..n], time));
      OneMoreInOrder(Earlier(txs[..n], time + 1), Earlier(txs[..n], time), now, txs[n], time);
    }
  }

  /** One more transaction goes before `time`, to it, or after it. */
  lemma OneMoreInOrder(next: seq<Tx>, earlier: seq<Tx>, now: seq<Tx>, tx: Tx, time: int)
    requires multiset(next) == multiset(earlier + now)
    ensures multiset(next + if tx.time < time + 1 then [tx] else [])
         == multiset((earlier + if tx.time < time then [tx] else []) + (now + if tx.time == time then [tx] else []))
  {
    if tx.time < time {
      assert now + [] == now;
      assert multiset(earlier + [tx] + now) == multiset(earlier + now) + multiset{tx};
    } else if tx.time == time {
      assert earlier + [] == earlier;
      assert earlier + (now + [tx]) == earlier + now + [tx];
    } else {
      assert earlier + [] == earlier && now + [] == now && next + [] == next;
    }
  }

  lemma NextMembers(txs: seq<Tx>, time: int)
    ensures if txs == [] then Members(txs, IndicesAt(txs, time)) == [] else
      var n := |txs| - 1;
      Members(txs, IndicesAt(txs, time)) ==
        Members(txs[..n], IndicesAt(txs[..n], time)) + if txs[n].time == time then [txs[n]] else []
  {
    hide Has;
  }

  lemma GroupKnown(state: State, txs: seq<Tx>, group: Group)
    requires Knows(state, txs, group.observed) && group.members == IndicesAt(txs, group.observed)
    ensures Knows(ApplyAll(state, Pending(txs, group.members), group.observed), txs, group.observed + 1)
  {
    hide Earlier, Total, Addresses, Pending, ApplyAll;
    var time, members := group.observed, group.members;
    forall i | 0 <= i < |members| ensures txs[members[i]].time == time {
      assert Has(members, members[i]);
    }
    EarlierTimes(txs, time);
    EarlierNext(txs, time);
    forall a | a >= 0
      ensures Get(ApplyAll(state, Pending(txs, members), time), a) == History(txs, a, time + 1)
    {
      GroupApplied(state, txs, members, Earlier(txs, time), time, a);
      TotalOfSame(Earlier(txs, time + 1), Earlier(txs, time) + Members(txs, members), a);
    }
  }

  lemma {:induction false} NoneBetween(txs: seq<Tx>, low: int, high: int)
    requires low <= high && forall i | 0 <= i < |txs| :: txs[i].time < low || high <= txs[i].time
    ensures Earlier(txs, low) == Earlier(txs, high)
  {
    if txs != [] {
      NoneBetween(txs[..|txs| - 1], low, high);
    }
  }

  lemma {:induction false} NoneBefore(txs: seq<Tx>, time: int)
    requires forall i | 0 <= i < |txs| :: time <= txs[i].time
    ensures Earlier(txs, time) == []
  {
    if txs != [] {
      NoneBefore(txs[..|txs| - 1], time);
    }
  }

  /** All times are those of the groups. */
  ghost predicate Complete(txs: seq<Tx>, groups: seq<Group>) {
    Groups(txs, groups) && forall i | 0 <= i < |txs| :: Grouped(groups, txs[i].time)
  }

  lemma FirstGroup(txs: seq<Tx>, groups: seq<Group>)
    requires Complete(txs, groups) && groups != []
    ensures Knows(map[], txs, groups[0].observed)
  {
    forall i | 0 <= i < |txs| ensures groups[0].observed <= txs[i].time {
      assert Grouped(groups, txs[i].time);
    }
    NoneBefore(txs, groups[0].observed);
  }

  lemma NextGroupKnown(state: State, txs: seq<Tx>, groups: seq<Group>, g: nat)
    requires Complete(txs, groups) && g + 1 < |groups| && Knows(state, txs, groups[g].observed + 1)
    ensures Knows(state, txs, groups[g + 1].observed)
  {
    forall i | 0 <= i < |txs| ensures txs[i].time < groups[g].observed + 1 || groups[g + 1].observed <= txs[i].time {
      assert Grouped(groups, txs[i].time);
      var h :| 0 <= h < |groups| && groups[h].observed == txs[i].time;
      assert h < g ==> groups[h].observed < groups[g].observed;
      assert h > g + 1 ==> groups[g + 1].observed < groups[h].observed;
    }
    NoneBetween(txs, groups[g].observed + 1, groups[g + 1].observed);
  }

  // ---- the loop ---------------------------------------------------------------------------------

  /** The rows of the groups done so far. */
  ghost predicate RowsDone(txs: seq<Tx>, groups: seq<Group>, g: nat, rows: seq<Row>) {
    && |rows| == |txs|
    && forall i, h | 0 <= i < |txs| && 0 <= h < g && h < |groups| && groups[h].observed == txs[i].time ::
         rows[i] == RowAt(txs, i)
  }

  /** What the state knows of the addresses of a transaction. */
  function PriorOf(state: State, addresses: seq<int>): seq<Entry> {
    seq(|addresses|, i requires 0 <= i < |addresses| => Get(state, addresses[i]))
  }

  lemma PriorsKnown(state: State, txs: seq<Tx>, i: nat)
    requires i < |txs| && Knows(state, txs, txs[i].time)
    ensures Features(PriorOf(state, Addresses(txs[i].outs)), txs[i].time) == RowAt(txs, i)
  {
    var addresses := Addresses(txs[i].outs);
    assert forall k | 0 <= k < |addresses| :: addresses[k] in addresses;
    assert PriorOf(state, addresses) == Priors(txs, addresses, txs[i].time);
  }

  /** The transactions of one group: their rows, and what they leave pending. */
  method GroupRows(txs: seq<Tx>, group: Group, state: State, rows: array<Row>) returns (pending: seq<(int, int)>)
    requires Knows(state, txs, group.observed) && group.members == IndicesAt(txs, group.observed)
    requires rows.Length == |txs|
    modifies rows
    ensures pending == Pending(txs, group.members)
    ensures forall i | 0 <= i < |txs| ::
      rows[i] == if txs[i].time == group.observed then RowAt(txs, i) else old(rows[i])
  {
    hide RowAt, Knows, Addresses, PendingOf, Rowed;
    pending := [];
    var members := group.members;
    ghost var before := rows[..];
    NoneRowed(txs, members, before);
    for k := 0 to |members|
      invariant pending == Pending(txs, members[..k]) && Rowed(txs, members[..k], before, rows[..])
    {
      var tx := txs[members[k]];
      assert Has(members, members[k]);
      assert members[..k + 1] == members[..k] + [members[k]];
      var addresses := Addresses(tx.outs);
      PriorsKnown(state, txs, members[k]);
      ghost var done := rows[..];
      rows[members[k]] := Features(PriorOf(state, addresses), group.observed);
      RowedMore(txs, members[..k], members[k], before, done, rows[..]);
      pending := pending + PendingOf(tx.outs, addresses);
    }
    assert members[..|members|] == members;
    AllRowed(txs, group, before, rows[..]);
  }

  /** The members have their row, the others what they had. */
  ghost predicate Rowed(txs: seq<Tx>, members: seq<nat>, before: seq<Row>, rows: seq<Row>) {
    && |rows| == |before| == |txs|
    && forall i | 0 <= i < |txs| :: rows[i] == if Has(members, i) then RowAt(txs, i) else before[i]
  }

  lemma NoneRowed(txs: seq<Tx>, members: seq<nat>, rows: seq<Row>)
    requires |rows| == |txs|
    ensures Rowed(txs, members[..0], rows, rows)
  {}

  lemma RowedMore(txs: seq<Tx>, members: seq<nat>, next: nat, before: seq<Row>, rows: seq<Row>, after: seq<Row>)
    requires Rowed(txs, members, before, rows) && next < |txs| && after == rows[next := RowAt(txs, next)]
    ensures Rowed(txs, members + [next], before, after)
  {
    HasMore(members, next);
  }

  lemma AllRowed(txs: seq<Tx>, group: Group, before: seq<Row>, rows: seq<Row>)
    requires Rowed(txs, group.members, before, rows) && group.members == IndicesAt(txs, group.observed)
    ensures forall i | 0 <= i < |txs| :: rows[i] == if txs[i].time == group.observed then RowAt(txs, i) else before[i]
  {}

  method ApplyPending(state: State, pending: seq<(int, int)>, observed: int) returns (after: State)
    ensures after == ApplyAll(state, pending, observed)
  {
    after := state;
    for k := 0 to |pending|
      invariant after == ApplyAll(state, pending[..k], observed)
    {
      assert pending[..k + 1][..k] == pending[..k];
      var item := pending[k];
      after := after[item.0 := Applied(Get(after, item.0), item.1, observed)];
    }
    assert pending[..|pending|] == pending;
  }

  /** `causal_history`: every row is the row of strictly earlier transactions. */
  method Rows(txs: seq<Tx>) returns (rows: array<Row>)
    ensures fresh(rows) && rows.Length == |txs|
    ensures forall i | 0 <= i < |txs| :: rows[i] == RowAt(txs, i)
  {
    hide Knows, Groups, Grouped, RowsDone, Before, IndicesAt, RowAt, Pending, ApplyAll;
    var groups := TimeGroups(txs);
    rows := new Row[|txs|](_ => BLANK);
    var state: State := map[];
    NothingDone(txs, groups, rows[..]);
    for g := 0 to |groups|
      invariant fresh(rows) && RowsDone(txs, groups, g, rows[..]) && Before(state, txs, groups, g)
      invariant rows.Length == |txs|
    {
      var group := groups[g];
      GroupStart(state, txs, groups, g);
      ghost var before := rows[..];
      var pending := GroupRows(txs, group, state, rows);
      GroupDone(txs, groups, g, before, rows[..]);
      GroupKnown(state, txs, group);
      state := ApplyPending(state, pending, group.observed);
      GroupEnd(state, txs, groups, g);
    }
    AllDone(txs, groups, rows[..]);
  }

  /** The state before group `g`. */
  ghost predicate Before(state: State, txs: seq<Tx>, groups: seq<Group>, g: nat) {
    if g == 0 then state == map[] else g <= |groups| && Knows(state, txs, groups[g - 1].observed + 1)
  }

  lemma NothingDone(txs: seq<Tx>, groups: seq<Group>, rows: seq<Row>)
    requires |rows| == |txs|
    ensures RowsDone(txs, groups, 0, rows) && Before(map[], txs, groups, 0)
  {}

  lemma GroupStart(state: State, txs: seq<Tx>, groups: seq<Group>, g: nat)
    requires Complete(txs, groups) && g < |groups| && Before(state, txs, groups, g)
    ensures Knows(state, txs, groups[g].observed) && groups[g].members == IndicesAt(txs, groups[g].observed)
  {
    if g == 0 {
      FirstGroup(txs, groups);
    } else {
      NextGroupKnown(state, txs, groups, g - 1);
    }
  }

  lemma GroupEnd(state: State, txs: seq<Tx>, groups: seq<Group>, g: nat)
    requires g < |groups| && Knows(state, txs, groups[g].observed + 1)
    ensures Before(state, txs, groups, g + 1)
  {}

  lemma GroupDone(txs: seq<Tx>, groups: seq<Group>, g: nat, before: seq<Row>, after: seq<Row>)
    requires Groups(txs, groups) && g < |groups| && RowsDone(txs, groups, g, before) && |after| == |txs|
    requires forall i | 0 <= i < |txs| ::
      after[i] == if txs[i].time == groups[g].observed then RowAt(txs, i) else before[i]
    ensures RowsDone(txs, groups, g + 1, after)
  {}

  lemma AllDone(txs: seq<Tx>, groups: seq<Group>, rows: seq<Row>)
    requires Complete(txs, groups) && RowsDone(txs, groups, |groups|, rows)
    ensures forall i | 0 <= i < |txs| :: rows[i] == RowAt(txs, i)
  {
    forall i | 0 <= i < |txs| ensures rows[i] == RowAt(txs, i) {
      assert Grouped(groups, txs[i].time);
    }
  }
}
