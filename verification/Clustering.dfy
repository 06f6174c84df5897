/** The pairwise clustering counts of `evaluate` in scripts/evaluate_scenarios.py. */
module Clustering {
  import opened Wrappers
  import opened Sequences

  /** An address of the truth, with its wallet and the entity predicted for it, if any. */
  datatype Item = Item(address: string, wallet: string, entity: Option<string>)

  /** The two groupings of the counts. */
  datatype Side = Wallet | Entity

  function Key(side: Side, x: Item): Option<string> { if side.Wallet? then Some(x.wallet) else x.entity }

  predicate Together(side: Side, x: Item, y: Item) { Key(side, x).Some? && Key(side, x) == Key(side, y) }

  /** What a pair is tested for: nothing, being joined by the prediction (an empty entity joins nothing), having
      one wallet; or being of one group and passing a further test. */
  datatype Test = Any | Joined | SameWallet | Within(side: Side, test: Test)

  predicate Holds(p: Test, x: Item, y: Item) {
    match p
    case Any => true
    case Joined => x.entity.Some? && x.entity.value != "" && x.entity == y.entity
    case SameWallet => x.wallet == y.wallet
    case Within(side, test) => Together(side, x, y) && Holds(test, x, y)
  }

  lemma {:induction false} Symmetric(p: Test, x: Item, y: Item)
    ensures Holds(p, x, y) == Holds(p, y, x)
  {
    if p.Within? {
      Symmetric(p.test, x, y);
    }
  }

  // ---- counting pairs --------------------------------------------------------------------

  /** How many of `s` match `x`. */
  function Matches(s: seq<Item>, x: Item, p: Test): nat {
    if s == [] then 0 else Matches(s[..|s| - 1], x, p) + if Holds(p, s[|s| - 1], x) then 1 else 0
  }

  /** How many unordered pairs match. */
  function Pairs(s: seq<Item>, p: Test): nat {
    if s == [] then 0 else Pairs(s[..|s| - 1], p) + Matches(s[..|s| - 1], s[|s| - 1], p)
  }

  lemma {:induction false} MatchesWithout(s: seq<Item>, k: nat, x: Item, p: Test)
    requires k < |s|
    ensures Matches(s, x, p) == Matches(Without(s, k), x, p) + if Holds(p, s[k], x) then 1 else 0
  {
    if k < |s| - 1 {
      MatchesWithout(s[..|s| - 1], k, x, p);
      WithoutFront(s, k);
    } else {
      WithoutEnd(s);
    }
  }

  lemma {:induction false} PairsWithout(s: seq<Item>, k: nat, p: Test)
    requires k < |s|
    ensures Pairs(s, p) == Pairs(Without(s, k), p) + Matches(Without(s, k), s[k], p)
  {
    var n := |s| - 1;
    if k < n {
      PairsWithout(s[..n], k, p);
      WithoutFront(s, k);
      MatchesWithout(s[..n], k, s[n], p);
      Symmetric(p, s[k], s[n]);
    } else {
      WithoutEnd(s);
    }
  }

  lemma {:induction false} MatchesPermuted(s: seq<Item>, t: seq<Item>, x: Item, p: Test)
    requires multiset(s) == multiset(t)
    ensures Matches(s, x, p) == Matches(t, x, p)
  {
    SameLength(s, t);
    if s != [] {
      var k := PairLast(s, t);
      MatchesPermuted(s[..|s| - 1], Without(t, k), x, p);
      MatchesWithout(t, k, x, p);
    }
  }

  /** The number of pairs does not depend on the order, so neither sorting nor the order of a dictionary
      changes a count. */
  lemma {:induction false} PairsPermuted(s: seq<Item>, t: seq<Item>, p: Test)
    requires multiset(s) == multiset(t)
    ensures Pairs(s, p) == Pairs(t, p)
  {
    SameLength(s, t);
    if s != [] {
      var n := |s| - 1;
      var k := PairLast(s, t);
      PairsPermuted(s[..n], Without(t, k), p);
      MatchesPermuted(s[..n], Without(t, k), s[n], p);
      PairsWithout(t, k, p);
    }
  }

  // ---- grouping ----------------------------------------------------------------------------

  datatype Group = Group(key: string, members: seq<Item>)

  /** The members of a group, in order. */
  function WithKey(side: Side, items: seq<Item>, key: string): seq<Item> {
    if items == [] then []
    else
      var front, last := WithKey(side, items[..|items| - 1], key), items[|items| - 1];
      if Key(side, last) == Some(key) then front + [last] else front
  }

  /** Every key once, with all its items. */
  ghost predicate Grouped(side: Side, items: seq<Item>, groups: seq<Group>) {
    && (forall g, h | 0 <= g < h < |groups| :: groups[g].key != groups[h].key)
    && (forall g | 0 <= g < |groups| :: groups[g].members == WithKey(side, items, groups[g].key))
    && (forall i | 0 <= i < |items| && Key(side, items[i]).Some? :: HasKey(groups, Key(side, items[i]).value))
  }

  ghost predicate HasKey(groups: seq<Group>, key: string) { exists g :: 0 <= g < |groups| && groups[g].key == key }

  /** `by_truth` and `by_predicted`. */
  method GroupBy(side: Side, items: seq<Item>) returns (groups: seq<Group>)
    ensures Grouped(side, items, groups)
  {
    hide Grouped;
    groups := [];
    NoGroups(side);
    for i := 0 to |items|
      invariant Grouped(side, items[..i], groups)
    {
      assert items[..i + 1] == items[..i] + [items[i]];
      var key := Key(side, items[i]);
      if key.Some? {
        groups := Add(side, items[..i], groups, items[i], key.value);
      } else {
        KeylessItem(side, items[..i], groups, items[i]);
      }
    }
    assert items[..|items|] == items;
  }

  lemma NoGroups(side: Side)
    ensures Grouped(side, [], [])
  {}

  lemma KeylessItem(side: Side, items: seq<Item>, groups: seq<Group>, x: Item)
    requires Grouped(side, items, groups) && Key(side, x).None?
    ensures Grouped(side, items + [x], groups)
  {
    assert (items + [x])[..|items|] == items;
  }

  method Add(side: Side, ghost items: seq<Item>, groups: seq<Group>, x: Item, key: string) returns (more: seq<Group>)
    requires Grouped(side, items, groups) && Key(side, x) == Some(key)
    ensures Grouped(side, items + [x], more)
  {
    hide Grouped;
    var g := 0;
    while g < |groups| && groups[g].key != key
      invariant 0 <= g <= |groups| && forall h | 0 <= h < g :: groups[h].key != key
    {
      g := g + 1;
    }
    if g < |groups| {
      more := groups[g := Group(key, groups[g].members + [x])];
      AddToGroup(side, items, groups, x, g);
    } else {
      more := groups + [Group(key, [x])];
      AddNewGroup(side, items, groups, x, key);
    }
  }

  lemma AddToGroup(side: Side, items: seq<Item>, groups: seq<Group>, x: Item, g: nat)
    requires Grouped(side, items, groups) && g < |groups| && Key(side, x) == Some(groups[g].key)
    ensures Grouped(side, items + [x], groups[g := Group(groups[g].key, groups[g].members + [x])])
  {
    var more := groups[g := Group(groups[g].key, groups[g].members + [x])];
    assert (items + [x])[..|items|] == items;
    assert more[g].key == groups[g].key;
    SameKeys(groups, more);
  }

  lemma AddNewGroup(side: Side, items: seq<Item>, groups: seq<Group>, x: Item, key: string)
    requires Grouped(side, items, groups) && Key(side, x) == Some(key)
    requires forall h | 0 <= h < |groups| :: groups[h].key != key
    ensures Grouped(side, items + [x], groups + [Group(key, [x])])
  {
    var more := groups + [Group(key, [x])];
    assert (items + [x])[..|items|] == items;
    assert more[|groups|].key == key;
    NoneYet(side, items, groups, key);
    SameKeys(groups, more);
  }

  lemma {:induction false} NoneYet(side: Side, items: seq<Item>, groups: seq<Group>, key: string)
    requires forall i | 0 <= i < |items| && Key(side, items[i]).Some? :: HasKey(groups, Key(side, items[i]).value)
    requires forall h | 0 <= h < |groups| :: groups[h].key != key
    ensures WithKey(side, items, key) == []
  {
    if items != [] {
      NoneYet(side, items[..|items| - 1], groups, key);
    }
  }

  lemma SameKeys(groups: seq<Group>, more: seq<Group>)
    requires |groups| <= |more| && forall g | 0 <= g < |groups| :: more[g].key == groups[g].key
    ensures forall k | HasKey(groups, k) :: HasKey(more, k)
  {
    forall k | HasKey(groups, k) ensures HasKey(more, k) {
      var g :| 0 <= g < |groups| && groups[g].key == k;
      assert more[g].key == k;
    }
  }

  /** The pairs inside the groups, group by group. */
  function Inside(groups: seq<Group>, p: Test): nat {
    if groups == [] then 0 else Inside(groups[..|groups| - 1], p) + Pairs(groups[|groups| - 1].members, p)
  }

  function Filtered(side: Side, items: seq<Item>, keys: seq<string>): seq<Group> {
    seq(|keys|, g requires 0 <= g < |keys| => Group(keys[g], WithKey(side, items, keys[g])))
  }

  lemma {:induction false} MatchesOfKey(side: Side, items: seq<Item>, key: string, x: Item, p: Test)
    requires Key(side, x) == Some(key)
    ensures Matches(WithKey(side, items, key), x, p) == Matches(items, x, Within(side, p))
  {
    if items != [] {
      var n := |items| - 1;
      MatchesOfKey(side, items[..n], key, x, p);
      var front := WithKey(side, items[..n], key);
      assert (front + [items[n]])[..|front|] == front;
    }
  }

  /** A further item adds its matches to the group of its key, and to no other. */
  lemma {:induction false} InsideMore(side: Side, items: seq<Item>, x: Item, keys: seq<string>, p: Test)
    requires forall g, h | 0 <= g < h < |keys| :: keys[g] != keys[h]
    ensures Inside(Filtered(side, items + [x], keys), p) == Inside(Filtered(side, items, keys), p) +
      if Key(side, x).Some? && Key(side, x).value in keys then Matches(items, x, Within(side, p)) else 0
  {
    hide Pairs, Filter, Matches, Key;
    if keys != [] {
      var n := |keys| - 1;
      InsideMore(side, items, x, keys[..n], p);
      FilteredFront(side, items, keys);
      FilteredFront(side, items + [x], keys);
      GroupMore(side, items, x, keys[n], p);
      assert keys == keys[..n] + [keys[n]];
    }
  }

  lemma FilteredFront(side: Side, items: seq<Item>, keys: seq<string>)
    requires keys != []
    ensures Filtered(side, items, keys)[..|keys| - 1] == Filtered(side, items, keys[..|keys| - 1])
  {}

  lemma GroupMore(side: Side, items: seq<Item>, x: Item, key: string, p: Test)
    ensures Pairs(WithKey(side, items + [x], key), p) == Pairs(WithKey(side, items, key), p) +
      if Key(side, x) == Some(key) then Matches(items, x, Within(side, p)) else 0
  {
    var front := WithKey(side, items, key);
    assert (items + [x])[..|items|] == items;
    if Key(side, x) == Some(key) {
      assert (front + [x])[..|front|] == front;
      MatchesOfKey(side, items, key, x, p);
    }
  }

  lemma {:induction false} InsideNothing(side: Side, keys: seq<string>, p: Test)
    ensures Inside(Filtered(side, [], keys), p) == 0
  {
    if keys != [] {
      InsideNothing(side, keys[..|keys| - 1], p);
      FilteredFront(side, [], keys);
    }
  }

  lemma {:induction false} InsideAll(side: Side, items: seq<Item>, keys: seq<string>, p: Test)
    requires forall g, h | 0 <= g < h < |keys| :: keys[g] != keys[h]
    requires forall i | 0 <= i < |items| && Key(side, items[i]).Some? :: Key(side, items[i]).value in keys
    ensures Inside(Filtered(side, items, keys), p) == Pairs(items, Within(side, p))
  {
    if items == [] {
      InsideNothing(side, keys, p);
    } else {
      var n := |items| - 1;
      InsideAll(side, items[..n], keys, p);
      assert items == items[..n] + [items[n]];
      InsideMore(side, items[..n], items[n], keys, p);
      NoKeyNoMatch(side, items[..n], items[n], p);
    }
  }

  lemma {:induction false} NoKeyNoMatch(side: Side, items: seq<Item>, x: Item, p: Test)
    ensures Key(side, x).None? ==> Matches(items, x, Within(side, p)) == 0
  {
    if items != [] {
      NoKeyNoMatch(side, items[..|items| - 1], x, p);
    }
  }

  function Keys(groups: seq<Group>): seq<string> { seq(|groups|, g requires 0 <= g < |groups| => groups[g].key) }

  /** Counting inside the groups counts each matching pair of one group once. */
  lemma GroupsCountPairs(side: Side, items: seq<Item>, groups: seq<Group>, p: Test)
    requires Grouped(side, items, groups)
    ensures Inside(groups, p) == Pairs(items, Within(side, p))
  {
    var keys := Keys(groups);
    forall i | 0 <= i < |items| && Key(side, items[i]).Some? ensures Key(side, items[i]).value in keys {
      assert HasKey(groups, Key(side, items[i]).value);
      var g :| 0 <= g < |groups| && groups[g].key == Key(side, items[i]).value;
      assert keys[g] == Key(side, items[i]).value;
    }
    InsideAll(side, items, keys, p);
    assert Filtered(side, items, keys) == groups;
  }

  // ---- the counts ---------------------------------------------------------------------------------

  /** The pairs of a group that match, by the two loops over combinations. */
  method CountPairs(s: seq<Item>, p: Test) returns (all: nat, matching: nat)
    ensures all == Pairs(s, Any) && matching == Pairs(s, p)
  {
    all, matching := 0, 0;
    for j := 0 to |s|
      invariant all == Pairs(s[..j], Any) && matching == Pairs(s[..j], p)
    {
      assert s[..j + 1][..j] == s[..j];
      for i := 0 to j
        invariant all == Pairs(s[..j], Any) + Matches(s[..i], s[j], Any)
        invariant matching == Pairs(s[..j], p) + Matches(s[..i], s[j], p)
      {
        assert s[..i + 1][..i] == s[..i];
        all := all + 1;
        if Holds(p, s[i], s[j]) {
          matching := matching + 1;
        }
      }
    }
    assert s[..|s|] == s;
  }

  method CountGroups(side: Side, items: seq<Item>, p: Test) returns (all: nat, matching: nat)
    ensures all == Pairs(items, Within(side, Any)) && matching == Pairs(items, Within(side, p))
  {
    var groups := GroupBy(side, items);
    all, matching := 0, 0;
    for g := 0 to |groups|
      invariant all == Inside(groups[..g], Any) && matching == Inside(groups[..g], p)
    {
      assert groups[..g + 1][..g] == groups[..g];
      var a, m := CountPairs(groups[g].members, p);
      all, matching := all + a, matching + m;
    }
    assert groups[..|groups|] == groups;
    GroupsCountPairs(side, items, groups, Any);
    GroupsCountPairs(side, items, groups, p);
  }

  lemma {:induction false} MatchesAny(s: seq<Item>, x: Item)
    ensures Matches(s, x, Any) == |s|
  {
    if s != [] {
      MatchesAny(s[..|s| - 1], x);
    }
  }

  /** A list of m holds m (m - 1) / 2 pairs. */
  lemma {:induction false} PairsOfAny(s: seq<Item>)
    ensures Pairs(s, Any) == |s| * (|s| - 1) / 2
  {
    if s != [] {
      var m := |s| - 1;
      PairsOfAny(s[..m]);
      MatchesAny(s[..m], s[m]);
      Triangle(m);
    }
  }

  lemma Triangle(m: nat)
    ensures m * (m - 1) / 2 + m == (m + 1) * m / 2
  {
    assert (m + 1) * m == m * (m - 1) + 2 * m;
  }

  /** The predicted groups: their pairs by the formula, those of one wallet by the loop. */
  method CountPredicted(predicted: seq<Item>) returns (all: nat, matching: nat)
    ensures all == Pairs(predicted, Within(Entity, Any)) && matching == Pairs(predicted, Within(Entity, SameWallet))
  {
    var groups := GroupBy(Entity, predicted);
    all, matching := 0, 0;
    for g := 0 to |groups|
      invariant all == Inside(groups[..g], Any) && matching == Inside(groups[..g], SameWallet)
    {
      assert groups[..g + 1][..g] == groups[..g];
      var members := groups[g].members;
      PairsOfAny(members);
      var _, m := CountPairs(members, SameWallet);
      all, matching := all + |members| * (|members| - 1) / 2, matching + m;
    }
    assert groups[..|groups|] == groups;
    GroupsCountPairs(Entity, predicted, groups, Any);
    GroupsCountPairs(Entity, predicted, groups, SameWallet);
  }

  datatype Counts = Counts(truePairs: nat, both: nat, predictedPairs: nat, precisionPairs: nat)

  /** The counts of `entity_clustering`. `predicted` lists the predicted addresses in the order of their
      dictionary. */
  method Count(items: seq<Item>, predicted: seq<Item>) returns (c: Counts)
    ensures c.truePairs == Pairs(items, Within(Wallet, Any)) && c.both == Pairs(items, Within(Wallet, Joined))
    ensures c.predictedPairs == Pairs(predicted, Within(Entity, Any))
    ensures c.precisionPairs == Pairs(predicted, Within(Entity, SameWallet))
  {
    var truePairs, both := CountGroups(Wallet, items, Joined);
    var predictedPairs, precisionPairs := CountPredicted(predicted);
    c := Counts(truePairs, both, predictedPairs, precisionPairs);
  }

  lemma {:induction false} MatchesWeaker(s: seq<Item>, x: Item, p: Test, q: Test)
    requires forall a, b :: Holds(p, a, b) ==> Holds(q, a, b)
    ensures Matches(s, x, p) <= Matches(s, x, q)
  {
    if s != [] {
      MatchesWeaker(s[..|s| - 1], x, p, q);
    }
  }

  lemma {:induction false} PairsWeaker(s: seq<Item>, p: Test, q: Test)
    requires forall a, b :: Holds(p, a, b) ==> Holds(q, a, b)
    ensures Pairs(s, p) <= Pairs(s, q)
  {
    if s != [] {
      PairsWeaker(s[..|s| - 1], p, q);
      MatchesWeaker(s[..|s| - 1], s[|s| - 1], p, q);
    }
  }

  // ---- what the counters count ----------------------------------------------------------------

  /** The pairs of places that pass. */
  ghost function PairSet(s: seq<Item>, p: Test): set<(nat, nat)> {
    set i: nat, j: nat | i < j < |s| && Holds(p, s[i], s[j]) :: (i, j)
  }

  ghost function MatchSet(s: seq<Item>, x: Item, p: Test): set<nat> { set i: nat | i < |s| && Holds(p, s[i], x) }

  lemma {:induction false} MatchesIsSize(s: seq<Item>, x: Item, p: Test)
    ensures Matches(s, x, p) == |MatchSet(s, x, p)|
  {
    hide Holds;
    if s != [] {
      var n := |s| - 1;
      MatchesIsSize(s[..n], x, p);
      assert MatchSet(s, x, p) == MatchSet(s[..n], x, p) + if Holds(p, s[n], x) then {n} else {};
    }
  }

  ghost function Beside(places: set<nat>, n: nat): set<(nat, nat)> { set i | i in places :: (i, n) }

  lemma {:induction false} BesideSize(places: set<nat>, n: nat)
    ensures |Beside(places, n)| == |places|
  {
    if i :| i in places {
      BesideSize(places - {i}, n);
      assert Beside(places, n) == Beside(places - {i}, n) + {(i, n)};
    } else {
      assert Beside(places, n) == {};
    }
  }

  lemma {:induction false} PairsIsSize(s: seq<Item>, p: Test)
    ensures Pairs(s, p) == |PairSet(s, p)|
  {
    if s != [] {
      var n := |s| - 1;
      PairsIsSize(s[..n], p);
      MatchesIsSize(s[..n], s[n], p);
      BesideSize(MatchSet(s[..n], s[n], p), n);
      LastPairs(s, p);
    } else {
      assert PairSet(s, p) == {};
    }
  }

  lemma LastPairs(s: seq<Item>, p: Test)
    requires s != []
    ensures var n := |s| - 1;
      var front, last := PairSet(s[..n], p), Beside(MatchSet(s[..n], s[n], p), n);
      PairSet(s, p) == front + last && front !! last
  {
    var n := |s| - 1;
    var front, last := PairSet(s[..n], p), Beside(MatchSet(s[..n], s[n], p), n);
    forall q ensures q in PairSet(s, p) <==> q in front + last {
      if q in PairSet(s, p) && q.1 == n {
        assert q.0 in MatchSet(s[..n], s[n], p) && q == (q.0, n);
      }
    }
  }

  /** The four counters, in the terms of the report: pairs of addresses of one wallet; those of them whose predicted
      entities are equal and not empty; pairs of one predicted entity; those of them that share their wallet. */
  lemma CountersCount(items: seq<Item>, predicted: seq<Item>)
    ensures Pairs(items, Within(Wallet, Any)) ==
      |set i: nat, j: nat | i < j < |items| && items[i].wallet == items[j].wallet :: (i, j)|
    ensures Pairs(items, Within(Wallet, Joined)) ==
      |set i: nat, j: nat | i < j < |items| && items[i].wallet == items[j].wallet && items[i].entity.Some? &&
                            items[i].entity.value != "" && items[i].entity == items[j].entity :: (i, j)|
    ensures Pairs(predicted, Within(Entity, Any)) ==
      |set i: nat, j: nat | i < j < |predicted| && predicted[i].entity.Some? &&
                            predicted[i].entity == predicted[j].entity :: (i, j)|
    ensures Pairs(predicted, Within(Entity, SameWallet)) ==
      |set i: nat, j: nat | i < j < |predicted| && predicted[i].entity.Some? &&
                            predicted[i].entity == predicted[j].entity &&
                            predicted[i].wallet == predicted[j].wallet :: (i, j)|
  {
    hide Pairs;
    PairsIsSize(items, Within(Wallet, Any));
    PairsIsSize(items, Within(Wallet, Joined));
    PairsIsSize(predicted, Within(Entity, Any));
    PairsIsSize(predicted, Within(Entity, SameWallet));
    WalletPairs(items);
    EntityPairs(predicted);
  }

  lemma WalletPairs(items: seq<Item>)
    ensures PairSet(items, Within(Wallet, Any)) ==
      set i: nat, j: nat | i < j < |items| && items[i].wallet == items[j].wallet :: (i, j)
    ensures PairSet(items, Within(Wallet, Joined)) ==
      set i: nat, j: nat | i < j < |items| && items[i].wallet == items[j].wallet && items[i].entity.Some? &&
                           items[i].entity.value != "" && items[i].entity == items[j].entity :: (i, j)
  {
    forall x, y ensures Holds(Within(Wallet, Any), x, y) <==> x.wallet == y.wallet {}
    forall x, y
      ensures Holds(Within(Wallet, Joined), x, y) <==>
        x.wallet == y.wallet && x.entity.Some? && x.entity.value != "" && x.entity == y.entity
    {}
  }

  lemma EntityPairs(items: seq<Item>)
    ensures PairSet(items, Within(Entity, Any)) ==
      set i: nat, j: nat | i < j < |items| && items[i].entity.Some? && items[i].entity == items[j].entity :: (i, j)
    ensures PairSet(items, Within(Entity, SameWallet)) ==
      set i: nat, j: nat | i < j < |items| && items[i].entity.Some? && items[i].entity == items[j].entity &&
                           items[i].wallet == items[j].wallet :: (i, j)
  {
    forall x, y ensures Holds(Within(Entity, Any), x, y) <==> x.entity.Some? && x.entity == y.entity {}
    forall x, y
      ensures Holds(Within(Entity, SameWallet), x, y) <==>
        x.entity.Some? && x.entity == y.entity && x.wallet == y.wallet
    {}
  }

  /** Recall and precision are fractions. */
  lemma CountsAreFractions(items: seq<Item>, predicted: seq<Item>)
    ensures Pairs(items, Within(Wallet, Joined)) <= Pairs(items, Within(Wallet, Any))
    ensures Pairs(predicted, Within(Entity, SameWallet)) <= Pairs(predicted, Within(Entity, Any))
  {
    PairsWeaker(items, Within(Wallet, Joined), Within(Wallet, Any));
    PairsWeaker(predicted, Within(Entity, SameWallet), Within(Entity, Any));
  }

  /** The predicted items of the truth. */
  function Predicted(items: seq<Item>): seq<Item> {
    if items == [] then []
    else
      var front, last := Predicted(items[..|items| - 1]), items[|items| - 1];
      if last.entity.Some? then front + [last] else front
  }

  ghost predicate NoEmptyEntity(items: seq<Item>) { forall i | 0 <= i < |items| :: items[i].entity != Some("") }

  lemma WithinHolds(side: Side, test: Test, x: Item, y: Item)
    ensures Holds(Within(side, test), x, y) <==> Together(side, x, y) && Holds(test, x, y)
  {}

  lemma {:induction false} MatchesOfPredicted(items: seq<Item>, x: Item)
    requires x.entity.Some? && x.entity.value != ""
    ensures Matches(Predicted(items), x, Within(Entity, SameWallet)) == Matches(items, x, Within(Wallet, Joined))
  {
    if items != [] {
      var n := |items| - 1;
      MatchesOfPredicted(items[..n], x);
      WithinHolds(Entity, SameWallet, items[n], x);
      WithinHolds(Wallet, Joined, items[n], x);
      var front := Predicted(items[..n]);
      assert (front + [items[n]])[..|front|] == front;
    }
  }

  lemma {:induction false} NothingJoins(items: seq<Item>, x: Item)
    requires x.entity.None?
    ensures Matches(items, x, Within(Wallet, Joined)) == 0
  {
    if items != [] {
      NothingJoins(items[..|items| - 1], x);
      WithinHolds(Wallet, Joined, items[|items| - 1], x);
    }
  }

  lemma {:induction false} BothInOrder(items: seq<Item>)
    requires NoEmptyEntity(items)
    ensures Pairs(Predicted(items), Within(Entity, SameWallet)) == Pairs(items, Within(Wallet, Joined))
  {
    if items != [] {
      var n := |items| - 1;
      BothInOrder(items[..n]);
      var front := Predicted(items[..n]);
      if items[n].entity.Some? {
        assert (front + [items[n]])[..|front|] == front;
        MatchesOfPredicted(items[..n], items[n]);
      } else {
        NothingJoins(items[..n], items[n]);
      }
    }
  }

  /** Without an empty entity, recall and precision have the same numerator: the pairs that truth and
      prediction both join. */
  lemma RecallMeetsPrecision(items: seq<Item>, predicted: seq<Item>)
    requires NoEmptyEntity(items) && multiset(predicted) == multiset(Predicted(items))
    ensures Pairs(predicted, Within(Entity, SameWallet)) == Pairs(items, Within(Wallet, Joined))
  {
    BothInOrder(items);
    PairsPermuted(predicted, Predicted(items), Within(Entity, SameWallet));
  }
}
