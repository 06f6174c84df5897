/** The order of the review queue: `queue_query` and the queue/backlog split of app/api/group_routes.py.
    Families and ids are numbered in collation order. */
module ReviewQueue {
  import opened Sequences

  datatype Status = Open | Triaged | Confirmed | Dismissed | Escalated | NeedsDataReview

  datatype Group = Group(id: nat, family: nat, status: Status, score: real)

  /** Escalated groups first, then those that wait for data. */
  function Band(g: Group): nat {
    match g.status
    case Escalated => 0
    case NeedsDataReview => 1
    case _ => 2
  }

  predicate Unresolved(g: Group) { g.status == Open || g.status == Escalated || g.status == NeedsDataReview }

  /** The groups the queue is about. */
  function Waiting(all: set<Group>): set<Group> { set g | g in all && Unresolved(g) }

  predicate SameClass(g: Group, h: Group) { Band(g) == Band(h) && g.family == h.family }

  /** Higher scores first inside a family, ties by id. */
  predicate Ahead(g: Group, h: Group) { SameClass(g, h) && (g.score > h.score || (g.score == h.score && g.id < h.id)) }

  function AheadOf(groups: set<Group>, g: Group): set<Group> { set h | h in groups && Ahead(h, g) }

  /** `row_number() - 1` of the band and family. */
  function Rank(groups: set<Group>, g: Group): nat { |AheadOf(groups, g)| }

  /** The order of the queue: band, rank in the family, family, id. */
  predicate Before(groups: set<Group>, g: Group, h: Group) {
    Band(g) < Band(h) || (Band(g) == Band(h) && (Rank(groups, g) < Rank(groups, h) ||
      (Rank(groups, g) == Rank(groups, h) && (g.family < h.family || (g.family == h.family && g.id < h.id)))))
  }

  ghost predicate DistinctIds(groups: set<Group>) {
    forall g, h | g in groups && h in groups && g != h :: g.id != h.id
  }

  /** `s` is the answer of the ordered query. */
  ghost predicate Order(groups: set<Group>, s: seq<Group>) {
    && (forall g :: g in groups <==> g in s)
    && (forall i, j | 0 <= i < j < |s| :: Before(groups, s[i], s[j]))
  }

  /** Whatever their scores: first the escalated groups, then those that need data, then all others. */
  lemma StatusOrder(groups: set<Group>, s: seq<Group>, i: nat, j: nat)
    requires Order(groups, s) && i < |s| && j < |s|
    ensures s[i].status == Escalated && s[j].status != Escalated ==> i < j
    ensures s[i].status == NeedsDataReview && s[j].status != Escalated && s[j].status != NeedsDataReview ==> i < j
  {
    assert j < i ==> Before(groups, s[j], s[i]);
  }

  // ---- one order ------------------------------------------------------------------------

  lemma AheadRanks(groups: set<Group>, g: Group, h: Group)
    requires g in groups && Ahead(g, h)
    ensures Rank(groups, g) < Rank(groups, h)
  {
    var a, b := AheadOf(groups, g), AheadOf(groups, h);
    assert a <= b - {g};
    Subset(a, b - {g});
  }

  lemma {:induction false} Subset<T>(a: set<T>, b: set<T>)
    requires a <= b
    ensures |a| <= |b|
  {
    assert |b| == |a| + |b - a| by {
      assert b == a + (b - a);
    }
  }

  /** Inside a family the queue follows the scores. */
  lemma ClassOrder(groups: set<Group>, g: Group, h: Group)
    requires DistinctIds(groups) && g in groups && h in groups && SameClass(g, h)
    ensures Before(groups, g, h) <==> Ahead(g, h)
    ensures g == h || Ahead(g, h) || Ahead(h, g)
  {
    if Ahead(g, h) {
      AheadRanks(groups, g, h);
    } else if Ahead(h, g) {
      AheadRanks(groups, h, g);
    }
  }

  /** The order is strict and total, so a query has one answer. */
  lemma BeforeIsTotal(groups: set<Group>, g: Group, h: Group, k: Group)
    requires DistinctIds(groups) && g in groups && h in groups
    ensures !Before(groups, g, g)
    ensures g != h ==> Before(groups, g, h) != Before(groups, h, g)
    ensures Before(groups, g, h) && Before(groups, h, k) ==> Before(groups, g, k)
  {}

  lemma {:induction false} First(groups: set<Group>, some: set<Group>) returns (first: Group)
    requires DistinctIds(groups) && some <= groups && exists g :: g in some
    ensures first in some && forall g | g in some && g != first :: Before(groups, first, g)
  {
    first :| first in some;
    if g :| g in some && g != first && !Before(groups, first, g) {
      assert g in some - {first};
      var rest := First(groups, some - {first});
      BeforeIsTotal(groups, first, g, g);
      if rest != g {
        BeforeIsTotal(groups, rest, g, first);
      }
      first := rest;
    }
  }

  lemma {:induction false} OrderFrom(groups: set<Group>, some: set<Group>) returns (s: seq<Group>)
    requires DistinctIds(groups) && some <= groups
    ensures (forall g :: g in some <==> g in s) && forall i, j | 0 <= i < j < |s| :: Before(groups, s[i], s[j])
    decreases |some|
  {
    if g :| g in some {
      var first := First(groups, some);
      var rest := OrderFrom(groups, some - {first});
      s := [first] + rest;
      assert forall i | 0 <= i < |rest| :: rest[i] in some && rest[i] != first;
    } else {
      s := [];
      assert some == {};
    }
  }

  lemma OrderExists(groups: set<Group>) returns (s: seq<Group>)
    requires DistinctIds(groups)
    ensures Order(groups, s)
  {
    s := OrderFrom(groups, groups);
  }

  lemma {:induction false} OneOrder(groups: set<Group>, s: seq<Group>, t: seq<Group>, k: nat)
    requires DistinctIds(groups) && Order(groups, s) && Order(groups, t) && k <= |s|
    ensures k <= |t| && s[..k] == t[..k]
  {
    if k > 0 {
      OneOrder(groups, s, t, k - 1);
      SamePlace(groups, s, t, k - 1);
    }
  }

  /** After a common prefix the two orders go on with the same group. */
  lemma SamePlace(groups: set<Group>, s: seq<Group>, t: seq<Group>, k: nat)
    requires DistinctIds(groups) && Order(groups, s) && Order(groups, t)
    requires k < |s| && k <= |t| && s[..k] == t[..k]
    ensures k < |t| && s[k] == t[k]
  {
    hide Before, DistinctIds;
    assert s[k] in t;
    var j :| 0 <= j < |t| && t[j] == s[k];
    forall i | 0 <= i < k ensures t[i] != s[k] {
      assert t[i] == t[..k][i] == s[..k][i] == s[i];
      BeforeIsTotal(groups, s[k], s[k], s[k]);
    }
    assert t[k] in s;
    var i :| 0 <= i < |s| && s[i] == t[k];
    forall m | 0 <= m < k ensures s[m] != t[k] {
      assert s[m] == s[..k][m] == t[..k][m] == t[m];
      BeforeIsTotal(groups, t[k], t[k], t[k]);
    }
    assert k <= j && k <= i;
    BeforeIsTotal(groups, s[k], t[k], s[k]);
  }

  /** The ordered query has exactly one answer. */
  lemma QueueHasOneOrder(groups: set<Group>)
    requires DistinctIds(groups)
    ensures exists s :: Order(groups, s) && forall t | Order(groups, t) :: t == s
  {
    var s := OrderExists(groups);
    forall t | Order(groups, t) ensures t == s {
      OneOrder(groups, s, t, |s|);
      OneOrder(groups, t, s, |t|);
      assert s[..|s|] == s && t[..|t|] == t;
    }
  }

  // ---- fairness --------------------------------------------------------------------------

  /** The groups of one band and family among `some`. */
  function Class(some: seq<Group>, band: nat, family: nat): set<Group> {
    set g | g in some && Band(g) == band && g.family == family
  }

  lemma IndexBefore(groups: set<Group>, s: seq<Group>, i: nat, j: nat)
    requires DistinctIds(groups) && Order(groups, s) && i < |s| && j < |s| && Before(groups, s[i], s[j])
    ensures i < j
  {
    forall m | 0 <= m <= i ensures !Before(groups, s[i], s[m]) {
      assert s[m] in groups && s[i] in groups;
      BeforeIsTotal(groups, s[m], s[i], s[m]);
    }
  }

  /** The last group of its class in a prefix has all the others of the prefix ahead of it. */
  lemma LastRank(groups: set<Group>, s: seq<Group>, k: nat, i: nat)
    requires DistinctIds(groups) && Order(groups, s) && i < k <= |s|
    requires forall j | i < j < k :: !SameClass(s[j], s[i])
    ensures Rank(groups, s[i]) >= |Class(s[..k], Band(s[i]), s[i].family)| - 1
  {
    var mine := Class(s[..k], Band(s[i]), s[i].family);
    forall g | g in mine - {s[i]} ensures g in AheadOf(groups, s[i]) {
      var j :| 0 <= j < k && s[j] == g;
      assert j < i;
      assert s[j] in groups && s[i] in groups;
      ClassOrder(groups, s[j], s[i]);
    }
    Subset(mine - {s[i]}, AheadOf(groups, s[i]));
    assert s[i] == s[..k][i];
    assert s[i] in mine;
  }

  /** The first group of its class after a prefix has at most those of the prefix ahead of it. */
  lemma NextRank(groups: set<Group>, s: seq<Group>, k: nat, j: nat)
    requires DistinctIds(groups) && Order(groups, s) && k <= j < |s|
    requires forall m | k <= m < j :: !SameClass(s[m], s[j])
    ensures Rank(groups, s[j]) <= |Class(s[..k], Band(s[j]), s[j].family)|
  {
    var mine := Class(s[..k], Band(s[j]), s[j].family);
    forall g | g in AheadOf(groups, s[j]) ensures g in mine {
      assert g in s;
      var m :| 0 <= m < |s| && s[m] == g;
      assert s[j] in groups;
      ClassOrder(groups, s[m], s[j]);
      IndexBefore(groups, s, m, j);
      assert s[..k][m] == g;
    }
    Subset(AheadOf(groups, s[j]), mine);
  }

  lemma LastOfClass(s: seq<Group>, k: nat, band: nat, family: nat) returns (i: nat)
    requires k <= |s| && Class(s[..k], band, family) != {}
    ensures i < k && Band(s[i]) == band && s[i].family == family
    ensures forall j | i < j < k :: !SameClass(s[j], s[i])
  {
    if Band(s[k - 1]) == band && s[k - 1].family == family {
      i := k - 1;
    } else {
      assert Class(s[..k - 1], band, family) == Class(s[..k], band, family) by {
        assert s[..k] == s[..k - 1] + [s[k - 1]];
      }
      i := LastOfClass(s, k - 1, band, family);
    }
  }

  lemma FirstOfClass(s: seq<Group>, k: nat, band: nat, family: nat, at: nat) returns (j: nat)
    requires k <= at < |s| && Band(s[at]) == band && s[at].family == family
    ensures k <= j < |s| && Band(s[j]) == band && s[j].family == family
    ensures forall m | k <= m < j :: !SameClass(s[m], s[j])
    decreases at
  {
    if m :| k <= m < at && Band(s[m]) == band && s[m].family == family {
      j := FirstOfClass(s, k, band, family, m);
    } else {
      j := at;
    }
  }

  /** In any prefix, inside a band, no family is more than one group ahead of a family that still has groups
      waiting. */
  lemma NoFamilyStarves(groups: set<Group>, s: seq<Group>, k: nat, band: nat, family: nat, waiting: nat)
    requires DistinctIds(groups) && Order(groups, s) && k <= waiting < |s| && Band(s[waiting]) == band
    ensures |Class(s[..k], band, family)| <= |Class(s[..k], band, s[waiting].family)| + 1
  {
    if Class(s[..k], band, family) != {} {
      var i := LastOfClass(s, k, band, family);
      var j := FirstOfClass(s, k, band, s[waiting].family, waiting);
      LastRank(groups, s, k, i);
      NextRank(groups, s, k, j);
      assert Before(groups, s[i], s[j]);
    }
  }

  /** The groups of the family of `s[i]`, in its status, that stand before it. */
  function Turn(s: seq<Group>, i: nat): set<Group>
    requires i < |s|
  {
    set g | g in s[..i] && g.status == s[i].status && g.family == s[i].family
  }

  lemma TurnIsRank(groups: set<Group>, s: seq<Group>, i: nat)
    requires DistinctIds(groups) && Order(groups, s) && i < |s| && forall g | g in groups :: Unresolved(g)
    ensures AheadOf(groups, s[i]) == Turn(s, i)
  {
    assert s[i] in groups;
    forall g ensures g in AheadOf(groups, s[i]) <==> g in Turn(s, i) {
      if g in Turn(s, i) {
        var j :| 0 <= j < i && s[j] == g;
        assert g in groups;
        ClassOrder(groups, g, s[i]);
      }
      if g in AheadOf(groups, s[i]) {
        assert g in s;
        var j :| 0 <= j < |s| && s[j] == g;
        ClassOrder(groups, g, s[i]);
        IndexBefore(groups, s, j, i);
        assert s[..i][j] == g;
      }
    }
  }

  /** The families of a status take turns: a group stands before another exactly when fewer of its own family stand
      before it, or as many and its family comes first. */
  lemma FamiliesTakeTurns(groups: set<Group>, s: seq<Group>, i: nat, j: nat)
    requires DistinctIds(groups) && Order(groups, s) && i < |s| && j < |s| && forall g | g in groups :: Unresolved(g)
    requires s[i].status == s[j].status && s[i].family != s[j].family
    ensures i < j <==> |Turn(s, i)| < |Turn(s, j)| || (|Turn(s, i)| == |Turn(s, j)| && s[i].family < s[j].family)
  {
    TurnIsRank(groups, s, i);
    TurnIsRank(groups, s, j);
    assert i < j ==> Before(groups, s[i], s[j]);
    assert j < i ==> Before(groups, s[j], s[i]);
  }

  /** In a status and family a higher score stands first, and of equal scores the lower id. */
  lemma ScoreOrder(groups: set<Group>, s: seq<Group>, i: nat, j: nat)
    requires DistinctIds(groups) && Order(groups, s) && i < |s| && j < |s|
    requires s[i].status == s[j].status && s[i].family == s[j].family
    ensures s[i].score > s[j].score ==> i < j
    ensures s[i].score == s[j].score && s[i].id < s[j].id ==> i < j
  {
    assert s[i] in groups && s[j] in groups;
    ClassOrder(groups, s[i], s[j]);
    if Ahead(s[i], s[j]) {
      IndexBefore(groups, s, i, j);
    }
  }

  // ---- how long a group can wait ----------------------------------------------------------

  function Families(groups: set<Group>, band: nat): set<nat> { set g | g in groups && Band(g) == band :: g.family }

  function EarlierBands(groups: set<Group>, band: nat): set<Group> { set g | g in groups && Band(g) < band }

  /** The groups of `some` in one of the families. */
  function InFamilies(some: set<Group>, families: set<nat>): set<Group> { set g | g in some && g.family in families }

  lemma {:induction false} FamilyByFamily(some: set<Group>, families: set<nat>, most: nat)
    requires forall f | f in families :: |InFamilies(some, {f})| <= most
    ensures |InFamilies(some, families)| <= most * |families|
  {
    if f :| f in families {
      var rest := families - {f};
      FamilyByFamily(some, rest, most);
      assert InFamilies(some, families) == InFamilies(some, rest) + InFamilies(some, {f});
      assert most * |families| == most * |rest| + most;
    } else {
      assert InFamilies(some, families) == {};
    }
  }

  /** Of one mine, at most r + 1 groups have a rank up to r. */
  lemma LowRanks(groups: set<Group>, s: seq<Group>, k: nat, band: nat, family: nat, r: nat)
    requires DistinctIds(groups) && Order(groups, s) && k <= |s|
    requires forall i | 0 <= i < k && Band(s[i]) == band && s[i].family == family :: Rank(groups, s[i]) <= r
    ensures |Class(s[..k], band, family)| <= r + 1
  {
    if Class(s[..k], band, family) != {} {
      var i := LastOfClass(s, k, band, family);
      LastRank(groups, s, k, i);
    }
  }

  /** The groups of the band of `s[k]` that come before it. */
  function Peers(s: seq<Group>, k: nat): set<Group>
    requires k < |s|
  {
    set g | g in s[..k] && Band(g) == Band(s[k])
  }

  lemma PeersOfFamily(groups: set<Group>, s: seq<Group>, k: nat, family: nat)
    requires DistinctIds(groups) && Order(groups, s) && k < |s|
    ensures |InFamilies(Peers(s, k), {family})| <= Rank(groups, s[k]) + 1
  {
    forall i | 0 <= i < k && Band(s[i]) == Band(s[k]) && s[i].family == family
      ensures Rank(groups, s[i]) <= Rank(groups, s[k])
    {
      assert Before(groups, s[i], s[k]);
    }
    LowRanks(groups, s, k, Band(s[k]), family, Rank(groups, s[k]));
    assert InFamilies(Peers(s, k), {family}) == Class(s[..k], Band(s[k]), family);
  }

  lemma OwnPeers(groups: set<Group>, s: seq<Group>, k: nat)
    requires DistinctIds(groups) && Order(groups, s) && k < |s|
    ensures |InFamilies(Peers(s, k), {s[k].family})| <= Rank(groups, s[k])
  {
    forall g | g in InFamilies(Peers(s, k), {s[k].family}) ensures g in AheadOf(groups, s[k]) {
      var i :| 0 <= i < k && s[..k][i] == g;
      assert s[i] in groups && s[k] in groups;
      ClassOrder(groups, s[i], s[k]);
    }
    Subset(InFamilies(Peers(s, k), {s[k].family}), AheadOf(groups, s[k]));
  }

  function Items(s: seq<Group>): set<Group> { set g | g in s }

  lemma NoRepeat(groups: set<Group>, s: seq<Group>, k: nat)
    requires DistinctIds(groups) && Order(groups, s) && k < |s|
    ensures s[k] !in s[..k]
  {
    assert s[k] in groups;
    BeforeIsTotal(groups, s[k], s[k], s[k]);
  }

  lemma {:induction false} PrefixSize(groups: set<Group>, s: seq<Group>, k: nat)
    requires DistinctIds(groups) && Order(groups, s) && k <= |s|
    ensures |Items(s[..k])| == k
  {
    hide Before, Order, DistinctIds;
    if k > 0 {
      PrefixSize(groups, s, k - 1);
      NoRepeat(groups, s, k - 1);
      assert s[..k] == s[..k - 1] + [s[k - 1]];
      assert Items(s[..k]) == Items(s[..k - 1]) + {s[k - 1]};
    }
  }

  /** What comes before `s[k]` is of an earlier band or among its peers. */
  lemma BeforeOrPeer(groups: set<Group>, s: seq<Group>, k: nat)
    requires DistinctIds(groups) && Order(groups, s) && k < |s|
    ensures k <= |EarlierBands(groups, Band(s[k]))| + |Peers(s, k)|
    ensures forall g | g in Peers(s, k) :: g.family in Families(groups, Band(s[k]))
  {
    var band := Band(s[k]);
    forall g | g in s[..k] ensures g in groups && Band(g) <= band {
      var i :| 0 <= i < k && s[i] == g;
      assert Before(groups, s[i], s[k]);
    }
    PrefixSize(groups, s, k);
    Subset(Items(s[..k]), EarlierBands(groups, band) + Peers(s, k));
  }

  lemma PeersBounded(groups: set<Group>, s: seq<Group>, k: nat)
    requires DistinctIds(groups) && Order(groups, s) && k < |s|
    ensures |Peers(s, k)| < (Rank(groups, s[k]) + 1) * |Families(groups, Band(s[k]))|
  {
    hide Order, Before, DistinctIds, AheadOf, InFamilies;
    var family, families, r := s[k].family, Families(groups, Band(s[k])), Rank(groups, s[k]);
    var others := families - {family};
    OtherPeers(groups, s, k, others);
    OwnPeers(groups, s, k);
    BeforeOrPeer(groups, s, k);
    OwnFamily(groups, s, k);
    Combine(Peers(s, k), families, family, r);
  }

  lemma OwnFamily(groups: set<Group>, s: seq<Group>, k: nat)
    requires Order(groups, s) && k < |s|
    ensures s[k].family in Families(groups, Band(s[k]))
  {
    assert s[k] in groups;
  }

  lemma Combine(peers: set<Group>, families: set<nat>, family: nat, r: nat)
    requires family in families && forall g | g in peers :: g.family in families
    requires |InFamilies(peers, {family})| <= r
    requires |InFamilies(peers, families - {family})| <= (r + 1) * |families - {family}|
    ensures |peers| < (r + 1) * |families|
  {
    SplitFamily(peers, families, family);
    Add(|InFamilies(peers, families - {family})|, |InFamilies(peers, {family})|, r, |families - {family}|);
  }

  lemma OtherPeers(groups: set<Group>, s: seq<Group>, k: nat, others: set<nat>)
    requires DistinctIds(groups) && Order(groups, s) && k < |s|
    ensures |InFamilies(Peers(s, k), others)| <= (Rank(groups, s[k]) + 1) * |others|
  {
    forall f | f in others ensures |InFamilies(Peers(s, k), {f})| <= Rank(groups, s[k]) + 1 {
      PeersOfFamily(groups, s, k, f);
    }
    FamilyByFamily(Peers(s, k), others, Rank(groups, s[k]) + 1);
  }

  lemma SplitFamily(some: set<Group>, families: set<nat>, family: nat)
    requires family in families && forall g | g in some :: g.family in families
    ensures |some| <= |InFamilies(some, families - {family})| + |InFamilies(some, {family})|
    ensures |families - {family}| == |families| - 1
  {
    assert some == InFamilies(some, families - {family}) + InFamilies(some, {family});
  }

  lemma Add(others: nat, own: nat, r: nat, count: nat)
    requires others <= (r + 1) * count && own <= r
    ensures others + own < (r + 1) * (count + 1)
  {}

  /** A group with r of its family ahead of it stands before position
      (groups in earlier bands) + (r + 1) * (families in its band). */
  lemma WaitIsBounded(groups: set<Group>, s: seq<Group>, k: nat)
    requires DistinctIds(groups) && Order(groups, s) && k < |s|
    ensures var earlier := set g | g in groups && Band(g) < Band(s[k]);
      var families := set g | g in groups && Band(g) == Band(s[k]) :: g.family;
      k < |earlier| + (Rank(groups, s[k]) + 1) * |families|
  {
    BeforeOrPeer(groups, s, k);
    PeersBounded(groups, s, k);
  }

  // ---- queue and backlog --------------------------------------------------------------------

  /** The groups within the capacity. */
  function Queue(s: seq<Group>, capacity: nat): seq<Group> { s[..Least(capacity, |s|)] }

  /** The others, in the same order. */
  function Backlog(s: seq<Group>, capacity: nat): seq<Group> { s[Least(capacity, |s|)..] }

  /** Queue and backlog split the unresolved groups, and a larger capacity keeps what a smaller one had. */
  lemma QueueAndBacklog(all: set<Group>, s: seq<Group>, capacity: nat, larger: nat)
    requires DistinctIds(all) && Order(Waiting(all), s) && capacity <= larger
    ensures forall g :: g in Queue(s, capacity) || g in Backlog(s, capacity) <==>
      g in all && g.status != Triaged && g.status != Confirmed && g.status != Dismissed
    ensures forall g | g in Queue(s, capacity) :: g !in Backlog(s, capacity)
    ensures |Queue(s, capacity)| == Least(capacity, |Waiting(all)|)
    ensures |Backlog(s, capacity)| == if |Waiting(all)| > capacity then |Waiting(all)| - capacity else 0
    ensures Queue(s, capacity) <= Queue(s, larger)
  {
    var groups := Waiting(all);
    PrefixSize(groups, s, |s|);
    assert s[..|s|] == s;
    assert groups == Items(s);
    var n := Least(capacity, |s|);
    forall g ensures g in all && Unresolved(g) <==> g in Queue(s, capacity) || g in Backlog(s, capacity) {
      assert s == s[..n] + s[n..];
      assert g in groups <==> g in s;
    }
    forall g | g in Queue(s, capacity) ensures g !in Backlog(s, capacity) {
      var i :| 0 <= i < n && s[i] == g;
      forall j | n <= j < |s| ensures s[j] != g {
        assert Before(groups, s[i], s[j]) && s[i] in groups;
        BeforeIsTotal(groups, g, g, g);
      }
    }
  }
}
