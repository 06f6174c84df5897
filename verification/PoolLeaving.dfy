/** After `finally`: the P extra slots let every driver thread that is not stuck inside a job return. */
module PoolLeaving {
  import opened ProcessPool
  import opened PoolInvariant
  import opened PoolTheorems
  import opened PoolLiveness

  function LeaveRank(pc: Pc): nat {
    match pc
    case Drawing => 6
    case Running(_, _) => 5
    case Post(_, _) => 4
    case Acquire => 3
    case Lock => 2
    case ReleaseSlot => 2
    case PostRaise(_, _) => 1
    case Notify => 1
    case Exited => 0
  }

  /** Once `stop` is set, each driver step brings its thread nearer to its return. */
  lemma LeavingDecreases(c: Config, s: State, d: nat)
    requires s.stop && DriverCan(s, d)
    ensures RankSum(DriverDo(c, s, d).drivers, LeaveRank) < RankSum(s.drivers, LeaveRank)
  {
    if s.drivers[d].Drawing? {
      DrawLeaves(s, d, c.source(s.next));
    } else {
      RankUpdate(s.drivers, d, DriverDo(c, s, d).drivers[d], LeaveRank);
    }
  }

  lemma DrawLeaves(s: State, d: nat, draw: Draw)
    requires d < |s.drivers| && s.drivers[d].Drawing?
    ensures RankSum(DrawDo(s, d, draw).drivers, LeaveRank) < RankSum(s.drivers, LeaveRank)
  {
    RankUpdate(s.drivers, d, DrawDo(s, d, draw).drivers[d], LeaveRank);
  }

  // ---- none is blocked ------------------------------------------------------------

  /** Only drivers about to take the draw lock hold a slot without being admitted. */
  lemma {:induction false} LockGap(pcs: seq<Pc>)
    ensures Count(pcs, Holding) <= Count(pcs, Admitted) + |pcs|
    ensures (exists d :: 0 <= d < |pcs| && !pcs[d].Lock?) ==> Count(pcs, Holding) < Count(pcs, Admitted) + |pcs|
  {
    if pcs != [] {
      var n := |pcs| - 1;
      LockGap(pcs[..n]);
      assert (exists d :: 0 <= d < n && !pcs[d].Lock?) ==> exists d :: 0 <= d < n && !pcs[..n][d].Lock?;
    }
  }

  lemma SlotLeft(c: Config, s: State, d: nat)
    requires InvShape(c, s) && InvSlots(c, s) && s.consumer.Finished? && d < |s.drivers| && s.drivers[d].Acquire?
    ensures s.slots > 0
  {
    LockGap(s.drivers);
  }

  /** When `imap` is over, each driver has returned, or can take a step, or waits for the draw lock that another
      driver holds: none waits for a slot or for the condition. */
  lemma EveryDriverLeaves(c: Config, s: State, d: nat)
    requires c.Valid() && Reachable(c, s) && s.consumer.Finished? && d < |s.drivers|
    ensures s.drivers[d].Exited? || DriverCan(s, d) ||
      (s.drivers[d].Lock? && s.lock.Some? && s.lock.value < |s.drivers| && InDraw(s.drivers[s.lock.value]))
  {
    ReachableInv(c, s);
    if s.drivers[d].Acquire? {
      SlotLeft(c, s, d);
    }
  }

  // ---- every fair run comes to rest ---------------------------------------------------

  /** The driver is inside the job's target or inside next(source), for as long as these take. */
  predicate InJob(pc: Pc) { pc.Running? || pc.Drawing? }

  ghost predicate ReadyOutside(states: nat -> State, d: nat, k: nat) {
    DriverCan(states(k), d) && !InJob(states(k).drivers[d])
  }

  ghost predicate ReadyOutsideAfter(states: nat -> State, d: nat, n: nat) {
    exists k :: n <= k && ReadyOutside(states, d, k)
  }

  /** Outside jobs a driver that is ready again and again is served; a job may take forever. */
  ghost predicate FairOutsideJobs(turns: nat -> Action, states: nat -> State) {
    forall d: nat, n: nat ::
      (forall m: nat | n <= m :: ReadyOutsideAfter(states, d, m)) ==> ServedAfter(turns, states, d, n)
  }

  function RankAt(states: nat -> State, n: nat): nat { RankSum(states(n).drivers, LeaveRank) }

  lemma FinishedTurn(c: Config, turns: nat -> Action, states: nat -> State, n: nat)
    requires c.Valid() && IsRun(c, turns, states) && states(n).consumer.Finished?
    ensures states(n + 1).consumer.Finished?
    ensures states(n + 1) == states(n) || RankAt(states, n + 1) < RankAt(states, n)
    ensures turns(n).DriverStep? && DriverCan(states(n), turns(n).driver) ==> RankAt(states, n + 1) < RankAt(states, n)
  {
    StatesInv(c, turns, states, n);
    assert Turned(c, turns, states, n);
    if turns(n).DriverStep? && DriverCan(states(n), turns(n).driver) {
      LeavingDecreases(c, states(n), turns(n).driver);
      DriverKeepsConsumer(c, states(n), turns(n).driver);
    }
  }

  lemma {:induction false} StaysFinished(c: Config, turns: nat -> Action, states: nat -> State, n: nat, k: nat)
    requires c.Valid() && IsRun(c, turns, states) && states(n).consumer.Finished? && n <= k
    ensures states(k).consumer.Finished?
    decreases k
  {
    if n < k {
      StaysFinished(c, turns, states, n, k - 1);
      FinishedTurn(c, turns, states, k - 1);
    }
  }

  ghost predicate AtRest(states: nat -> State, n: nat) { forall k: nat | n <= k :: states(k) == states(n) }

  /** Every change lowers the rank, so from some turn on nothing changes any more. */
  lemma {:induction false} ComesToRest(c: Config, turns: nat -> Action, states: nat -> State, n: nat) returns (k: nat)
    requires c.Valid() && IsRun(c, turns, states) && states(n).consumer.Finished?
    ensures n <= k && AtRest(states, k)
    decreases RankAt(states, n)
  {
    if m: nat :| n <= m && RankAt(states, m) < RankAt(states, n) {
      StaysFinished(c, turns, states, n, m);
      k := ComesToRest(c, turns, states, m);
    } else {
      k := n;
      forall m: nat | n <= m ensures states(m) == states(n) {
        NothingMoves(c, turns, states, n, m);
      }
    }
  }

  lemma {:induction false} NothingMoves(c: Config, turns: nat -> Action, states: nat -> State, n: nat, m: nat)
    requires c.Valid() && IsRun(c, turns, states) && states(n).consumer.Finished? && n <= m
    requires forall k: nat | n <= k :: RankAt(states, k) >= RankAt(states, n)
    ensures states(m) == states(n)
    decreases m
  {
    if n < m {
      NothingMoves(c, turns, states, n, m - 1);
      FinishedTurn(c, turns, states, m - 1);
      assert RankAt(states, m) >= RankAt(states, n);
    }
  }

  /** At rest nobody is served. */
  lemma NobodyServed(c: Config, turns: nat -> Action, states: nat -> State, k: nat, d: nat)
    requires c.Valid() && IsRun(c, turns, states) && states(k).consumer.Finished? && AtRest(states, k)
    ensures !ServedAfter(turns, states, d, k)
  {
    forall j | k <= j ensures !Served(turns, states, d, j) {
      StaysFinished(c, turns, states, k, j);
      FinishedTurn(c, turns, states, j);
      assert states(j) == states(k) == states(j + 1);
    }
  }

  lemma NotReadyOutside(c: Config, turns: nat -> Action, states: nat -> State, k: nat, d: nat)
    requires c.Valid() && IsRun(c, turns, states) && FairOutsideJobs(turns, states)
    requires states(k).consumer.Finished? && AtRest(states, k)
    ensures !ReadyOutside(states, d, k)
  {
    NobodyServed(c, turns, states, k, d);
    var m: nat :| k <= m && !ReadyOutsideAfter(states, d, m);
    assert states(m) == states(k);
    assert ReadyOutside(states, d, k) ==> ReadyOutside(states, d, m);
  }

  /** Once `imap` is over, every run that is fair outside jobs comes to rest, and there each driver has
      returned, or is still inside its job or next(source), or waits for the draw lock of a driver that
      is still inside next(source). */
  lemma DriversReturn(c: Config, turns: nat -> Action, states: nat -> State, n: nat) returns (k: nat)
    requires c.Valid() && IsRun(c, turns, states) && FairOutsideJobs(turns, states) && states(n).consumer.Finished?
    ensures n <= k && AtRest(states, k) && |states(k).drivers| == c.workers
    ensures forall d | 0 <= d < c.workers :: ReturnedOrStuck(states(k), d)
  {
    k := ComesToRest(c, turns, states, n);
    StaysFinished(c, turns, states, n, k);
    StatesReachable(c, turns, states, k);
    StatesInv(c, turns, states, k);
    forall d | 0 <= d < c.workers ensures ReturnedOrStuck(states(k), d) {
      EveryDriverLeaves(c, states(k), d);
      NotReadyOutside(c, turns, states, k, d);
      if states(k).drivers[d].Lock? && states(k).lock.Some? {
        NotReadyOutside(c, turns, states, k, states(k).lock.value);
      }
    }
  }

  predicate ReturnedOrStuck(s: State, d: nat) {
    && d < |s.drivers|
    && (s.drivers[d].Exited? || InJob(s.drivers[d]) ||
        (s.drivers[d].Lock? && s.lock.Some? && s.lock.value < |s.drivers| && s.drivers[s.lock.value].Drawing?))
  }

  lemma FairIsFairOutside(turns: nat -> Action, states: nat -> State)
    requires Fair(turns, states)
    ensures FairOutsideJobs(turns, states)
  {
    forall d: nat, n: nat | forall m: nat | n <= m :: ReadyOutsideAfter(states, d, m)
      ensures ServedAfter(turns, states, d, n)
    {
      forall m: nat | n <= m ensures ReadyAfter(states, d, m) {
        assert ReadyOutsideAfter(states, d, m);
        var k :| m <= k && ReadyOutside(states, d, k);
        assert Ready(states, d, k);
      }
    }
  }

  /** If every job and every draw comes to its end as well, all drivers return. */
  lemma AllDriversReturn(c: Config, turns: nat -> Action, states: nat -> State, n: nat) returns (k: nat)
    requires c.Valid() && IsRun(c, turns, states) && Fair(turns, states) && states(n).consumer.Finished?
    ensures n <= k && |states(k).drivers| == c.workers
    ensures forall d | 0 <= d < c.workers :: states(k).drivers[d].Exited?
  {
    FairIsFairOutside(turns, states);
    k := DriversReturn(c, turns, states, n);
    StaysFinished(c, turns, states, n, k);
    forall d: nat | d < c.workers ensures !InJob(states(k).drivers[d]) {
      NobodyServed(c, turns, states, k, d);
      var m: nat :| k <= m && !ReadyAfter(states, d, m);
      assert states(m) == states(k);
      assert InJob(states(k).drivers[d]) ==> Ready(states, d, m);
    }
    forall d | 0 <= d < c.workers ensures states(k).drivers[d].Exited? {
      assert ReturnedOrStuck(states(k), d);
    }
  }
}
