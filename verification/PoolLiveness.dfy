/** Every fair schedule brings `imap` to its end, and then every driver thread to its own. */
module PoolLiveness {
  import opened Wrappers
  import opened ProcessPool
  import opened PoolInvariant
  import opened PoolTheorems

  // ---- a measure every step but the consumer's idle polling decreases ---------

  function PcRank(pc: Pc): nat {
    match pc
    case Running(_, _) => 8
    case Post(_, _) => 7
    case Acquire => 6
    case Lock => 5
    case Drawing => 4
    case ReleaseSlot => 2
    case Notify => 1
    case PostRaise(_, _) => 1
    case Exited => 0
  }

  function RankSum(pcs: seq<Pc>, rank: Pc -> nat): nat {
    if pcs == [] then 0 else RankSum(pcs[..|pcs| - 1], rank) + rank(pcs[|pcs| - 1])
  }

  lemma {:induction false} RankUpdate(pcs: seq<Pc>, d: nat, pc: Pc, rank: Pc -> nat)
    requires d < |pcs|
    ensures RankSum(pcs[d := pc], rank) + rank(pcs[d]) == RankSum(pcs, rank) + rank(pc)
  {
    var last := |pcs| - 1;
    if d == last {
      assert pcs[d := pc][..last] == pcs[..last];
    } else {
      assert pcs[d := pc][..last] == pcs[..last][d := pc];
      RankUpdate(pcs[..last], d, pc, rank);
    }
  }

  predicate Polling(consumer: Consumer) {
    consumer.Check? || consumer.CheckEnd? || consumer.CheckAlive? || consumer.Waiting?
  }

  /** What is left to the consumer when the sequential map ends at index `e`. */
  function ConsumerRank(c: Config, e: nat, s: State): int {
    match s.consumer
    case Finished(_) => 0
    case Releasing(left, _) => left + 1
    case Finally(_) => c.workers + 2
    case _ => c.workers + 3 + 6 * (e + 1 - s.index) + Phase(s.consumer)
  }

  function Phase(consumer: Consumer): nat {
    match consumer
    case Suspended => 5
    case Enter => 4
    case Popped(_) => 2
    case Deliver(_) => 1
    case _ => 3
  }

  /** Jobs drawn, None jobs not counted. */
  function JobsDrawn(c: Config, s: State): int { s.next - NonesBelow(c, s.next) }

  function Measure(c: Config, e: nat, s: State): int {
    10 * (e + 1 + c.Window() - JobsDrawn(c, s)) + RankSum(s.drivers, PcRank) + ConsumerRank(c, e, s)
  }

  /** The sequential map ends at index `e`, and no job up to there is None. */
  ghost predicate EndsAt(c: Config, e: nat) {
    && c.Valid()
    && SequentialRun(c, e + 1).1.Some?
    && (forall i: nat | i <= e :: !c.source(i).NoneJob?)
  }

  /** The sequential map gets no further than index `e`: it ends there, or the job there is None. */
  ghost predicate Bounded(c: Config, e: nat) {
    c.Valid() && (SequentialRun(c, e + 1).1.Some? || c.source(e).NoneJob?)
  }

  lemma IndexBounded(c: Config, e: nat, s: State)
    requires Bounded(c, e) && Inv(c, s)
    ensures s.index <= e && JobsDrawn(c, s) <= e + 1 + c.Window()
  {
    YieldsPrefix(c, s, s.index);
    if s.index > e && SequentialRun(c, e + 1).1.Some? {
      EndedStays(c, e + 1, s.index);
    } else if s.index > e {
      YieldedValue(c, s, e);
    }
    CarryingAdmitted(s.drivers);
  }

  lemma MeasureNatural(c: Config, e: nat, s: State)
    requires Bounded(c, e) && Inv(c, s)
    ensures Measure(c, e, s) >= 0
  {
    IndexBounded(c, e, s);
  }

  predicate AllExited(s: State) { forall d | 0 <= d < |s.drivers| :: s.drivers[d].Exited? }

  /** A turn of the consumer's polling loop that finds nothing. */
  predicate Idle(s: State, a: Action) {
    a.ConsumerStep? &&
    match s.consumer
    case Check => s.index !in s.results
    case CheckEnd => s.end.None? || s.index < s.end.value
    case CheckAlive => !AllExited(s)
    case Waiting => true
    case _ => false
  }

  lemma DrawDecreases(c: Config, e: nat, s: State, d: nat, draw: Draw)
    requires d < |s.drivers| && s.drivers[d].Drawing? && draw == c.source(s.next)
    ensures Measure(c, e, DrawDo(s, d, draw)) < Measure(c, e, s)
  {
    RankUpdate(s.drivers, d, DrawDo(s, d, draw).drivers[d], PcRank);
  }

  lemma DriverDecreases(c: Config, e: nat, s: State, d: nat)
    requires DriverCan(s, d) && !s.drivers[d].Drawing?
    ensures Measure(c, e, DriverDo(c, s, d)) < Measure(c, e, s)
  {
    DriverRankDrops(c, s, d);
    RankUpdate(s.drivers, d, DriverDo(c, s, d).drivers[d], PcRank);
  }

  ghost predicate RankDrops(s: State, t: State, d: nat) {
    && d < |s.drivers| == |t.drivers|
    && t.drivers == s.drivers[d := t.drivers[d]] && PcRank(t.drivers[d]) < PcRank(s.drivers[d])
    && t.next == s.next && t.consumer == s.consumer && t.index == s.index
  }

  lemma DriverRankDrops(c: Config, s: State, d: nat)
    requires DriverCan(s, d) && !s.drivers[d].Drawing?
    ensures RankDrops(s, DriverDo(c, s, d), d)
  {
    if Posting(s.drivers[d]) { PostRankDrops(c, s, d); } else { QuietRankDrops(c, s, d); }
  }

  lemma PostRankDrops(c: Config, s: State, d: nat)
    requires DriverCan(s, d) && Posting(s.drivers[d])
    ensures RankDrops(s, DriverDo(c, s, d), d)
  {}

  lemma QuietRankDrops(c: Config, s: State, d: nat)
    requires DriverCan(s, d) && !s.drivers[d].Drawing? && !Posting(s.drivers[d])
    ensures RankDrops(s, DriverDo(c, s, d), d)
  {
    DriverFrame(c, s, d);
  }

  lemma ConsumerDecreases(c: Config, e: nat, s: State, close: bool)
    requires s.index <= e && |s.drivers| == c.workers
    requires ConsumerCan(s) && !Idle(s, ConsumerStep(close))
    ensures ConsumerRank(c, e, ConsumerDo(c, s, close)) < ConsumerRank(c, e, s)
  {
    if s.consumer.Deliver? {
      DeliverDecreases(c, e, s, close);
    } else if Polling(s.consumer) {
      PollDecreases(c, e, s, close);
    }
  }

  lemma DeliverDecreases(c: Config, e: nat, s: State, close: bool)
    requires s.index <= e && s.consumer.Deliver?
    ensures ConsumerRank(c, e, ConsumerDo(c, s, close)) < ConsumerRank(c, e, s)
  {}

  lemma PollDecreases(c: Config, e: nat, s: State, close: bool)
    requires s.index <= e && Polling(s.consumer) && !Idle(s, ConsumerStep(close))
    ensures ConsumerRank(c, e, ConsumerDo(c, s, close)) < ConsumerRank(c, e, s)
  {}

  lemma ConsumerKeepsDrivers(c: Config, s: State, close: bool)
    requires ConsumerCan(s)
    ensures var t := ConsumerDo(c, s, close); t.next == s.next && t.drivers == s.drivers
  {
    if !s.consumer.Check? {
      ConsumerFrame(c, s, close);
    }
  }

  /** Every step that is not idle polling brings the end nearer. */
  lemma StepDecreases(c: Config, e: nat, s: State, a: Action)
    requires Bounded(c, e) && Inv(c, s) && Can(s, a) && !Idle(s, a)
    ensures Measure(c, e, Do(c, s, a)) < Measure(c, e, s)
  {
    match a
    case DriverStep(d) =>
      if s.drivers[d].Drawing? { DrawDecreases(c, e, s, d, c.source(s.next)); } else { DriverDecreases(c, e, s, d); }
    case ConsumerStep(close) =>
      IndexBounded(c, e, s);
      ConsumerDecreases(c, e, s, close);
      ConsumerKeepsDrivers(c, s, close);
  }

  /** Idle polling changes nothing but where the consumer stands in its loop. */
  ghost predicate Frozen(s: State, t: State) {
    && SameTables(s, t) && t.slots == s.slots && t.stop == s.stop && t.index == s.index
    && (t.consumer == s.consumer || (Polling(s.consumer) && Polling(t.consumer)))
  }

  lemma IdleFrozen(c: Config, s: State, a: Action)
    requires Can(s, a) && Idle(s, a)
    ensures Frozen(s, Do(c, s, a))
  {}

  lemma IdleMeasure(c: Config, e: nat, s: State, a: Action)
    requires Can(s, a) && Idle(s, a)
    ensures Measure(c, e, Do(c, s, a)) == Measure(c, e, s)
  {
    IdleFrozen(c, s, a);
  }

  // ---- infinite fair schedules -----------------------------------------------

  /** The n-th turn goes to `turns(n)`; a thread that cannot move when its turn comes lets it pass. */
  ghost predicate Turned(c: Config, turns: nat -> Action, states: nat -> State, n: nat) {
    states(n + 1) == if Can(states(n), turns(n)) then Do(c, states(n), turns(n)) else states(n)
  }

  ghost predicate IsRun(c: Config, turns: nat -> Action, states: nat -> State) {
    states(0) == Init(c) && forall n: nat :: Turned(c, turns, states, n)
  }

  ghost predicate ConsumerTurn(turns: nat -> Action, k: nat) { turns(k).ConsumerStep? }

  ghost predicate ConsumerTurnAfter(turns: nat -> Action, n: nat) {
    exists k :: n <= k && ConsumerTurn(turns, k)
  }

  ghost predicate Ready(states: nat -> State, d: nat, k: nat) { DriverCan(states(k), d) }

  ghost predicate ReadyAfter(states: nat -> State, d: nat, n: nat) {
    exists k :: n <= k && Ready(states, d, k)
  }

  ghost predicate Served(turns: nat -> Action, states: nat -> State, d: nat, k: nat) {
    turns(k) == DriverStep(d) && Ready(states, d, k)
  }

  ghost predicate ServedAfter(turns: nat -> Action, states: nat -> State, d: nat, n: nat) {
    exists k :: n <= k && Served(turns, states, d, k)
  }

  /** The consumer keeps getting turns, and a driver that is ready again and again is served in the end. */
  ghost predicate Fair(turns: nat -> Action, states: nat -> State) {
    && (forall n: nat :: ConsumerTurnAfter(turns, n))
    && (forall d: nat, n: nat ::
          (forall m: nat | n <= m :: ReadyAfter(states, d, m)) ==> ServedAfter(turns, states, d, n))
  }

  /** Every state of such a run is reached by a finite run. */
  lemma {:induction false} StatesReachable(c: Config, turns: nat -> Action, states: nat -> State, n: nat)
    requires IsRun(c, turns, states)
    ensures Reachable(c, states(n))
  {
    if n == 0 {
      assert RunsTo(c, [], Init(c));
    } else {
      StatesReachable(c, turns, states, n - 1);
      assert Turned(c, turns, states, n - 1);
      if Can(states(n - 1), turns(n - 1)) {
        OneMore(c, states(n - 1), turns(n - 1));
      }
    }
  }

  lemma OneMore(c: Config, s: State, a: Action)
    requires Reachable(c, s) && Can(s, a)
    ensures Reachable(c, Do(c, s, a))
  {
    var choices :| RunsTo(c, choices, s);
    var more := choices + [a];
    assert more[..|more| - 1] == choices && more[|more| - 1] == a;
    assert RunsTo(c, more, Do(c, s, a));
  }

  lemma StatesInv(c: Config, turns: nat -> Action, states: nat -> State, n: nat)
    requires c.Valid() && IsRun(c, turns, states)
    ensures Inv(c, states(n))
  {
    StatesReachable(c, turns, states, n);
    ReachableInv(c, states(n));
  }

  lemma TurnMeasure(c: Config, e: nat, s: State, a: Action)
    requires Bounded(c, e) && Inv(c, s) && Can(s, a)
    ensures Measure(c, e, Do(c, s, a)) <= Measure(c, e, s)
    ensures !Idle(s, a) ==> Measure(c, e, Do(c, s, a)) < Measure(c, e, s)
  {
    if Idle(s, a) { IdleMeasure(c, e, s, a); } else { StepDecreases(c, e, s, a); }
  }

  lemma TurnLowers(c: Config, e: nat, turns: nat -> Action, states: nat -> State, n: nat)
    requires Bounded(c, e) && IsRun(c, turns, states)
    ensures Measure(c, e, states(n + 1)) <= Measure(c, e, states(n))
    ensures Can(states(n), turns(n)) && !Idle(states(n), turns(n)) ==>
      Measure(c, e, states(n + 1)) < Measure(c, e, states(n))
  {
    assert Turned(c, turns, states, n);
    StatesInv(c, turns, states, n);
    if Can(states(n), turns(n)) {
      TurnMeasure(c, e, states(n), turns(n));
    }
  }

  lemma {:induction false} NeverIncreases(c: Config, e: nat, turns: nat -> Action, states: nat -> State, n: nat, k: nat)
    requires Bounded(c, e) && IsRun(c, turns, states) && n <= k
    ensures Measure(c, e, states(k)) <= Measure(c, e, states(n))
    decreases k
  {
    if n < k {
      NeverIncreases(c, e, turns, states, n, k - 1);
      TurnLowers(c, e, turns, states, k - 1);
    }
  }

  /** From turn `n` on the measure never falls below what it is at `n`. */
  ghost predicate Stuck(c: Config, e: nat, states: nat -> State, n: nat) {
    forall k: nat | n <= k :: Measure(c, e, states(k)) >= Measure(c, e, states(n))
  }

  lemma StuckIdles(c: Config, e: nat, turns: nat -> Action, states: nat -> State, n: nat, k: nat)
    requires Bounded(c, e) && IsRun(c, turns, states) && Stuck(c, e, states, n) && n <= k
    requires Can(states(k), turns(k))
    ensures Idle(states(k), turns(k))
  {
    NeverIncreases(c, e, turns, states, n, k);
    TurnLowers(c, e, turns, states, k);
    assert Measure(c, e, states(k + 1)) >= Measure(c, e, states(n));
  }

  lemma StuckTurn(c: Config, e: nat, turns: nat -> Action, states: nat -> State, n: nat, k: nat)
    requires Bounded(c, e) && IsRun(c, turns, states) && Stuck(c, e, states, n) && n <= k
    ensures Frozen(states(k), states(k + 1))
  {
    assert Turned(c, turns, states, k);
    if Can(states(k), turns(k)) {
      StuckIdles(c, e, turns, states, n, k);
      IdleFrozen(c, states(k), turns(k));
    }
  }

  lemma {:induction false} StuckFrozen(c: Config, e: nat, turns: nat -> Action, states: nat -> State, n: nat, k: nat)
    requires Bounded(c, e) && IsRun(c, turns, states) && Stuck(c, e, states, n) && n <= k
    ensures Frozen(states(n), states(k))
    decreases k
  {
    if n < k {
      StuckFrozen(c, e, turns, states, n, k - 1);
      StuckTurn(c, e, turns, states, n, k - 1);
    }
  }

  lemma DriverKeepsConsumer(c: Config, s: State, d: nat)
    requires DriverCan(s, d)
    ensures DriverDo(c, s, d).consumer == s.consumer
  {
    if s.drivers[d].Drawing? {
      DrawKeepsConsumer(s, d, c.source(s.next));
    }
  }

  lemma DrawKeepsConsumer(s: State, d: nat, draw: Draw)
    requires d < |s.drivers|
    ensures DrawDo(s, d, draw).consumer == s.consumer
  {}

  lemma OtherTurn(c: Config, turns: nat -> Action, states: nat -> State, n: nat)
    requires IsRun(c, turns, states) && !ConsumerTurn(turns, n)
    ensures states(n + 1).consumer == states(n).consumer
  {
    assert Turned(c, turns, states, n);
    if Can(states(n), turns(n)) {
      DriverKeepsConsumer(c, states(n), turns(n).driver);
    }
  }

  /** The next turn of the consumer finds it where it is now. */
  lemma {:induction false} NextTurn(c: Config, turns: nat -> Action, states: nat -> State, n: nat, bound: nat)
    returns (k: nat)
    requires IsRun(c, turns, states) && n <= bound && ConsumerTurn(turns, bound)
    ensures n <= k && ConsumerTurn(turns, k) && states(k).consumer == states(n).consumer
    decreases bound - n
  {
    if ConsumerTurn(turns, n) {
      k := n;
    } else {
      OtherTurn(c, turns, states, n);
      k := NextTurn(c, turns, states, n + 1, bound);
    }
  }

  /** Where idle polling leads, and what it has found. */
  ghost predicate Polled(s: State, t: State) {
    match s.consumer
    case Check => s.index !in s.results && t.consumer.CheckEnd?
    case CheckEnd => (s.end.None? || s.index < s.end.value) && t.consumer.CheckAlive?
    case CheckAlive => !AllExited(s) && t.consumer.Waiting?
    case Waiting => t.consumer.Check?
    case _ => false
  }

  lemma IdlePolls(c: Config, s: State, a: Action)
    requires Can(s, a) && Idle(s, a)
    ensures Polled(s, Do(c, s, a))
  {}

  lemma PollTurn(c: Config, e: nat, turns: nat -> Action, states: nat -> State, n: nat, k: nat)
    requires Bounded(c, e) && IsRun(c, turns, states) && Stuck(c, e, states, n) && n <= k
    requires !states(k).consumer.Finished? && ConsumerTurn(turns, k)
    ensures Polled(states(k), states(k + 1))
  {
    assert Turned(c, turns, states, k);
    StuckIdles(c, e, turns, states, n, k);
    IdlePolls(c, states(k), turns(k));
  }

  /** While stuck, the consumer polls from where it is at `m`; `k` is after its turn. */
  lemma PollOnce(c: Config, e: nat, turns: nat -> Action, states: nat -> State, n: nat, m: nat) returns (k: nat)
    requires Bounded(c, e) && IsRun(c, turns, states) && Fair(turns, states) && Stuck(c, e, states, n) && n <= m
    requires !states(m).consumer.Finished?
    ensures m < k && Polled(states(m), states(k))
  {
    assert ConsumerTurnAfter(turns, m);
    var bound :| m <= bound && ConsumerTurn(turns, bound);
    k := NextTurn(c, turns, states, m, bound);
    StuckFrozen(c, e, turns, states, n, m);
    StuckFrozen(c, e, turns, states, n, k);
    PollTurn(c, e, turns, states, n, k);
    k := k + 1;
  }

  lemma ComesToWait(c: Config, e: nat, turns: nat -> Action, states: nat -> State, n: nat, m: nat) returns (k: nat)
    requires Bounded(c, e) && IsRun(c, turns, states) && Fair(turns, states) && Stuck(c, e, states, n) && n <= m
    requires !states(m).consumer.Finished?
    ensures m <= k && states(k).consumer.Waiting?
  {
    k := PollOnce(c, e, turns, states, n, m);
    if !states(k).consumer.Waiting? {
      k := PollOnce(c, e, turns, states, n, k);
    }
    if !states(k).consumer.Waiting? {
      k := PollOnce(c, e, turns, states, n, k);
    }
    if !states(k).consumer.Waiting? {
      k := PollOnce(c, e, turns, states, n, k);
    }
  }

  /** While stuck, the consumer has looked for its entry and for the end of the input in vain. */
  lemma StuckLooked(c: Config, e: nat, turns: nat -> Action, states: nat -> State, n: nat) returns (w: nat)
    requires Bounded(c, e) && IsRun(c, turns, states) && Fair(turns, states) && Stuck(c, e, states, n)
    requires !states(n).consumer.Finished?
    ensures n <= w && states(w).consumer.Waiting?
    ensures var s := states(n); s.index !in s.results && (s.end.None? || s.index < s.end.value) && !AllExited(s)
  {
    w := ComesToWait(c, e, turns, states, n, n);
    var check := PollOnce(c, e, turns, states, n, w);
    var checkEnd := PollOnce(c, e, turns, states, n, check);
    var alive := PollOnce(c, e, turns, states, n, checkEnd);
    StuckFrozen(c, e, turns, states, n, check);
    StuckFrozen(c, e, turns, states, n, checkEnd);
    StuckFrozen(c, e, turns, states, n, alive);
    var again := PollOnce(c, e, turns, states, n, alive);
    assert !AllExited(states(alive));
  }

  lemma FrozenReady(s: State, t: State, u: State, d: nat)
    requires Frozen(s, t) && Frozen(s, u) && DriverCan(t, d) && u.consumer.Waiting?
    ensures DriverCan(u, d)
  {}

  /** While stuck, no driver can move. */
  lemma StuckUnready(c: Config, e: nat, turns: nat -> Action, states: nat -> State, n: nat, w: nat, d: nat)
    requires Bounded(c, e) && IsRun(c, turns, states) && Fair(turns, states) && Stuck(c, e, states, n)
    requires !states(n).consumer.Finished? && n <= w && states(w).consumer.Waiting?
    ensures !DriverCan(states(w), d)
  {
    if DriverCan(states(w), d) {
      forall m: nat | n <= m ensures ReadyAfter(states, d, m) {
        StuckFrozen(c, e, turns, states, n, m);
        StuckFrozen(c, e, turns, states, n, w);
        var k := ComesToWait(c, e, turns, states, n, m);
        StuckFrozen(c, e, turns, states, n, k);
        FrozenReady(states(n), states(w), states(k), d);
        assert Ready(states, d, k);
      }
      assert ServedAfter(turns, states, d, n);
      var k :| n <= k && Served(turns, states, d, k);
      StuckIdles(c, e, turns, states, n, k);
    }
  }

  /** A fair schedule is never stuck before the end. */
  lemma NeverStuck(c: Config, e: nat, turns: nat -> Action, states: nat -> State, n: nat)
    requires EndsAt(c, e) && IsRun(c, turns, states) && Fair(turns, states) && !states(n).consumer.Finished?
    ensures !Stuck(c, e, states, n)
  {
    if Stuck(c, e, states, n) {
      var w := StuckLooked(c, e, turns, states, n);
      StuckFrozen(c, e, turns, states, n, w);
      StatesInv(c, turns, states, w);
      IndexBounded(c, e, states(w));
      InvProgress(c, states(w));
      var d :| DriverCan(states(w), d);
      StuckUnready(c, e, turns, states, n, w, d);
    }
  }

  /** Liveness: when the sequential map ends and meets no None job, every fair schedule brings
      `imap` to its end. */
  lemma {:induction false} EventuallyFinishes(c: Config, e: nat, turns: nat -> Action, states: nat -> State, n: nat)
    returns (k: nat)
    requires EndsAt(c, e) && IsRun(c, turns, states) && Fair(turns, states)
    ensures n <= k && states(k).consumer.Finished?
    decreases Measure(c, e, states(n))
  {
    StatesInv(c, turns, states, n);
    MeasureNatural(c, e, states(n));
    if states(n).consumer.Finished? {
      k := n;
    } else {
      NeverStuck(c, e, turns, states, n);
      var m: nat :| n <= m && Measure(c, e, states(m)) < Measure(c, e, states(n));
      StatesInv(c, turns, states, m);
      MeasureNatural(c, e, states(m));
      k := EventuallyFinishes(c, e, turns, states, m);
    }
  }

  lemma FinishedIsSequential(c: Config, e: nat, s: State, ending: Ending)
    requires EndsAt(c, e) && Reachable(c, s) && s.consumer == Finished(ending) && ending != Closed
    ensures SequentialRun(c, e + 1) == (s.yielded, Some(ending))
  {
    hide SequentialRun, Reachable, Inv;
    ReachableInv(c, s);
    IndexBounded(c, e, s);
    EndsAsSequential(c, s, ending);
    EndedStays(c, s.index + 1, e + 1);
  }

  /** Every fair schedule that does not close `imap` early computes the sequential map. */
  lemma FairRunsAreSequential(c: Config, e: nat, turns: nat -> Action, states: nat -> State) returns (k: nat)
    requires EndsAt(c, e) && IsRun(c, turns, states) && Fair(turns, states)
    ensures states(k).consumer.Finished?
    ensures states(k).consumer == Finished(Closed) ||
      SequentialRun(c, e + 1) == (states(k).yielded, Some(states(k).consumer.ending))
  {
    k := EventuallyFinishes(c, e, turns, states, 0);
    var s := states(k);
    StatesReachable(c, turns, states, k);
    if s.consumer.ending != Closed {
      FinishedIsSequential(c, e, s, s.consumer.ending);
    }
  }
}
