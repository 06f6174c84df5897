/** What a job that is None does to `imap`: it never delivers it, and it may wait for it forever. */
module PoolBlocked {
  import opened Wrappers
  import opened ProcessPool
  import opened PoolInvariant
  import opened PoolTheorems
  import opened PoolLiveness
  import opened PoolLeaving

  lemma IndexUpTo(c: Config, k: nat, s: State)
    requires c.Valid() && c.source(k).NoneJob? && Reachable(c, s)
    ensures s.index <= k
  {
    ReachableInv(c, s);
    if s.index > k {
      YieldedValue(c, s, k);
    }
  }

  /** A None job at `k` is never delivered: whatever the schedule, `imap` yields nothing from `k`
      on and can only end by being closed or for want of workers. */
  lemma NoneJobNeverDelivered(c: Config, k: nat, s: State)
    requires c.Valid() && c.source(k).NoneJob? && SequentialRun(c, k).1.None? && Reachable(c, s)
    ensures s.index <= k
    ensures s.consumer.Finished? ==> s.consumer.ending.Closed? || s.consumer.ending.NoWorkerLeft?
  {
    hide SequentialRun, Reachable;
    IndexUpTo(c, k, s);
    if s.consumer.Finished? {
      EndsAsSequential(c, s, s.consumer.ending);
      if s.index < k && SequentialRun(c, s.index + 1).1.Some? {
        EndedStays(c, s.index + 1, k);
      } else if s.index == k && s.consumer.ending != Closed {
        SequentialExactly(c, s, s.consumer.ending);
      }
    }
  }

  /** A finished run that was not closed ended as the sequential map does exactly when it does not stand at a
      None job. */
  lemma SequentialExactly(c: Config, s: State, ending: Ending)
    requires c.Valid() && Reachable(c, s) && s.consumer == Finished(ending) && ending != Closed
    ensures SequentialRun(c, s.index + 1) == (s.yielded, Some(ending)) <==> !c.source(s.index).NoneJob?
  {
    ReachableInv(c, s);
    YieldsInOrder(c, s);
    EndsAsSequential(c, s, ending);
    assert s.index in s.posted ==> Fits(c, s.index, s.posted[s.index]);
  }

  // ---- waiting forever -----------------------------------------------------------------

  /** The consumer polls for an entry that is not there, no slot is free, and the drivers that have not returned
      all wait for one. */
  ghost predicate Blocked(s: State) {
    && Polling(s.consumer) && s.index !in s.results && (s.end.None? || s.index < s.end.value)
    && s.slots == 0 && !AllExited(s)
    && (forall d | 0 <= d < |s.drivers| :: s.drivers[d].Exited? || s.drivers[d].Acquire?)
  }

  lemma BlockedStays(c: Config, s: State, a: Action)
    requires Blocked(s) && Can(s, a)
    ensures Blocked(Do(c, s, a)) && Do(c, s, a).yielded == s.yielded && Do(c, s, a).index == s.index
  {
    assert a.ConsumerStep?;
  }

  lemma {:induction false} BlockedForever(c: Config, turns: nat -> Action, states: nat -> State, n: nat, k: nat)
    requires IsRun(c, turns, states) && Blocked(states(n)) && n <= k
    ensures Blocked(states(k)) && states(k).yielded == states(n).yielded
    decreases k
  {
    hide Blocked;
    if n < k {
      BlockedForever(c, turns, states, n, k - 1);
      assert Turned(c, turns, states, k - 1);
      if Can(states(k - 1), turns(k - 1)) {
        BlockedStays(c, states(k - 1), turns(k - 1));
      }
    }
  }

  /** Whoever has not returned while the consumer waits and no driver can move waits for a slot. */
  lemma StillDrivers(c: Config, s: State)
    requires Inv(c, s) && s.consumer.Waiting? && forall d :: !DriverCan(s, d)
    ensures forall d | 0 <= d < |s.drivers| :: s.drivers[d].Exited? || (s.drivers[d].Acquire? && s.slots == 0)
  {
    assert s.lock.Some? ==> InDraw(s.drivers[s.lock.value]) && DriverCan(s, s.lock.value);
    forall d | 0 <= d < |s.drivers| ensures s.drivers[d].Exited? || (s.drivers[d].Acquire? && s.slots == 0) {
      assert !DriverCan(s, d);
    }
  }

  lemma StuckIsBlocked(c: Config, e: nat, turns: nat -> Action, states: nat -> State, n: nat) returns (w: nat)
    requires Bounded(c, e) && IsRun(c, turns, states) && Fair(turns, states)
    requires !states(n).consumer.Finished? && Stuck(c, e, states, n)
    ensures n <= w && Blocked(states(w))
  {
    w := StuckLooked(c, e, turns, states, n);
    StuckFrozen(c, e, turns, states, n, w);
    StatesInv(c, turns, states, w);
    forall d ensures !DriverCan(states(w), d) {
      if d >= 0 {
        StuckUnready(c, e, turns, states, n, w, d);
      }
    }
    StillDrivers(c, states(w));
  }

  /** Where the sequential map ends or meets a None job, every fair schedule brings `imap` to its end or to where
      it waits forever. */
  lemma {:induction false} FinishesOrBlocks(c: Config, e: nat, turns: nat -> Action, states: nat -> State, n: nat)
    returns (k: nat)
    requires Bounded(c, e) && IsRun(c, turns, states) && Fair(turns, states)
    ensures n <= k && (states(k).consumer.Finished? || Blocked(states(k)))
    decreases Measure(c, e, states(n))
  {
    StatesInv(c, turns, states, n);
    MeasureNatural(c, e, states(n));
    if states(n).consumer.Finished? {
      k := n;
    } else if Stuck(c, e, states, n) {
      k := StuckIsBlocked(c, e, turns, states, n);
    } else {
      var m: nat :| n <= m && Measure(c, e, states(m)) < Measure(c, e, states(n));
      StatesInv(c, turns, states, m);
      MeasureNatural(c, e, states(m));
      k := FinishesOrBlocks(c, e, turns, states, m);
    }
  }

  ghost predicate BlockedAt(states: nat -> State, n: nat) { Blocked(states(n)) }

  ghost predicate FinishedAt(states: nat -> State, n: nat) { states(n).consumer.Finished? }

  /** When a fair run never finishes: exactly when it comes to where the window is full, or taken, behind a None
      job. */
  lemma NeverFinishesExactly(c: Config, e: nat, turns: nat -> Action, states: nat -> State)
    requires Bounded(c, e) && IsRun(c, turns, states) && Fair(turns, states)
    ensures (forall n: nat :: !FinishedAt(states, n)) <==> exists n: nat :: BlockedAt(states, n)
  {
    if n: nat :| BlockedAt(states, n) {
      forall m: nat ensures !FinishedAt(states, m) {
        if m < n && FinishedAt(states, m) {
          StaysFinished(c, turns, states, m, n);
        } else if m >= n {
          BlockedForever(c, turns, states, n, m);
        }
      }
    }
    var k := FinishesOrBlocks(c, e, turns, states, 0);
    assert FinishedAt(states, k) || BlockedAt(states, k);
  }

  /** The consumer polls on until it waits. */
  lemma {:induction false} PollsToWait(c: Config, s: State) returns (t: State)
    requires Reachable(c, s) && Blocked(s)
    ensures Reachable(c, t) && Blocked(t) && t.consumer.Waiting? && t.index == s.index
    decreases s.consumer.Check?, s.consumer.CheckEnd?, s.consumer.CheckAlive?
  {
    if s.consumer.Waiting? {
      t := s;
    } else {
      OneMore(c, s, ConsumerStep(false));
      BlockedStays(c, s, ConsumerStep(false));
      t := PollsToWait(c, Do(c, s, ConsumerStep(false)));
    }
  }

  /** It is a None job that the consumer waits for. */
  lemma BlockedAtNone(c: Config, s: State)
    requires c.Valid() && Reachable(c, s) && Blocked(s)
    ensures c.source(s.index).NoneJob?
  {
    var t := PollsToWait(c, s);
    if !c.source(t.index).NoneJob? {
      NoDeadlock(c, t);
    }
  }

  // ---- an input ------------------------------------------------------------------------

  /** Two workers, a window of 2, a None job, and jobs behind it. */
  const LATE_NONE :=
    Config(2, Some(2), (i: nat) => if i == 0 then NoneJob else Job("job"), (i: nat, job) => Value("done"))

  lemma Steps(s: State, a: Action) returns (t: State)
    requires Reachable(LATE_NONE, s) && Can(s, a)
    ensures t == Do(LATE_NONE, s, a) && Reachable(LATE_NONE, t)
  {
    t := Do(LATE_NONE, s, a);
    OneMore(LATE_NONE, s, a);
  }

  /** The first driver draws the None job and returns. */
  lemma NoneDrawn() returns (s: State)
    ensures Reachable(LATE_NONE, s)
    ensures s == State(2, 1, None, false, map[], [Exited, Acquire], None, Enter, 0, [], map[], map[0 := 0], 0, 0)
  {
    s := Init(LATE_NONE);
    assert RunsTo(LATE_NONE, [], s);
    assert s.drivers == [Acquire, Acquire];
    s := NoneInHand(s);
    s := Steps(s, DriverStep(0));
    s := Steps(s, DriverStep(0));
    assert s.drivers == [Exited, Acquire];
  }

  lemma NoneInHand(s: State) returns (t: State)
    requires Reachable(LATE_NONE, s)
    requires s == State(2, 0, None, false, map[], [Acquire, Acquire], None, Enter, 0, [], map[], map[], 0, 0)
    ensures Reachable(LATE_NONE, t)
    ensures t == State(1, 1, None, false, map[], [ReleaseSlot, Acquire], None, Enter, 0, [], map[], map[0 := 0], 0, 0)
  {
    t := Steps(s, DriverStep(0));
    t := Steps(t, DriverStep(0));
    t := Steps(t, DriverStep(0));
    assert t.drivers == [ReleaseSlot, Acquire];
  }

  /** The second runs the two jobs behind it, which fill the window: from then on `imap` waits forever. */
  lemma WaitsForever() returns (s: State)
    ensures LATE_NONE.Valid() && Reachable(LATE_NONE, s) && Blocked(s)
  {
    s := NoneDrawn();
    s := OneJob(s);
    s := OneJob(s);
    var t := Steps(s, ConsumerStep(false));
    assert t.drivers == s.drivers && !t.drivers[1].Exited?;
    s := t;
  }

  lemma OneJob(s: State) returns (t: State)
    requires Reachable(LATE_NONE, s) && s.drivers == [Exited, Acquire] && s.slots > 0 && s.lock.None? && s.end.None?
    requires !s.stop && s.consumer.Enter? && s.next > 0 && s.index == 0 && 0 !in s.results
    ensures Reachable(LATE_NONE, t) && t.drivers == [Exited, Acquire] && t.slots == s.slots - 1 && t.lock.None?
    ensures t.end.None? && !t.stop && t.consumer.Enter? && t.next > 0 && t.index == 0 && 0 !in t.results
  {
    t := Steps(s, DriverStep(1));
    t := Steps(t, DriverStep(1));
    t := Steps(t, DriverStep(1));
    t := Steps(t, DriverStep(1));
    t := Steps(t, DriverStep(1));
  }
}
