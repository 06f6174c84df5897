/** What `imap` promises, over every schedule: it is the sequential map, within its window,
    and it neither deadlocks nor leaves a thread behind. */
module PoolTheorems {
  import opened Wrappers
  import opened ProcessPool
  import opened PoolInvariant

  const NONE: Value := "None"

  /** The sequential map after at most `n` turns of `for job in jobs: yield target(job)`:
      what was yielded, and how it ended if it did. */
  function SequentialRun(c: Config, n: nat): (r: (seq<Value>, Option<Ending>))
    ensures |r.0| <= n && (r.1.None? ==> |r.0| == n)
  {
    if n == 0 then ([], None) else
      var (yielded, ended) := SequentialRun(c, n - 1);
      if ended.Some? then (yielded, ended) else
        match c.source(n - 1)
        case StopIteration => (yielded, Some(Returned))
        case Raised(exc) => (yielded, Some(SourceRaised(exc)))
        case Job(job) => SequentialJob(c, n - 1, job, yielded)
        case NoneJob => SequentialJob(c, n - 1, NONE, yielded)
  }

  function SequentialJob(c: Config, i: nat, job: Value, yielded: seq<Value>): (r: (seq<Value>, Option<Ending>))
    ensures r.1.None? ==> |r.0| == |yielded| + 1
    ensures r.1.Some? ==> r.0 == yielded
  {
    match c.answer(i, job)
    case Value(v) => (yielded + [v], None)
    case Failure(message) => (yielded, Some(WorkerError(message)))
  }

  lemma {:induction false} EndedStays(c: Config, n: nat, m: nat)
    requires n <= m && SequentialRun(c, n).1.Some?
    ensures SequentialRun(c, m) == SequentialRun(c, n)
    decreases m
  {
    if n < m {
      EndedStays(c, n, m - 1);
    }
  }

  // ---- every run ------------------------------------------------------------

  lemma StepInv(c: Config, s: State, a: Action)
    requires Inv(c, s) && Can(s, a)
    ensures Inv(c, Do(c, s, a))
  {
    match a
    case DriverStep(d) => DriverInv(c, s, d);
    case ConsumerStep(close) => ConsumerInv(c, s, close);
  }

  lemma {:induction false} RunInv(c: Config, choices: seq<Action>, s: State)
    requires c.Valid() && RunsTo(c, choices, s)
    ensures Inv(c, s)
    decreases |choices|
  {
    if choices == [] {
      InitInv(c);
    } else {
      var last := |choices| - 1;
      var p :| RunsTo(c, choices[..last], p) && Can(p, choices[last]) && s == Do(c, p, choices[last]);
      RunInv(c, choices[..last], p);
      StepInv(c, p, choices[last]);
    }
  }

  lemma ReachableInv(c: Config, s: State)
    requires c.Valid() && Reachable(c, s)
    ensures Inv(c, s)
  {
    var choices :| RunsTo(c, choices, s);
    RunInv(c, choices, s);
  }

  // ---- the sequential map ---------------------------------------------------

  lemma YieldedValue(c: Config, s: State, i: nat)
    requires InvResults(c, s) && InvConsumer(c, s) && i < s.index
    ensures c.source(i).Job? && c.answer(i, c.source(i).job) == Value(s.yielded[i])
  {
    assert Fits(c, i, s.posted[i]);
  }

  lemma {:induction false} YieldsPrefix(c: Config, s: State, n: nat)
    requires InvResults(c, s) && InvConsumer(c, s) && n <= s.index
    ensures SequentialRun(c, n) == (s.yielded[..n], None)
    decreases n
  {
    if n > 0 {
      YieldsPrefix(c, s, n - 1);
      YieldedValue(c, s, n - 1);
      assert s.yielded[..n] == s.yielded[..n - 1] + [s.yielded[n - 1]];
    }
  }

  /** At any moment of any schedule, what was yielded is what the sequential map yields first. */
  lemma YieldsInOrder(c: Config, s: State)
    requires c.Valid() && Reachable(c, s)
    ensures SequentialRun(c, s.index) == (s.yielded, None)
  {
    ReachableInv(c, s);
    YieldsPrefix(c, s, s.index);
    assert s.yielded[..s.index] == s.yielded;
  }

  /** However it was scheduled, a finished `imap` that was not closed early ended as the
      sequential map does, unless the job it stood at was None and every worker was gone. */
  lemma EndsAsSequential(c: Config, s: State, ending: Ending)
    requires c.Valid() && Reachable(c, s) && s.consumer == Finished(ending)
    ensures
      || ending == Closed
      || (ending == NoWorkerLeft && c.source(s.index).NoneJob?)
      || SequentialRun(c, s.index + 1) == (s.yielded, Some(ending))
  {
    ReachableInv(c, s);
    YieldsInOrder(c, s);
    if ending.SourceRaised? || ending.WorkerError? {
      assert Fits(c, s.index, s.posted[s.index]);
    }
  }

  /** The generator is on its way to end as closed. */
  predicate EndsClosed(s: State) {
    match s.consumer
    case Finally(ending) => ending == Closed
    case Releasing(_, ending) => ending == Closed
    case Finished(ending) => ending == Closed
    case _ => false
  }

  /** It ends closed exactly when the caller closes it at a yield, and nowhere else. */
  lemma ClosingStep(c: Config, s: State, a: Action)
    requires Can(s, a)
    ensures EndsClosed(Do(c, s, a)) <==> EndsClosed(s) || (s.consumer.Suspended? && a == ConsumerStep(true))
  {}

  lemma {:induction false} NotClosedUnlessAsked(c: Config, choices: seq<Action>, s: State)
    requires RunsTo(c, choices, s) && forall i | 0 <= i < |choices| :: choices[i] != ConsumerStep(true)
    ensures !EndsClosed(s)
    decreases |choices|
  {
    if choices != [] {
      var last := |choices| - 1;
      var p :| RunsTo(c, choices[..last], p) && Can(p, choices[last]) && s == Do(c, p, choices[last]);
      NotClosedUnlessAsked(c, choices[..last], p);
      ClosingStep(c, p, choices[last]);
    }
  }

  /** Two schedules of one map, both run to their end and neither at a None job, yield the same values and end
      the same way. */
  lemma SchedulesAgree(c: Config, s: State, t: State, e: Ending, f: Ending)
    requires c.Valid() && Reachable(c, s) && Reachable(c, t)
    requires s.consumer == Finished(e) && t.consumer == Finished(f)
    requires e != Closed && f != Closed && !c.source(s.index).NoneJob? && !c.source(t.index).NoneJob?
    ensures s.yielded == t.yielded && e == f
  {
    hide SequentialRun, Reachable;
    EndsAsSequential(c, s, e);
    EndsAsSequential(c, t, f);
    var m := if s.index > t.index then s.index + 1 else t.index + 1;
    EndedStays(c, s.index + 1, m);
    EndedStays(c, t.index + 1, m);
  }

  // ---- the window -----------------------------------------------------------

  lemma {:induction false} CarryingAdmitted(pcs: seq<Pc>)
    ensures Count(pcs, Carrying) <= Count(pcs, Admitted) <= Count(pcs, Holding)
  {
    if pcs != [] {
      CarryingAdmitted(pcs[..|pcs| - 1]);
    }
  }

  /** No window is requested; a window of 0 counts as none. */
  predicate NoWindow(c: Config) { c.requested == None || c.requested == Some(0) }

  /** Slots free, held by a driver, by a posted entry or by the one just popped. */
  function Slots(s: State): nat { s.slots + Count(s.drivers, Holding) + |s.results| + B(s.consumer.Popped?) }

  /** Jobs drawn and not yet popped, those that are None aside: they will never be posted. */
  function InFlight(c: Config, s: State): int { Issued(s) - s.popped - NonesBelow(c, s.next) }

  /** Until `finally` the slots add up to two for each worker, or to the requested window, but never to fewer
      than the workers; jobs in flight or waiting to be yielded are never more than that. */
  lemma WindowKept(c: Config, s: State)
    requires c.Valid() && Reachable(c, s)
    ensures !s.stop && NoWindow(c) ==> Slots(s) == 2 * c.workers
    ensures !s.stop && !NoWindow(c) && c.requested.value >= c.workers ==> Slots(s) == c.requested.value
    ensures !s.stop && !NoWindow(c) && c.requested.value < c.workers ==> Slots(s) == c.workers
    ensures NoWindow(c) ==> InFlight(c, s) <= 2 * c.workers
    ensures !NoWindow(c) && c.requested.value >= c.workers ==> InFlight(c, s) <= c.requested.value
    ensures !NoWindow(c) && c.requested.value < c.workers ==> InFlight(c, s) <= c.workers
    ensures s.next <= Issued(s)
  {
    ReachableInv(c, s);
    CarryingAdmitted(s.drivers);
  }

  // ---- each index once ----------------------------------------------------------

  ghost predicate DrawnBelow(s: State) { forall i | i in s.drawer :: i < Issued(s) }

  lemma DrawBelow(s: State, d: nat, draw: Draw)
    requires d < |s.drivers| && s.end.None? && DrawnBelow(s)
    ensures DrawnBelow(DrawDo(s, d, draw))
    ensures DrawDo(s, d, draw).drawer == if draw.StopIteration? then s.drawer else s.drawer[s.next := d]
    ensures DrawDo(s, d, draw).posted == s.posted && DrawDo(s, d, draw).popped == s.popped
  {}

  /** Away from next(source) a driver neither gives out an index nor pops one. */
  lemma KeepsDrawn(c: Config, s: State, d: nat)
    requires DriverCan(s, d) && !s.drivers[d].Drawing?
    ensures var t := DriverDo(c, s, d);
      t.drawer == s.drawer && t.popped == s.popped && t.next == s.next && t.end == s.end
  {
    if s.drivers[d].Post? {
      PostKeepsDrawn(c, s, d);
    }
  }

  lemma PostKeepsDrawn(c: Config, s: State, d: nat)
    requires DriverCan(s, d) && s.drivers[d].Post?
    ensures var t := DriverDo(c, s, d);
      t.drawer == s.drawer && t.popped == s.popped && t.next == s.next && t.end == s.end
  {}

  lemma DrawnBelowStep(c: Config, s: State, a: Action)
    requires Inv(c, s) && DrawnBelow(s) && Can(s, a)
    ensures DrawnBelow(Do(c, s, a))
  {
    match a
    case DriverStep(d) =>
      if s.drivers[d].Drawing? {
        DrawBelow(s, d, c.source(s.next));
      } else {
        KeepsDrawn(c, s, d);
      }
    case ConsumerStep(close) => ConsumerKeepsIndices(c, s, close);
  }

  lemma {:induction false} RunDrawnBelow(c: Config, choices: seq<Action>, s: State)
    requires c.Valid() && RunsTo(c, choices, s)
    ensures DrawnBelow(s)
    decreases |choices|
  {
    if choices != [] {
      var last := |choices| - 1;
      var p :| RunsTo(c, choices[..last], p) && Can(p, choices[last]) && s == Do(c, p, choices[last]);
      RunInv(c, choices[..last], p);
      RunDrawnBelow(c, choices[..last], p);
      DrawnBelowStep(c, p, choices[last]);
    }
  }

  /** The step gives out index `next`. */
  predicate Draws(c: Config, s: State, a: Action)
    requires Can(s, a)
  {
    a.DriverStep? && s.drivers[a.driver].Drawing? && !c.source(s.next).StopIteration?
  }

  /** No index is given out twice: a draw takes one that nobody drew, and no other step touches the record. */
  lemma DrawnOnce(c: Config, s: State, a: Action)
    requires c.Valid() && Reachable(c, s) && Can(s, a)
    ensures Draws(c, s, a) ==> s.next !in s.drawer && Do(c, s, a).drawer == s.drawer[s.next := a.driver]
    ensures !Draws(c, s, a) ==> Do(c, s, a).drawer == s.drawer
  {
    ReachableInv(c, s);
    var choices :| RunsTo(c, choices, s);
    RunDrawnBelow(c, choices, s);
    match a
    case DriverStep(d) =>
      if s.drivers[d].Drawing? {
        DrawBelow(s, d, c.source(s.next));
      } else {
        KeepsDrawn(c, s, d);
      }
    case ConsumerStep(close) => ConsumerKeepsIndices(c, s, close);
  }

  /** The step puts an entry into `results`. */
  predicate Posts(s: State, a: Action)
    requires Can(s, a)
  {
    a.DriverStep? && Posting(s.drivers[a.driver])
  }

  /** No index is posted twice: a post is of an index without an entry, and no other step posts. */
  lemma PostedOnce(c: Config, s: State, a: Action)
    requires c.Valid() && Reachable(c, s) && Can(s, a)
    ensures Posts(s, a) ==> var i := s.drivers[a.driver].index;
      i !in s.posted && (exists entry :: Fits(c, i, entry) && Do(c, s, a).posted == s.posted[i := entry])
    ensures !Posts(s, a) ==> Do(c, s, a).posted == s.posted
  {
    ReachableInv(c, s);
    match a
    case DriverStep(d) =>
      if Posting(s.drivers[d]) {
        PostsEntry(c, s, d);
      } else {
        QuietPosts(c, s, d);
      }
    case ConsumerStep(close) => ConsumerKeepsIndices(c, s, close);
  }

  lemma PostsEntry(c: Config, s: State, d: nat)
    requires InvCarry(c, s) && DriverCan(s, d) && Posting(s.drivers[d])
    ensures var i := s.drivers[d].index;
      i !in s.posted && exists entry :: Fits(c, i, entry) && DriverDo(c, s, d).posted == s.posted[i := entry]
  {
    assert CarriesWell(c, s, d, s.drivers[d]);
    var i, t := s.drivers[d].index, DriverDo(c, s, d);
    assert t.posted == s.posted[i := t.posted[i]] && Fits(c, i, t.posted[i]);
  }

  lemma QuietPosts(c: Config, s: State, d: nat)
    requires DriverCan(s, d) && !Posting(s.drivers[d])
    ensures DriverDo(c, s, d).posted == s.posted
  {
    if s.drivers[d].Drawing? {
      DrawKeepsPosted(s, d, c.source(s.next));
    }
  }

  lemma DrawKeepsPosted(s: State, d: nat, draw: Draw)
    requires d < |s.drivers|
    ensures DrawDo(s, d, draw).posted == s.posted
  {}

  /** The step takes an entry out of `results`. */
  predicate Pops(s: State, a: Action) { a.ConsumerStep? && s.consumer.Check? && s.index in s.results }

  /** Indices are popped in order, each once: a pop takes the next one, and no popped index is in `results` again. */
  lemma PoppedOnce(c: Config, s: State, a: Action)
    requires c.Valid() && Reachable(c, s) && Can(s, a)
    ensures Pops(s, a) ==> s.index == s.popped && Do(c, s, a).popped == s.popped + 1
    ensures !Pops(s, a) ==> Do(c, s, a).popped == s.popped
    ensures forall i: nat | i < Do(c, s, a).popped :: i in Do(c, s, a).posted && i !in Do(c, s, a).results
  {
    ReachableInv(c, s);
    StepInv(c, s, a);
    match a
    case DriverStep(d) => DriverKeepsPopped(c, s, d);
    case ConsumerStep(close) => ConsumerPops(c, s, close);
  }

  lemma DriverKeepsPopped(c: Config, s: State, d: nat)
    requires DriverCan(s, d)
    ensures DriverDo(c, s, d).popped == s.popped
  {
    if s.drivers[d].Drawing? {
      DrawKeepsPopped(s, d, c.source(s.next));
    } else {
      KeepsDrawn(c, s, d);
    }
  }

  lemma DrawKeepsPopped(s: State, d: nat, draw: Draw)
    requires d < |s.drivers|
    ensures DrawDo(s, d, draw).popped == s.popped
  {}

  lemma ConsumerPops(c: Config, s: State, close: bool)
    requires ConsumerCan(s) && InvConsumer(c, s)
    ensures ConsumerDo(c, s, close).popped == s.popped + B(s.consumer.Check? && s.index in s.results)
    ensures s.consumer.Check? ==> s.index == s.popped
  {
    if !s.consumer.Check? {
      ConsumerFrame(c, s, close);
    }
  }

  lemma ConsumerKeepsIndices(c: Config, s: State, close: bool)
    requires ConsumerCan(s)
    ensures var t := ConsumerDo(c, s, close);
      t.drawer == s.drawer && t.posted == s.posted && t.next == s.next && t.end == s.end
  {
    if !s.consumer.Check? {
      ConsumerFrame(c, s, close);
    }
  }

  // ---- progress -------------------------------------------------------------

  /** No deadlock: while the consumer waits for a job that is not None, its entry is there, or
      the source is known to have ended, or some driver can take a step. */
  lemma NoDeadlock(c: Config, s: State)
    requires c.Valid() && Reachable(c, s) && s.consumer.Waiting? && !c.source(s.index).NoneJob?
    ensures
      || s.index in s.results
      || (s.end.Some? && s.index >= s.end.value)
      || exists d :: DriverCan(s, d)
  {
    ReachableInv(c, s);
    InvProgress(c, s);
  }

  lemma InvProgress(c: Config, s: State)
    requires Inv(c, s) && s.consumer.Waiting? && !c.source(s.index).NoneJob?
    ensures
      || s.index in s.results
      || (s.end.Some? && s.index >= s.end.value)
      || exists d :: DriverCan(s, d)
  {
    NotPastRaise(c, s);
    if s.index !in s.results && (s.end.None? || s.index < s.end.value) {
      if s.index < Issued(s) {
        assert Carried(s, s.index);
        assert DriverCan(s, s.drawer[s.index]);
      } else {
        NothingDrawn(c, s);
      }
    }
  }

  /** The source is still open, nothing is outstanding, and the consumer waits. */
  lemma NothingDrawn(c: Config, s: State)
    requires Inv(c, s) && s.consumer.Waiting? && s.end.None? && s.index == Issued(s) && !c.source(s.index).NoneJob?
    ensures exists d :: DriverCan(s, d)
  {
    if h :| 0 <= h < |s.drivers| && Holding(s.drivers[h]) {
      assert CarriesWell(c, s, h, s.drivers[h]);
      if s.drivers[h].Lock? && s.lock.Some? {
        assert InDraw(s.drivers[s.lock.value]);
        assert DriverCan(s, s.lock.value);
      } else {
        assert DriverCan(s, h);
      }
    } else {
      CountZero(s.drivers, Holding);
      assert s.results == map[];
      SomeoneAlive(c, s);
      var d :| 0 <= d < |s.drivers| && !s.drivers[d].Exited?;
      assert DriverCan(s, d);
    }
  }
}
