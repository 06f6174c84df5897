/** What every step of the pool keeps. */
module PoolInvariant {
  import opened Wrappers
  import opened ProcessPool

  // ---- counting driver threads --------------------------------------------

  function B(b: bool): nat { if b then 1 else 0 }

  function Count(pcs: seq<Pc>, p: Pc -> bool): nat {
    if pcs == [] then 0 else Count(pcs[..|pcs| - 1], p) + B(p(pcs[|pcs| - 1]))
  }

  lemma {:induction false} CountUpdate(pcs: seq<Pc>, d: nat, pc: Pc, p: Pc -> bool)
    requires d < |pcs|
    ensures Count(pcs[d := pc], p) + B(p(pcs[d])) == Count(pcs, p) + B(p(pc))
  {
    var last := |pcs| - 1;
    if d == last {
      assert pcs[d := pc][..last] == pcs[..last];
    } else {
      assert pcs[d := pc][..last] == pcs[..last][d := pc];
      CountUpdate(pcs[..last], d, pc, p);
    }
  }

  lemma {:induction false} CountZero(pcs: seq<Pc>, p: Pc -> bool)
    ensures Count(pcs, p) == 0 <==> forall d | 0 <= d < |pcs| :: !p(pcs[d])
  {
    if pcs != [] {
      CountZero(pcs[..|pcs| - 1], p);
    }
  }

  // ---- the invariant --------------------------------------------------------

  /** The driver has the job, or the exception, of index `i` in hand. */
  predicate Carries(pc: Pc, i: nat) {
    match pc
    case Running(j, _) => i == j
    case Post(j, _) => i == j
    case PostRaise(j, _) => i == j
    case _ => false
  }

  predicate Carrying(pc: Pc) { pc.Running? || pc.Post? || pc.PostRaise? }

  /** The driver holds a slot. */
  predicate Holding(pc: Pc) { !pc.Acquire? && !pc.Notify? && !pc.Exited? }

  /** The driver holds a slot and found neither `end` nor `stop` set when it had the draw lock. */
  predicate Admitted(pc: Pc) { Holding(pc) && !pc.Lock? }

  predicate PopsLast(ending: Ending) { ending.SourceRaised? || ending.WorkerError? }

  /** The entry of `index` itself was popped. */
  predicate PoppedIndex(consumer: Consumer) {
    match consumer
    case Popped(_) => true
    case Deliver(_) => true
    case Finally(ending) => PopsLast(ending)
    case Releasing(_, ending) => PopsLast(ending)
    case Finished(ending) => PopsLast(ending)
    case _ => false
  }

  /** How many indices were given out: the jobs drawn, and the index of the source's exception. */
  function Issued(s: State): nat { if s.end == Some(s.next + 1) then s.next + 1 else s.next }

  /** The entry is one the sequential map could have produced for index `i`. */
  ghost predicate Fits(c: Config, i: nat, entry: Entry) {
    match entry
    case Raise(exc) => c.source(i) == Raised(exc)
    case Done(outcome) => c.source(i).Job? && c.answer(i, c.source(i).job) == outcome
  }

  ghost predicate InvShape(c: Config, s: State) {
    && c.Valid()
    && |s.drivers| == c.workers
    && (s.stop <==> s.consumer.Releasing? || s.consumer.Finished?)
    && (s.consumer.Releasing? ==> s.extra + s.consumer.left == c.workers)
    && (s.consumer.Finished? ==> s.extra == c.workers)
    && (!s.consumer.Releasing? && !s.consumer.Finished? ==> s.extra == 0)
  }

  ghost predicate InvSource(c: Config, s: State) {
    && (forall i | 0 <= i < s.next :: c.source(i).Job? || c.source(i).NoneJob?)
    && (s.end.Some? ==>
          || (s.end.value == s.next && c.source(s.next).StopIteration?)
          || (s.end.value == s.next + 1 && c.source(s.next).Raised?))
  }

  predicate InDraw(pc: Pc) { pc.Drawing? || pc.PostRaise? }

  ghost predicate InvLock(s: State) {
    && (s.lock.Some? ==> s.lock.value < |s.drivers|)
    && (forall d | 0 <= d < |s.drivers| :: InDraw(s.drivers[d]) <==> s.lock == Some(d))
    && (forall d | 0 <= d < |s.drivers| :: s.drivers[d].Drawing? ==> s.end.None?)
  }

  /** Driver `d`, carrying an index, is the one that drew it, and the index was neither popped nor posted. */
  ghost predicate CarriesWell(c: Config, s: State, d: nat, pc: Pc) {
    match pc
    case Running(i, job) =>
      s.popped <= i < s.next && i !in s.posted && i in s.drawer && s.drawer[i] == d && c.source(i) == Job(job)
    case Post(i, outcome) =>
      s.popped <= i < s.next && i !in s.posted && i in s.drawer && s.drawer[i] == d && Fits(c, i, Done(outcome))
    case PostRaise(i, exc) =>
      s.popped <= i == s.next && i !in s.posted && i in s.drawer && s.drawer[i] == d &&
      s.end == Some(i + 1) && Fits(c, i, Raise(exc))
    case _ => true
  }

  ghost predicate InvCarry(c: Config, s: State) {
    forall d | 0 <= d < |s.drivers| :: CarriesWell(c, s, d, s.drivers[d])
  }

  /** An index given out and not yet posted is in the hands of the driver that drew it. */
  ghost predicate Carried(s: State, i: nat) {
    i in s.drawer && s.drawer[i] < |s.drivers| && Carries(s.drivers[s.drawer[i]], i)
  }

  ghost predicate InvResults(c: Config, s: State) {
    && s.popped <= Issued(s)
    && (forall i | i in s.results :: i in s.posted && s.results[i] == s.posted[i])
    && (forall i | i in s.posted :: i < Issued(s) && Fits(c, i, s.posted[i]))
    && (forall i | i in s.posted :: i in s.results <==> s.popped <= i)
    && (forall i: nat | i < s.popped :: i in s.posted)
    && (forall i: nat | s.popped <= i < Issued(s) ::
          i in s.posted || c.source(i).NoneJob? || Carried(s, i))
  }

  ghost predicate EndsWell(c: Config, s: State, ending: Ending) {
    match ending
    case Returned => c.source(s.index) == StopIteration
    case SourceRaised(exc) => s.index in s.posted && s.posted[s.index] == Raise(exc)
    case WorkerError(m) => s.index in s.posted && s.posted[s.index] == Done(Failure(m))
    case NoWorkerLeft => c.source(s.index).NoneJob?
    case Closed => true
  }

  ghost predicate InvConsumer(c: Config, s: State) {
    && s.index == |s.yielded|
    && s.popped == s.index + B(PoppedIndex(s.consumer))
    && (forall i | 0 <= i < s.index ::
          i in s.posted && s.posted[i] == Done(Value(s.yielded[i])))
    && (match s.consumer
        case CheckEnd => s.index !in s.results
        case CheckAlive => s.index !in s.results
        case Popped(entry) => s.index in s.posted && s.posted[s.index] == entry
        case Deliver(entry) => s.index in s.posted && s.posted[s.index] == entry
        case Finally(ending) => EndsWell(c, s, ending)
        case Releasing(_, ending) => EndsWell(c, s, ending)
        case Finished(ending) => EndsWell(c, s, ending)
        case _ => true)
  }

  predicate Leaving(pc: Pc) { pc.ReleaseSlot? || pc.Notify? }

  /** The driver that set `end` after the consumer looked cannot return while the consumer holds the condition. */
  ghost predicate InvAlive(s: State) {
    s.consumer.CheckAlive? && s.end.Some? && s.index >= s.end.value ==>
      exists d :: 0 <= d < |s.drivers| && Leaving(s.drivers[d])
  }

  ghost predicate InvSlots(c: Config, s: State) {
    && s.slots + Count(s.drivers, Holding) + |s.results| + B(s.consumer.Popped?) == c.Window() + s.extra
    && Count(s.drivers, Admitted) + |s.results| + B(s.consumer.Popped?) <= c.Window()
  }

  /** How many of the first `n` draws are None jobs. */
  function NonesBelow(c: Config, n: nat): nat {
    if n == 0 then 0 else NonesBelow(c, n - 1) + B(c.source(n - 1).NoneJob?)
  }

  ghost predicate InvFlight(c: Config, s: State) {
    Issued(s) == s.popped + |s.results| + Count(s.drivers, Carrying) + NonesBelow(c, s.next)
  }

  /** Why a driver may have returned. */
  ghost predicate ExitCause(c: Config, s: State) {
    || s.end.Some? || s.stop
    || (exists i :: i in s.posted && s.posted[i].Done? && s.posted[i].outcome.Failure?)
    || (exists i :: 0 <= i < s.next && c.source(i).NoneJob?)
  }

  ghost predicate InvExit(c: Config, s: State) {
    && ((exists d :: 0 <= d < |s.drivers| && s.drivers[d].Exited?) ==> ExitCause(c, s))
    && ((exists d :: 0 <= d < |s.drivers| && Leaving(s.drivers[d])) ==>
          s.end.Some? || exists i :: 0 <= i < s.next && c.source(i).NoneJob?)
  }

  ghost predicate Inv(c: Config, s: State) {
    && InvShape(c, s) && InvSource(c, s) && InvLock(s) && InvCarry(c, s) && InvResults(c, s)
    && InvConsumer(c, s) && InvAlive(s) && InvSlots(c, s) && InvFlight(c, s) && InvExit(c, s)
  }

  // ---- Init -----------------------------------------------------------------

  lemma InitInv(c: Config)
    requires c.Valid()
    ensures Inv(c, Init(c))
  {
    CountZero(Init(c).drivers, Holding);
    CountZero(Init(c).drivers, Admitted);
    CountZero(Init(c).drivers, Carrying);
  }

  // ---- driver steps ---------------------------------------------------------

  lemma DriverShape(c: Config, s: State, d: nat)
    requires DriverCan(s, d) && InvShape(c, s)
    ensures InvShape(c, DriverDo(c, s, d))
  {
    if s.drivers[d].Drawing? {
      DrawShape(c, s, d, c.source(s.next));
    }
  }

  lemma DrawShape(c: Config, s: State, d: nat, draw: Draw)
    requires d < |s.drivers| && InvShape(c, s)
    ensures InvShape(c, DrawDo(s, d, draw))
  {}

  lemma DriverSource(c: Config, s: State, d: nat)
    requires DriverCan(s, d) && InvSource(c, s) && InvLock(s)
    ensures InvSource(c, DriverDo(c, s, d))
  {}

  predicate Posting(pc: Pc) { pc.Post? || pc.PostRaise? }

  lemma DriverLock(c: Config, s: State, d: nat)
    requires DriverCan(s, d) && InvLock(s)
    ensures InvLock(DriverDo(c, s, d))
  {
    match s.drivers[d]
    case Drawing => DrawLock(c, s, d, c.source(s.next));
    case Lock => DriverLockLock(c, s, d);
    case PostRaise(_, _) => DriverLockRaise(c, s, d);
    case _ => DriverLockOther(c, s, d);
  }

  lemma DriverLockLock(c: Config, s: State, d: nat)
    requires DriverCan(s, d) && s.drivers[d].Lock? && InvLock(s)
    ensures InvLock(DriverDo(c, s, d))
  {}

  lemma DriverLockRaise(c: Config, s: State, d: nat)
    requires DriverCan(s, d) && s.drivers[d].PostRaise? && InvLock(s)
    ensures InvLock(DriverDo(c, s, d))
  {}

  lemma DrawLock(c: Config, s: State, d: nat, draw: Draw)
    requires d < |s.drivers| && s.drivers[d].Drawing? && draw == c.source(s.next) && InvLock(s)
    ensures InvLock(DrawDo(s, d, draw))
  {}

  lemma DriverLockOther(c: Config, s: State, d: nat)
    requires DriverCan(s, d) && !InDraw(s.drivers[d]) && !s.drivers[d].Lock? && InvLock(s)
    ensures InvLock(DriverDo(c, s, d))
  {
    AwayFromLock(c, s, d);
    KeepsLock(s, DriverDo(c, s, d), d);
  }

  /** Away from the draw lock a driver changes neither the lock nor the other drivers. */
  lemma AwayFromLock(c: Config, s: State, d: nat)
    requires DriverCan(s, d) && !InDraw(s.drivers[d]) && !s.drivers[d].Lock?
    ensures var t := DriverDo(c, s, d);
      t.lock == s.lock && t.end == s.end && |t.drivers| == |s.drivers| && !InDraw(t.drivers[d]) &&
      forall e | 0 <= e < |s.drivers| && e != d :: t.drivers[e] == s.drivers[e]
  {
    if s.drivers[d].Post? {
      PostFrame(c, s, d);
    }
  }

  lemma PostFrame(c: Config, s: State, d: nat)
    requires DriverCan(s, d) && s.drivers[d].Post?
    ensures var t := DriverDo(c, s, d);
      t.lock == s.lock && t.end == s.end && |t.drivers| == |s.drivers| && !InDraw(t.drivers[d]) &&
      forall e | 0 <= e < |s.drivers| && e != d :: t.drivers[e] == s.drivers[e]
  {}

  lemma KeepsLock(s: State, t: State, d: nat)
    requires InvLock(s) && d < |s.drivers| == |t.drivers| && t.lock == s.lock && t.end == s.end
    requires !InDraw(s.drivers[d]) && !InDraw(t.drivers[d])
    requires forall e | 0 <= e < |s.drivers| && e != d :: t.drivers[e] == s.drivers[e]
    ensures InvLock(t)
  {}

  lemma DriverCarryQuiet(c: Config, s: State, d: nat)
    requires DriverCan(s, d) && !s.drivers[d].Drawing? && !Posting(s.drivers[d]) && InvCarry(c, s)
    ensures InvCarry(c, DriverDo(c, s, d))
  {}

  lemma DrawCarry(c: Config, s: State, d: nat, draw: Draw)
    requires d < |s.drivers| && s.drivers[d].Drawing? && draw == c.source(s.next) && s.end.None?
    requires InvCarry(c, s) && InvResults(c, s)
    ensures InvCarry(c, DrawDo(s, d, draw))
  {}

  lemma DriverCarryPost(c: Config, s: State, d: nat)
    requires DriverCan(s, d) && Posting(s.drivers[d]) && InvCarry(c, s)
    ensures InvCarry(c, DriverDo(c, s, d))
  {}

  lemma DriverResultsQuiet(c: Config, s: State, d: nat)
    requires DriverCan(s, d) && !s.drivers[d].Drawing? && !Posting(s.drivers[d]) && InvResults(c, s)
    ensures InvResults(c, DriverDo(c, s, d))
  {
    DriverFrame(c, s, d);
    var t := DriverDo(c, s, d);
    forall i: nat | t.popped <= i < Issued(t)
      ensures i in t.posted || c.source(i).NoneJob? || Carried(t, i)
    {
      assert i < Issued(s) ==> i in s.posted || c.source(i).NoneJob? || Carried(s, i);
    }
  }

  lemma DrawResults(c: Config, s: State, d: nat, draw: Draw)
    requires d < |s.drivers| && s.drivers[d].Drawing? && draw == c.source(s.next) && s.end.None? && InvResults(c, s)
    ensures InvResults(c, DrawDo(s, d, draw))
  {
    var t := DrawDo(s, d, draw);
    forall i: nat | t.popped <= i < Issued(t)
      ensures i in t.posted || c.source(i).NoneJob? || Carried(t, i)
    {
      assert i < Issued(s) ==> i in s.posted || c.source(i).NoneJob? || Carried(s, i);
    }
  }

  lemma DriverResultsPost(c: Config, s: State, d: nat)
    requires DriverCan(s, d) && Posting(s.drivers[d]) && InvCarry(c, s) && InvResults(c, s)
    ensures InvResults(c, DriverDo(c, s, d))
  {
    var t := DriverDo(c, s, d);
    forall i: nat | t.popped <= i < Issued(t)
      ensures i in t.posted || c.source(i).NoneJob? || Carried(t, i)
    {
      assert i < Issued(s) ==> i in s.posted || c.source(i).NoneJob? || Carried(s, i);
    }
  }

  /** A step of a driver that neither draws nor posts leaves the tables as they were. */
  ghost predicate SameButDrivers(s: State, t: State) {
    && t.next == s.next && t.end == s.end && t.results == s.results && t.posted == s.posted
    && t.drawer == s.drawer && t.popped == s.popped && t.stop == s.stop
    && t.consumer == s.consumer && t.index == s.index && t.yielded == s.yielded && t.extra == s.extra
  }

  lemma DriverFrame(c: Config, s: State, d: nat)
    requires DriverCan(s, d) && !s.drivers[d].Drawing? && !Posting(s.drivers[d])
    ensures SameButDrivers(s, DriverDo(c, s, d))
  {}

  lemma FrameConsumer(c: Config, s: State, t: State)
    requires SameButDrivers(s, t) && InvConsumer(c, s)
    ensures InvConsumer(c, t)
  {}

  lemma DrawConsumer(c: Config, s: State, d: nat, draw: Draw)
    requires d < |s.drivers| && s.drivers[d].Drawing? && InvConsumer(c, s)
    ensures InvConsumer(c, DrawDo(s, d, draw))
  {}

  lemma DriverConsumerPost(c: Config, s: State, d: nat)
    requires DriverCan(s, d) && Posting(s.drivers[d]) && InvConsumer(c, s) && InvCarry(c, s)
    ensures InvConsumer(c, DriverDo(c, s, d))
  {}

  lemma DrawAlive(c: Config, s: State, d: nat, draw: Draw)
    requires d < |s.drivers| && s.drivers[d].Drawing? && draw == c.source(s.next) && s.end.None?
    requires s.consumer.CheckAlive? ==> s.index <= s.next
    ensures InvAlive(DrawDo(s, d, draw))
  {
    var t := DrawDo(s, d, draw);
    if t.consumer.CheckAlive? && t.end.Some? && t.index >= t.end.value {
      assert Leaving(t.drivers[d]);
    }
  }

  lemma DriverAlive(c: Config, s: State, d: nat)
    requires DriverCan(s, d) && !s.drivers[d].Drawing? && InvAlive(s)
    ensures InvAlive(DriverDo(c, s, d))
  {
    var t := DriverDo(c, s, d);
    assert s.consumer.CheckAlive? && Leaving(s.drivers[d]) ==> Leaving(t.drivers[d]);
    assert forall e | 0 <= e < |s.drivers| && e != d :: t.drivers[e] == s.drivers[e];
  }

  lemma DriverCounts(c: Config, s: State, d: nat, pc: Pc)
    requires d < |s.drivers|
    ensures var ds := s.drivers[d := pc];
      && Count(ds, Holding) + B(Holding(s.drivers[d])) == Count(s.drivers, Holding) + B(Holding(pc))
      && Count(ds, Admitted) + B(Admitted(s.drivers[d])) == Count(s.drivers, Admitted) + B(Admitted(pc))
      && Count(ds, Carrying) + B(Carrying(s.drivers[d])) == Count(s.drivers, Carrying) + B(Carrying(pc))
  {
    CountUpdate(s.drivers, d, pc, Holding);
    CountUpdate(s.drivers, d, pc, Admitted);
    CountUpdate(s.drivers, d, pc, Carrying);
  }

  lemma {:induction false} AdmittedHold(pcs: seq<Pc>)
    ensures Count(pcs, Admitted) <= Count(pcs, Holding)
  {
    if pcs != [] {
      AdmittedHold(pcs[..|pcs| - 1]);
    }
  }

  lemma DrawCounts(c: Config, s: State, d: nat, draw: Draw)
    requires d < |s.drivers| && s.drivers[d].Drawing? && draw == c.source(s.next)
    requires s.end.None? && InvSlots(c, s) && InvFlight(c, s)
    ensures var t := DrawDo(s, d, draw); InvSlots(c, t) && InvFlight(c, t)
  {
    hide InvSlots, InvFlight;
    DrawSlots(c, s, d, draw);
    DrawFlight(c, s, d, draw);
  }

  lemma DrawFlight(c: Config, s: State, d: nat, draw: Draw)
    requires d < |s.drivers| && s.drivers[d].Drawing? && draw == c.source(s.next) && s.end.None? && InvFlight(c, s)
    ensures InvFlight(c, DrawDo(s, d, draw))
  {
    CountUpdate(s.drivers, d, DrawDo(s, d, draw).drivers[d], Carrying);
  }

  lemma DrawSlots(c: Config, s: State, d: nat, draw: Draw)
    requires d < |s.drivers| && s.drivers[d].Drawing? && InvSlots(c, s)
    ensures InvSlots(c, DrawDo(s, d, draw))
  {
    DriverCounts(c, s, d, DrawDo(s, d, draw).drivers[d]);
  }

  lemma DriverSlotsLock(c: Config, s: State, d: nat)
    requires DriverCan(s, d) && s.drivers[d].Lock? && InvSlots(c, s) && InvShape(c, s)
    ensures InvSlots(c, DriverDo(c, s, d))
  {
    var t := DriverDo(c, s, d);
    DriverCounts(c, s, d, t.drivers[d]);
    AdmittedHold(t.drivers);
  }

  lemma DriverSlotsQuiet(c: Config, s: State, d: nat)
    requires DriverCan(s, d) && !s.drivers[d].Drawing? && !s.drivers[d].Lock? && !Posting(s.drivers[d])
    requires InvSlots(c, s)
    ensures InvSlots(c, DriverDo(c, s, d))
  {
    var t := DriverDo(c, s, d);
    DriverCounts(c, s, d, t.drivers[d]);
  }

  lemma DriverSlotsPost(c: Config, s: State, d: nat)
    requires DriverCan(s, d) && Posting(s.drivers[d]) && InvSlots(c, s) && InvShape(c, s)
    requires s.drivers[d].index !in s.results
    ensures InvSlots(c, DriverDo(c, s, d))
  {
    var t := DriverDo(c, s, d);
    DriverCounts(c, s, d, t.drivers[d]);
  }

  lemma DriverFlightQuiet(c: Config, s: State, d: nat)
    requires DriverCan(s, d) && !s.drivers[d].Drawing? && !Posting(s.drivers[d]) && InvFlight(c, s)
    ensures InvFlight(c, DriverDo(c, s, d))
  {
    DriverFrame(c, s, d);
    CountUpdate(s.drivers, d, DriverDo(c, s, d).drivers[d], Carrying);
  }

  lemma DriverFlightPost(c: Config, s: State, d: nat)
    requires DriverCan(s, d) && Posting(s.drivers[d]) && InvFlight(c, s)
    requires s.drivers[d].index !in s.results
    ensures InvFlight(c, DriverDo(c, s, d))
  {
    if s.drivers[d].Post? {
      PostCounts(c, s, d);
    } else {
      RaiseCounts(c, s, d);
    }
    OneMoreResult(c, s, DriverDo(c, s, d));
  }

  /** A carried index becomes an entry. */
  predicate HandsOver(s: State, t: State) {
    && t.next == s.next && t.end == s.end && t.popped == s.popped && |t.results| == |s.results| + 1
    && Count(t.drivers, Carrying) + 1 == Count(s.drivers, Carrying)
  }

  lemma PostCounts(c: Config, s: State, d: nat)
    requires DriverCan(s, d) && s.drivers[d].Post? && s.drivers[d].index !in s.results
    ensures HandsOver(s, DriverDo(c, s, d))
  {
    CountUpdate(s.drivers, d, DriverDo(c, s, d).drivers[d], Carrying);
  }

  lemma RaiseCounts(c: Config, s: State, d: nat)
    requires DriverCan(s, d) && s.drivers[d].PostRaise? && s.drivers[d].index !in s.results
    ensures HandsOver(s, DriverDo(c, s, d))
  {
    CountUpdate(s.drivers, d, DriverDo(c, s, d).drivers[d], Carrying);
  }

  lemma OneMoreResult(c: Config, s: State, t: State)
    requires InvFlight(c, s) && HandsOver(s, t)
    ensures InvFlight(c, t)
  {}

  lemma ExitCauseKept(c: Config, s: State, t: State)
    requires ExitCause(c, s) && (s.end.Some? ==> t.end.Some?) && t.stop == s.stop && s.next <= t.next
    requires forall i | i in s.posted :: i in t.posted && t.posted[i] == s.posted[i]
    ensures ExitCause(c, t)
  {}

  lemma DriverExitPost(c: Config, s: State, d: nat)
    requires DriverCan(s, d) && Posting(s.drivers[d]) && InvExit(c, s) && InvCarry(c, s)
    ensures InvExit(c, DriverDo(c, s, d))
  {
    var t := DriverDo(c, s, d);
    if ExitCause(c, s) {
      ExitCauseKept(c, s, t);
    }
    assert t.posted[s.drivers[d].index] in t.posted.Values;
  }

  lemma DrawExit(c: Config, s: State, d: nat, draw: Draw)
    requires d < |s.drivers| && s.drivers[d].Drawing? && draw == c.source(s.next) && InvExit(c, s)
    ensures InvExit(c, DrawDo(s, d, draw))
  {
    if ExitCause(c, s) {
      ExitCauseKept(c, s, DrawDo(s, d, draw));
    }
  }

  lemma DriverExitQuiet(c: Config, s: State, d: nat)
    requires DriverCan(s, d) && !s.drivers[d].Drawing? && !Posting(s.drivers[d]) && InvExit(c, s)
    ensures InvExit(c, DriverDo(c, s, d))
  {
    if ExitCause(c, s) {
      ExitCauseKept(c, s, DriverDo(c, s, d));
    }
  }

  lemma DriverInv(c: Config, s: State, d: nat)
    requires Inv(c, s) && DriverCan(s, d)
    ensures Inv(c, DriverDo(c, s, d))
  {
    DriverShape(c, s, d);
    DriverSource(c, s, d);
    DriverLock(c, s, d);
    if s.drivers[d].Drawing? {
      DrawCounts(c, s, d, c.source(s.next));
      DrawExit(c, s, d, c.source(s.next));
      DrawCarry(c, s, d, c.source(s.next));
      DrawResults(c, s, d, c.source(s.next));
      DrawConsumer(c, s, d, c.source(s.next));
      DrawAlive(c, s, d, c.source(s.next));
    } else if Posting(s.drivers[d]) {
      DriverCarryPost(c, s, d);
      DriverResultsPost(c, s, d);
      DriverConsumerPost(c, s, d);
      DriverAlive(c, s, d);
      DriverSlotsPost(c, s, d);
      DriverFlightPost(c, s, d);
      DriverExitPost(c, s, d);
    } else {
      DriverCarryQuiet(c, s, d);
      DriverResultsQuiet(c, s, d);
      DriverFrame(c, s, d);
      FrameConsumer(c, s, DriverDo(c, s, d));
      DriverAlive(c, s, d);
      if s.drivers[d].Lock? { DriverSlotsLock(c, s, d); } else { DriverSlotsQuiet(c, s, d); }
      DriverFlightQuiet(c, s, d);
      DriverExitQuiet(c, s, d);
    }
  }

  // ---- consumer steps -------------------------------------------------------

  /** Everything but the consumer's own progress and the slots is as it was. */
  ghost predicate SameTables(s: State, t: State) {
    && t.next == s.next && t.end == s.end && t.results == s.results && t.posted == s.posted
    && t.drivers == s.drivers && t.lock == s.lock && t.drawer == s.drawer && t.popped == s.popped
  }

  lemma ConsumerFrame(c: Config, s: State, close: bool)
    requires ConsumerCan(s) && !s.consumer.Check?
    ensures SameTables(s, ConsumerDo(c, s, close)) && (s.stop ==> ConsumerDo(c, s, close).stop)
  {
    if s.consumer.Deliver? {
      DeliverFrame(c, s, close);
    } else if s.consumer.CheckEnd? || s.consumer.CheckAlive? {
      LookFrame(c, s, close);
    } else {
      OtherFrame(c, s, close);
    }
  }

  lemma DeliverFrame(c: Config, s: State, close: bool)
    requires s.consumer.Deliver?
    ensures SameTables(s, ConsumerDo(c, s, close)) && (s.stop ==> ConsumerDo(c, s, close).stop)
  {}

  lemma LookFrame(c: Config, s: State, close: bool)
    requires s.consumer.CheckEnd? || s.consumer.CheckAlive?
    ensures SameTables(s, ConsumerDo(c, s, close)) && (s.stop ==> ConsumerDo(c, s, close).stop)
  {}

  lemma OtherFrame(c: Config, s: State, close: bool)
    requires ConsumerCan(s) && !s.consumer.Check? && !s.consumer.Deliver?
    requires !s.consumer.CheckEnd? && !s.consumer.CheckAlive?
    ensures SameTables(s, ConsumerDo(c, s, close)) && (s.stop ==> ConsumerDo(c, s, close).stop)
  {}

  lemma FrameSource(c: Config, s: State, t: State)
    requires SameTables(s, t) && InvSource(c, s) && InvLock(s) && InvFlight(c, s)
    ensures InvSource(c, t) && InvLock(t) && InvFlight(c, t)
  {}

  lemma FrameResults(c: Config, s: State, t: State)
    requires SameTables(s, t) && InvResults(c, s)
    ensures InvResults(c, t)
  {
    forall i: nat | t.popped <= i < Issued(t)
      ensures i in t.posted || c.source(i).NoneJob? || Carried(t, i)
    {
      assert i in s.posted || c.source(i).NoneJob? || Carried(s, i);
    }
  }

  lemma FrameCarry(c: Config, s: State, t: State)
    requires SameTables(s, t) && InvCarry(c, s)
    ensures InvCarry(c, t)
  {
    forall d | 0 <= d < |t.drivers| ensures CarriesWell(c, t, d, t.drivers[d]) {
      assert CarriesWell(c, s, d, s.drivers[d]);
    }
  }

  lemma FrameExit(c: Config, s: State, t: State)
    requires SameTables(s, t) && InvExit(c, s) && (s.stop ==> t.stop)
    ensures InvExit(c, t)
  {}

  lemma ConsumerShape(c: Config, s: State, close: bool)
    requires ConsumerCan(s) && InvShape(c, s)
    ensures InvShape(c, ConsumerDo(c, s, close))
  {}

  lemma ConsumerSlots(c: Config, s: State, close: bool)
    requires ConsumerCan(s) && InvSlots(c, s)
    ensures InvSlots(c, ConsumerDo(c, s, close))
  {
    if s.consumer.Check? {
      CheckSlots(c, s, close);
    } else if s.consumer.Popped? || s.consumer.Releasing? {
      ReleaseSlots(c, s, close);
    } else {
      ConsumerSlotsQuiet(c, s, close);
    }
  }

  lemma CheckSlots(c: Config, s: State, close: bool)
    requires s.consumer.Check? && InvSlots(c, s)
    ensures InvSlots(c, ConsumerDo(c, s, close))
  {}

  lemma ReleaseSlots(c: Config, s: State, close: bool)
    requires (s.consumer.Popped? || s.consumer.Releasing?) && InvSlots(c, s)
    ensures InvSlots(c, ConsumerDo(c, s, close))
  {}

  lemma ConsumerSlotsQuiet(c: Config, s: State, close: bool)
    requires ConsumerCan(s) && !s.consumer.Check? && !s.consumer.Popped? && !s.consumer.Releasing?
    requires InvSlots(c, s)
    ensures InvSlots(c, ConsumerDo(c, s, close))
  {
    ConsumerFrame(c, s, close);
  }

  lemma CheckSource(c: Config, s: State, close: bool)
    requires s.consumer.Check? && InvSource(c, s) && InvLock(s) && InvExit(c, s)
    ensures var t := ConsumerDo(c, s, close); InvSource(c, t) && InvLock(t) && InvExit(c, t)
  {}

  lemma CheckResults(c: Config, s: State, close: bool)
    requires s.consumer.Check? && InvResults(c, s) && InvConsumer(c, s)
    ensures InvResults(c, ConsumerDo(c, s, close))
  {
    CheckTakes(c, s, close);
    TakenResults(c, s, ConsumerDo(c, s, close));
  }

  /** A look at the results takes the entry of the next index, or nothing. */
  ghost predicate Takes(s: State, t: State) {
    && t.posted == s.posted && t.next == s.next && t.end == s.end && t.drawer == s.drawer && t.drivers == s.drivers
    && if s.index in s.results then t.results == s.results - {s.index} && t.popped == s.popped + 1
       else t.results == s.results && t.popped == s.popped
  }

  lemma CheckTakes(c: Config, s: State, close: bool)
    requires s.consumer.Check?
    ensures Takes(s, ConsumerDo(c, s, close))
  {}

  lemma TakenResults(c: Config, s: State, t: State)
    requires s.consumer.Check? && InvResults(c, s) && InvConsumer(c, s) && Takes(s, t)
    ensures InvResults(c, t)
  {
    forall i: nat | t.popped <= i < Issued(t)
      ensures i in t.posted || c.source(i).NoneJob? || Carried(t, i)
    {
      assert i in s.posted || c.source(i).NoneJob? || Carried(s, i);
    }
  }

  lemma CheckFlight(c: Config, s: State, close: bool)
    requires s.consumer.Check? && InvFlight(c, s)
    ensures InvFlight(c, ConsumerDo(c, s, close))
  {}

  lemma CheckConsumer(c: Config, s: State, close: bool)
    requires s.consumer.Check? && InvResults(c, s) && InvConsumer(c, s)
    ensures InvConsumer(c, ConsumerDo(c, s, close))
  {}

  lemma CheckCarry(c: Config, s: State, close: bool)
    requires s.consumer.Check? && InvCarry(c, s) && InvResults(c, s) && InvConsumer(c, s)
    ensures InvCarry(c, ConsumerDo(c, s, close))
  {
    var t := ConsumerDo(c, s, close);
    forall d | 0 <= d < |t.drivers| ensures CarriesWell(c, t, d, t.drivers[d]) {
      assert CarriesWell(c, s, d, s.drivers[d]);
    }
  }

  /** The consumer's index never passes the exception of the source. */
  lemma NotPastRaise(c: Config, s: State)
    requires InvSource(c, s) && InvResults(c, s) && InvConsumer(c, s) && !PoppedIndex(s.consumer)
    ensures s.index <= s.next
  {
    assert s.index > s.next ==> s.next in s.posted && Fits(c, s.next, s.posted[s.next]);
  }

  lemma CheckEndConsumer(c: Config, s: State, close: bool)
    requires s.consumer.CheckEnd? && InvSource(c, s) && InvResults(c, s) && InvConsumer(c, s)
    ensures InvConsumer(c, ConsumerDo(c, s, close))
  {
    NotPastRaise(c, s);
  }

  /** Everything drawn was yielded and the source is open: no driver had a reason to return. */
  lemma NoExitCause(c: Config, s: State)
    requires InvResults(c, s) && InvConsumer(c, s) && !s.stop && s.end.None?
    requires !PoppedIndex(s.consumer) && s.index == s.next
    ensures !ExitCause(c, s)
  {
    forall i | i in s.posted ensures s.posted[i].Done? && s.posted[i].outcome.Value? {
      assert i < s.index;
    }
    forall i | 0 <= i < s.next ensures !c.source(i).NoneJob? {
      assert Fits(c, i, s.posted[i]);
    }
  }

  /** Unless the entry the consumer waits for is there, or the input is over, or the job is None,
      some driver is alive. */
  lemma SomeoneAlive(c: Config, s: State)
    requires Inv(c, s) && !PoppedIndex(s.consumer) && !s.stop && s.index !in s.results
    requires !c.source(s.index).NoneJob?
    requires s.end.Some? && s.index >= s.end.value ==>
      exists d :: 0 <= d < |s.drivers| && Leaving(s.drivers[d])
    ensures exists d :: 0 <= d < |s.drivers| && !s.drivers[d].Exited?
  {
    NotPastRaise(c, s);
    if s.index < Issued(s) {
      assert Carried(s, s.index);
      assert !s.drivers[s.drawer[s.index]].Exited?;
    } else if s.end.None? {
      NoExitCause(c, s);
      assert !s.drivers[0].Exited?;
    }
  }

  lemma CheckAliveConsumer(c: Config, s: State, close: bool)
    requires s.consumer.CheckAlive? && Inv(c, s)
    ensures InvConsumer(c, ConsumerDo(c, s, close))
  {
    if !c.source(s.index).NoneJob? {
      SomeoneAlive(c, s);
    }
  }

  lemma DeliverConsumer(c: Config, s: State, close: bool)
    requires s.consumer.Deliver? && InvConsumer(c, s)
    ensures InvConsumer(c, ConsumerDo(c, s, close))
  {}

  lemma QuietConsumer(c: Config, s: State, close: bool)
    requires s.consumer.Enter? || s.consumer.Waiting? || s.consumer.Popped? || s.consumer.Suspended?
    requires InvConsumer(c, s)
    ensures InvConsumer(c, ConsumerDo(c, s, close))
  {}

  lemma FinallyConsumer(c: Config, s: State, close: bool)
    requires s.consumer.Finally? || s.consumer.Releasing?
    requires InvConsumer(c, s)
    ensures InvConsumer(c, ConsumerDo(c, s, close))
  {}

  lemma ConsumerAlive(c: Config, s: State, close: bool)
    requires ConsumerCan(s) && InvAlive(s)
    ensures InvAlive(ConsumerDo(c, s, close))
  {}

  lemma ConsumerInv(c: Config, s: State, close: bool)
    requires Inv(c, s) && ConsumerCan(s)
    ensures Inv(c, ConsumerDo(c, s, close))
  {
    var t := ConsumerDo(c, s, close);
    ConsumerShape(c, s, close);
    ConsumerSlots(c, s, close);
    ConsumerAlive(c, s, close);
    if s.consumer.Check? {
      CheckSource(c, s, close);
      CheckCarry(c, s, close);
      CheckResults(c, s, close);
      CheckFlight(c, s, close);
      CheckConsumer(c, s, close);
    } else {
      ConsumerFrame(c, s, close);
      FrameSource(c, s, t);
      FrameResults(c, s, t);
      FrameCarry(c, s, t);
      FrameExit(c, s, t);
      match s.consumer
      case CheckEnd => CheckEndConsumer(c, s, close);
      case CheckAlive => CheckAliveConsumer(c, s, close);
      case Deliver(_) => DeliverConsumer(c, s, close);
      case Finally(_) => FinallyConsumer(c, s, close);
      case Releasing(_, _) => FinallyConsumer(c, s, close);
      case _ => QuietConsumer(c, s, close);
    }
  }
}
