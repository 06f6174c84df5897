/** The ordered process pool of app/engine/process_pool.py as a step system: P driver
    threads, the consumer that runs the generator `imap`, and an arbitrary scheduler.
    One step is what one thread does between two points where another may run. */
module ProcessPool {
  import opened Wrappers

  // Jobs, job results, exceptions and messages are opaque to the protocol.
  type Value = string

  /** What one call of `next(source)` gives; NoneJob is a job that is Python's None. */
  datatype Draw = Job(job: Value) | NoneJob | StopIteration | Raised(exc: Value)

  /** What a worker answers: the job's value, or a failure (traceback or dead process). */
  datatype Outcome = Value(value: Value) | Failure(message: Value)

  /** An entry of the `results` table. */
  datatype Entry = Done(outcome: Outcome) | Raise(exc: Value)

  /** P workers, the caller's window, the lazily drawn source (its k-th draw), and what the
      worker answers to the job of an index. A failure is a job that raised or a worker that
      died on it, so a for-all over configurations covers every pattern of deaths. */
  datatype Config = Config(workers: nat, requested: Option<int>, source: nat -> Draw, answer: (nat, Value) -> Outcome)
  {
    ghost predicate Valid() { workers >= 1 }

    /** `max(P, window or 2 * P)`: a requested window of 0 counts as none requested. */
    function Window(): (w: nat)
      ensures w >= workers
    {
      var wanted := if requested.Some? && requested.value != 0 then requested.value else 2 * workers;
      if wanted > workers then wanted else workers
    }
  }

  /** Where a driver thread stands in `drive`. */
  datatype Pc =
    | Acquire                            // about to take a slot
    | Lock                               // has a slot, about to take the draw lock
    | Drawing                            // holds the draw lock, inside next(source)
    | PostRaise(index: nat, exc: Value)  // holds the draw lock, about to post the source's exception
    | ReleaseSlot                        // drew nothing to run, about to give its slot back
    | Notify                             // about to take the condition, notify and return
    | Running(index: nat, job: Value)    // the worker process has the job
    | Post(index: nat, outcome: Outcome) // about to take the condition and post
    | Exited

  /** How the generator ended. */
  datatype Ending = Returned | SourceRaised(exc: Value) | WorkerError(message: Value) | NoWorkerLeft | Closed

  /** Where the consumer stands in the body of `imap`. */
  datatype Consumer =
    | Enter                                  // about to take the condition
    | Check | CheckEnd | CheckAlive          // holds the condition
    | Waiting                                // inside condition.wait
    | Popped(entry: Entry)                   // popped its entry, slot not yet released
    | Deliver(entry: Entry)                  // slot released, about to raise or yield
    | Suspended                              // at the yield
    | Finally(ending: Ending)
    | Releasing(left: nat, ending: Ending)   // stop is set, `left` extra releases to go
    | Finished(ending: Ending)

  datatype State = State(
    slots: nat, next: nat, end: Option<nat>, stop: bool, results: map<nat, Entry>,
    drivers: seq<Pc>, lock: Option<nat>,   // who holds the draw lock
    consumer: Consumer, index: nat, yielded: seq<Value>,
    posted: map<nat, Entry>,               // history: every entry ever put in `results`
    drawer: map<nat, nat>,                 // history: which driver drew an index
    popped: nat, extra: nat)               // history: entries popped, slots released by `finally`

  /** A scheduler's choice. A consumer suspended at its yield may be closed instead of resumed. */
  datatype Action = DriverStep(driver: nat) | ConsumerStep(close: bool)

  function Init(c: Config): State {
    State(c.Window(), 0, None, false, map[], seq(c.workers, _ => Acquire), None,
          Enter, 0, [], map[], map[], 0, 0)
  }

  predicate ConditionFree(s: State) {
    !s.consumer.Check? && !s.consumer.CheckEnd? && !s.consumer.CheckAlive?
  }

  predicate DriverCan(s: State, d: nat) {
    d < |s.drivers| &&
    match s.drivers[d]
    case Acquire => s.slots > 0
    case Lock => s.lock.None?
    case PostRaise(_, _) => ConditionFree(s)
    case Notify => ConditionFree(s)
    case Post(_, _) => ConditionFree(s)
    case Exited => false
    case _ => true
  }

  function At(s: State, d: nat, pc: Pc): State
    requires d < |s.drivers|
  {
    s.(drivers := s.drivers[d := pc])
  }

  /** Leaving next(source), with the draw lock, having been given `draw`. */
  function DrawDo(s: State, d: nat, draw: Draw): State
    requires d < |s.drivers|
  {
    match draw
    case Job(job) =>
      At(s, d, Running(s.next, job)).(lock := None, next := s.next + 1, drawer := s.drawer[s.next := d])
    case NoneJob => At(s, d, ReleaseSlot).(lock := None, next := s.next + 1, drawer := s.drawer[s.next := d])
    case StopIteration => At(s, d, ReleaseSlot).(lock := None, end := Some(s.next))
    case Raised(exc) =>
      At(s, d, PostRaise(s.next, exc)).(end := Some(s.next + 1), drawer := s.drawer[s.next := d])
  }

  function DriverDo(c: Config, s: State, d: nat): State
    requires DriverCan(s, d)
  {
    match s.drivers[d]
    case Acquire => At(s, d, Lock).(slots := s.slots - 1)
    case Lock =>
      if s.end.Some? || s.stop then At(s, d, Exited).(slots := s.slots + 1)
      else At(s, d, Drawing).(lock := Some(d))
    case Drawing => DrawDo(s, d, c.source(s.next))
    case PostRaise(i, exc) =>
      At(s, d, Exited)
        .(lock := None, results := s.results[i := Raise(exc)], posted := s.posted[i := Raise(exc)])
    case ReleaseSlot => At(s, d, Notify).(slots := s.slots + 1)
    case Notify => At(s, d, Exited)
    case Running(i, job) => At(s, d, Post(i, c.answer(i, job)))
    case Post(i, outcome) =>
      At(s, d, if outcome.Value? then Acquire else Exited)
        .(results := s.results[i := Done(outcome)], posted := s.posted[i := Done(outcome)])
  }

  predicate ConsumerCan(s: State) { !s.consumer.Finished? }

  function ConsumerDo(c: Config, s: State, close: bool): State
    requires ConsumerCan(s)
  {
    match s.consumer
    case Enter => s.(consumer := Check)
    case Check =>
      if s.index in s.results then
        s.(results := s.results - {s.index}, popped := s.popped + 1, consumer := Popped(s.results[s.index]))
      else s.(consumer := CheckEnd)
    case CheckEnd =>
      if s.end.Some? && s.index >= s.end.value then s.(consumer := Finally(Returned))
      else s.(consumer := CheckAlive)
    case CheckAlive =>
      if forall d | 0 <= d < |s.drivers| :: s.drivers[d].Exited? then s.(consumer := Finally(NoWorkerLeft))
      else s.(consumer := Waiting)
    case Waiting => s.(consumer := Check)
    case Popped(entry) => s.(slots := s.slots + 1, consumer := Deliver(entry))
    case Deliver(Raise(exc)) => s.(consumer := Finally(SourceRaised(exc)))
    case Deliver(Done(Failure(message))) => s.(consumer := Finally(WorkerError(message)))
    case Deliver(Done(Value(value))) =>
      s.(index := s.index + 1, yielded := s.yielded + [value], consumer := Suspended)
    case Suspended => s.(consumer := if close then Finally(Closed) else Enter)
    case Finally(ending) => s.(stop := true, consumer := Releasing(|s.drivers|, ending))
    case Releasing(left, ending) =>
      if left == 0 then s.(consumer := Finished(ending))
      else s.(slots := s.slots + 1, extra := s.extra + 1, consumer := Releasing(left - 1, ending))
  }

  predicate Can(s: State, a: Action) {
    match a
    case DriverStep(d) => DriverCan(s, d)
    case ConsumerStep(_) => ConsumerCan(s)
  }

  function Do(c: Config, s: State, a: Action): State
    requires Can(s, a)
  {
    match a
    case DriverStep(d) => DriverDo(c, s, d)
    case ConsumerStep(close) => ConsumerDo(c, s, close)
  }

  /** A finite run: the scheduler's choices, each possible where it is made, lead from Init to `s`. */
  ghost predicate RunsTo(c: Config, choices: seq<Action>, s: State)
    decreases |choices|
  {
    if choices == [] then s == Init(c)
    else
      var last := choices[|choices| - 1];
      exists p :: RunsTo(c, choices[..|choices| - 1], p) && Can(p, last) && s == Do(c, p, last)
  }

  ghost predicate Reachable(c: Config, s: State) { exists choices :: RunsTo(c, choices, s) }
}
