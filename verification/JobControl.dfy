/** One import job under retries, group-only builds, claims and worker failures: app/jobs/service.py,
    workers/runner.py, app/engine/ingestion/pipeline.py, app/api/analysis_routes.py and
    app/api/group_routes.py. Each step is one transaction on the job row. */
module JobControl {
  import opened Wrappers

  type Process = nat
  type WorkerId = nat

  datatype JobState = Queued | Running | Checkpointed | Failed | Completed

  datatype Job = Job(state: JobState, attempt: nat, owner: Option<WorkerId>, expires: int)

  datatype Request = Request(groupingOnly: bool, fulfilled: bool)

  /** A process inside `process_one`: which claim it made, the attempt that claim gave it, whether it has
      retried in place, and when it last wrote its lease. */
  datatype Work = Work(claim: nat, attempt: nat, retried: bool, since: int)

  /** `claims` counts the claims; `clash` says a request key was inserted twice. */
  datatype State = State(job: Job, requests: map<nat, Request>, working: map<Process, Work>, now: int,
                         claims: nat, clash: bool)

  /** `id` is the worker id each process runs under, `lease` the configured lease time, and `longest` the
      longest a process at work goes without writing its lease or ending; None is no bound at all. */
  datatype Config = Config(id: Process -> WorkerId, lease: nat, longest: Option<nat>)

  datatype Step =
    | Tick(elapsed: nat)
    | Claim(p: Process)
    | Renew(p: Process, checkpoint: bool)
    | Complete(p: Process, fulfil: set<nat>)
    | Fail(p: Process, retryable: bool)
    | Crash(p: Process)
    | Retry
    | Build

  predicate Active(job: Job) { job.state == Running || job.state == Checkpointed }

  /** The claim of `p` is the latest and still under way. */
  predicate Current(s: State, p: Process) {
    p in s.working && s.working[p].claim == s.claims && Active(s.job)
  }

  predicate Claimable(s: State) { s.job.state == Queued || (Active(s.job) && s.job.expires < s.now) }

  /** Every process at work writes its lease or ends within `longest`. */
  predicate InTime(c: Config, s: State, now: int) {
    c.longest.Some? ==> forall p | p in s.working :: now <= s.working[p].since + c.longest.value
  }

  /** The pipeline writes lease and state, and completes the job, without asking whose claim is current. */
  predicate Can(c: Config, s: State, step: Step) {
    match step
    case Tick(elapsed) => InTime(c, s, s.now + elapsed)
    case Claim(p) => p !in s.working && Claimable(s)
    case Renew(p, _) => p in s.working
    case Complete(p, fulfil) => p in s.working && forall k | k in fulfil :: k <= s.job.attempt
    case Fail(p, _) => p in s.working
    case Crash(p) => p in s.working
    case Retry => s.job.state == Failed || s.job.state == Completed
    case Build => true
  }

  /** `latest_pending_request`: the newest request up to `attempt` that is not fulfilled. */
  function Pending(requests: map<nat, Request>, attempt: nat): Option<Request> {
    if attempt in requests && !requests[attempt].fulfilled then Some(requests[attempt])
    else if attempt == 0 then None
    else Pending(requests, attempt - 1)
  }

  /** A request for the next attempt, and the job back in the queue. */
  function Enqueue(s: State, groupingOnly: bool): State {
    var key := s.job.attempt + 1;
    s.(job := Job(Queued, s.job.attempt, None, 0), requests := s.requests[key := Request(groupingOnly, false)],
       clash := s.clash || key in s.requests)
  }

  predicate Grouping(r: Option<Request>) { r.Some? && r.value.groupingOnly }

  /** Whether `build_queue` puts the job in the queue. */
  predicate Builds(s: State) {
    s.job.state == Completed || (s.job.state == Failed && Grouping(Pending(s.requests, s.job.attempt)))
  }

  /** Whether `build_queue` lists the job in its reply. */
  predicate Listed(s: State) {
    if s.job.state == Queued || Active(s.job) then
      var key := s.job.attempt + 1;
      var next := if key in s.requests then Some(s.requests[key]) else Pending(s.requests, s.job.attempt);
      Grouping(next) && !next.value.fulfilled
    else Builds(s)
  }

  /** The guard of the failure handler: the lease still carries this worker's id. */
  predicate Guard(c: Config, s: State, p: Process) { s.job.owner == Some(c.id(p)) && Active(s.job) }

  function Leave(s: State, p: Process): State { s.(working := s.working - {p}) }

  function Fulfilled(requests: map<nat, Request>, keys: set<nat>): map<nat, Request> {
    map k | k in requests :: if k in keys then requests[k].(fulfilled := true) else requests[k]
  }

  /** The exception handler of `process_one`. */
  function Handle(c: Config, s: State, p: Process, retryable: bool): State
    requires p in s.working
  {
    if !Guard(c, s, p) then Leave(s, p)
    else if retryable && !s.working[p].retried then
      s.(job := s.job.(state := Running, attempt := s.job.attempt + 1, expires := s.now + c.lease),
         working := s.working[p := s.working[p].(retried := true, since := s.now)])
    else Leave(s.(job := Job(Failed, s.job.attempt, None, 0)), p)
  }

  function Do(c: Config, s: State, step: Step): State
    requires Can(c, s, step)
  {
    match step
    case Tick(elapsed) => s.(now := s.now + elapsed)
    case Claim(p) =>
      s.(job := Job(Running, s.job.attempt + 1, Some(c.id(p)), s.now + c.lease), claims := s.claims + 1,
         working := s.working[p := Work(s.claims + 1, s.job.attempt + 1, false, s.now)])
    case Renew(p, checkpoint) =>
      s.(job := s.job.(expires := s.now + c.lease, state := if checkpoint then Checkpointed else s.job.state),
         working := s.working[p := s.working[p].(since := s.now)])
    case Complete(p, fulfil) =>
      Leave(s.(job := Job(Completed, s.job.attempt, None, 0), requests := Fulfilled(s.requests, fulfil)), p)
    case Fail(p, retryable) => Handle(c, s, p, retryable)
    case Crash(p) => Leave(s, p)
    case Retry => Enqueue(s, false)
    case Build => if Builds(s) then Enqueue(s, true) else s
  }

  const INIT := State(Job(Queued, 0, None, 0), map[], map[], 0, 0, false)

  predicate Runs(c: Config, s: State, steps: seq<Step>)
    decreases |steps|
  {
    steps == [] || (Can(c, s, steps[0]) && Runs(c, Do(c, s, steps[0]), steps[1..]))
  }

  function After(c: Config, s: State, steps: seq<Step>): State
    requires Runs(c, s, steps)
    decreases |steps|
  {
    if steps == [] then s else After(c, Do(c, s, steps[0]), steps[1..])
  }

  ghost predicate Reachable(c: Config, s: State) {
    exists steps :: Runs(c, INIT, steps) && After(c, INIT, steps) == s
  }

  // ---- the claims ------------------------------------------------------------------------------

  /** Claims are numbered, no two processes work on one, and the owner's id is that of the latest. */
  ghost predicate ClaimsRight(c: Config, s: State) {
    && (forall p | p in s.working :: s.working[p].claim <= s.claims)
    && (forall p, q | p in s.working && q in s.working && s.working[p].claim == s.working[q].claim :: p == q)
    && (forall p | p in s.working && s.working[p].claim == s.claims && s.job.owner.Some? ::
          s.job.owner.value == c.id(p))
  }

  /** A process at work under the owner's id is at work on the latest claim, and has retried if the attempt is
      past that of its claim. */
  ghost predicate OwnerLatest(c: Config, s: State) {
    && (forall p | p in s.working && s.job.owner == Some(c.id(p)) :: s.working[p].claim == s.claims)
    && (forall p | p in s.working && s.working[p].claim == s.claims ::
          s.job.attempt == s.working[p].attempt + if s.working[p].retried then 1 else 0)
  }

  ghost predicate UniqueIds(c: Config) { forall p: Process, q: Process :: c.id(p) == c.id(q) ==> p == q }

  lemma ClaimsStep(c: Config, s: State, step: Step)
    requires Can(c, s, step) && ClaimsRight(c, s)
    ensures ClaimsRight(c, Do(c, s, step))
  {
    match step
    case Claim(_) => ClaimsClaim(c, s, step);
    case Fail(p, retryable) => ClaimsFail(c, s, p, retryable);
    case _ =>
  }

  lemma ClaimsClaim(c: Config, s: State, step: Step)
    requires step.Claim? && Can(c, s, step) && ClaimsRight(c, s)
    ensures ClaimsRight(c, Do(c, s, step))
  {}

  lemma ClaimsFail(c: Config, s: State, p: Process, retryable: bool)
    requires p in s.working && ClaimsRight(c, s)
    ensures ClaimsRight(c, Handle(c, s, p, retryable))
  {}

  lemma OwnerStep(c: Config, s: State, step: Step)
    requires Can(c, s, step) && ClaimsRight(c, s) && OwnerLatest(c, s) && UniqueIds(c)
    ensures OwnerLatest(c, Do(c, s, step))
  {
    match step
    case Claim(_) => OwnerClaim(c, s, step);
    case Fail(p, retryable) => OwnerFail(c, s, p, retryable);
    case _ =>
  }

  lemma OwnerClaim(c: Config, s: State, step: Step)
    requires step.Claim? && Can(c, s, step) && ClaimsRight(c, s) && OwnerLatest(c, s) && UniqueIds(c)
    ensures OwnerLatest(c, Do(c, s, step))
  {}

  lemma OwnerFail(c: Config, s: State, p: Process, retryable: bool)
    requires p in s.working && ClaimsRight(c, s) && OwnerLatest(c, s) && UniqueIds(c)
    ensures OwnerLatest(c, Handle(c, s, p, retryable))
  {}

  // ---- a lease that outlives its worker -----------------------------------------------------------

  /** No process at work goes longer than the lease without writing it. */
  predicate LeaseHolds(c: Config) { c.longest.Some? && c.longest.value <= c.lease }

  /** At most one process is at work, on the latest claim, under a lease that has not run out; and no request
      runs ahead of the attempts: its key is at most `attempt`, or the next one while the job is queued. */
  ghost predicate Alone(c: Config, s: State) {
    && (forall p | p in s.working ::
          && Current(s, p) && s.job.owner == Some(c.id(p)) && s.job.expires == s.working[p].since + c.lease
          && s.job.attempt == s.working[p].attempt + if s.working[p].retried then 1 else 0)
    && (forall p, q | p in s.working && q in s.working :: p == q)
    && InTime(c, s, s.now)
  }

  ghost predicate KeysBehind(s: State) {
    !s.clash && forall k | k in s.requests :: k <= s.job.attempt + if s.job.state == Queued then 1 else 0
  }

  lemma AloneStep(c: Config, s: State, step: Step)
    requires LeaseHolds(c) && Can(c, s, step) && Alone(c, s)
    ensures Alone(c, Do(c, s, step))
  {
    match step
    case Claim(p) => AloneClaim(c, s, p);
    case Fail(p, retryable) => AloneFail(c, s, p, retryable);
    case _ =>
  }

  /** While a process is at work its lease has not run out, so nobody else can claim. */
  lemma AloneClaim(c: Config, s: State, p: Process)
    requires LeaseHolds(c) && Can(c, s, Claim(p)) && Alone(c, s)
    ensures s.working == map[] && Alone(c, Do(c, s, Claim(p)))
  {
    assert forall q | q in s.working :: s.now <= s.job.expires;
  }

  lemma AloneFail(c: Config, s: State, p: Process, retryable: bool)
    requires LeaseHolds(c) && p in s.working && Alone(c, s)
    ensures Alone(c, Handle(c, s, p, retryable))
  {}

  lemma KeysStep(c: Config, s: State, step: Step)
    requires Can(c, s, step) && Alone(c, s) && KeysBehind(s)
    ensures KeysBehind(Do(c, s, step))
  {}

  // ---- all runs -----------------------------------------------------------------------------------------

  ghost predicate Inv(c: Config, s: State) {
    && ClaimsRight(c, s) && (UniqueIds(c) ==> OwnerLatest(c, s))
    && (LeaseHolds(c) ==> Alone(c, s) && KeysBehind(s))
  }

  lemma StepKeeps(c: Config, s: State, step: Step)
    requires Can(c, s, step) && Inv(c, s)
    ensures Inv(c, Do(c, s, step))
  {
    hide ClaimsRight, OwnerLatest, Alone, KeysBehind, UniqueIds;
    ClaimsStep(c, s, step);
    if UniqueIds(c) {
      OwnerStep(c, s, step);
    }
    if LeaseHolds(c) {
      AloneStep(c, s, step);
      KeysStep(c, s, step);
    }
  }

  lemma {:induction false} RunKeeps(c: Config, s: State, steps: seq<Step>)
    requires Inv(c, s) && Runs(c, s, steps)
    ensures Inv(c, After(c, s, steps))
    decreases |steps|
  {
    hide Inv;
    if steps != [] {
      StepKeeps(c, s, steps[0]);
      RunKeeps(c, Do(c, s, steps[0]), steps[1..]);
    }
  }

  lemma ReachableKeeps(c: Config, s: State)
    requires Reachable(c, s)
    ensures Inv(c, s)
  {
    var steps :| Runs(c, INIT, steps) && After(c, INIT, steps) == s;
    RunKeeps(c, INIT, steps);
  }

  lemma {:induction false} RunsMore(c: Config, s: State, steps: seq<Step>, step: Step)
    requires Runs(c, s, steps) && Can(c, After(c, s, steps), step)
    ensures Runs(c, s, steps + [step]) && After(c, s, steps + [step]) == Do(c, After(c, s, steps), step)
    decreases |steps|
  {
    if steps == [] {
      assert [step][1..] == [];
    } else {
      RunsMore(c, Do(c, s, steps[0]), steps[1..], step);
      assert (steps + [step])[1..] == steps[1..] + [step];
    }
  }

  lemma ReachableMore(c: Config, s: State, step: Step)
    requires Reachable(c, s) && Can(c, s, step)
    ensures Reachable(c, Do(c, s, step))
  {
    var steps :| Runs(c, INIT, steps) && After(c, INIT, steps) == s;
    RunsMore(c, INIT, steps, step);
  }

  /** A worker outlasts its lease: process `p` claims the job, its lease runs out, and `q` claims it again. */
  lemma Stolen(c: Config, p: Process, q: Process) returns (s: State)
    requires p != q && !LeaseHolds(c)
    ensures Reachable(c, s)
    ensures s == State(Job(Running, 2, Some(c.id(q)), 2 * c.lease + 1), map[],
                       map[p := Work(1, 1, false, 0), q := Work(2, 2, false, c.lease + 1)], c.lease + 1, 2, false)
  {
    assert Runs(c, INIT, []) && After(c, INIT, []) == INIT;
    var s1 := Do(c, INIT, Claim(p));
    ReachableMore(c, INIT, Claim(p));
    var s2 := Do(c, s1, Tick(c.lease + 1));
    ReachableMore(c, s1, Tick(c.lease + 1));
    s := Do(c, s2, Claim(q));
    ReachableMore(c, s2, Claim(q));
  }

  // ---- the request keys ------------------------------------------------------------------------------

  /** Where a worker outlasts its lease, its completion can come when the job is queued again, and the next
      retry inserts a key a second time. */
  lemma StaleCompletionCollides(c: Config)
    requires !LeaseHolds(c)
    ensures exists s :: Reachable(c, s) && s.clash
  {
    var p, q: Process := 0, 1;
    var s3 := Stolen(c, p, q);
    var s4 := Do(c, s3, Complete(q, {}));
    ReachableMore(c, s3, Complete(q, {}));
    var s5 := Do(c, s4, Retry);
    ReachableMore(c, s4, Retry);
    assert 3 in s5.requests && s5.job.attempt == 2;
    var s6 := Do(c, s5, Complete(p, {}));
    ReachableMore(c, s5, Complete(p, {}));
    assert 3 in s6.requests && s6.job.attempt == 2;
    ReachableMore(c, s6, Retry);
  }

  /** Over all runs, whatever the worker ids: request keys never collide exactly when no worker goes longer than
      the lease without writing it. */
  lemma KeysCollideExactly(c: Config)
    ensures (forall s | Reachable(c, s) :: !s.clash) <==> LeaseHolds(c)
  {
    if LeaseHolds(c) {
      forall s | Reachable(c, s) ensures !s.clash {
        ReachableKeeps(c, s);
      }
    } else {
      StaleCompletionCollides(c);
    }
  }

  /** And then a finished job has no request for its next attempt yet. */
  lemma KeysStayBehind(c: Config, s: State)
    requires LeaseHolds(c) && Reachable(c, s)
    ensures forall k | k in s.requests :: k <= s.job.attempt + if s.job.state == Queued then 1 else 0
    ensures s.job.state == Failed || s.job.state == Completed ==> s.job.attempt + 1 !in s.requests
  {
    ReachableKeeps(c, s);
  }

  // ---- the failure handler ---------------------------------------------------------------------------

  /** In every reachable state the handler of a process whose claim is over changes nothing of the job. */
  ghost predicate HandlerSafe(c: Config) {
    forall s, p, retryable | Reachable(c, s) && p in s.working && !Current(s, p) ::
      Handle(c, s, p, retryable).job == s.job && Handle(c, s, p, retryable).requests == s.requests
  }

  /** Two processes under one id: the first loses its lease to the second, and then fails the second's job. */
  lemma SharedIdBreaks(c: Config, p: Process, q: Process)
    requires c.id(p) == c.id(q) && p != q && !LeaseHolds(c)
    ensures !HandlerSafe(c)
  {
    var s := Stolen(c, p, q);
    assert p in s.working && !Current(s, p);
    assert Handle(c, s, p, false).job.state == Failed;
  }

  /** The guard compares worker ids only, so the handler is safe exactly when no two processes share one or no
      lease runs out under its worker. */
  lemma HandlerSafeExactly(c: Config)
    ensures HandlerSafe(c) <==> UniqueIds(c) || LeaseHolds(c)
  {
    if UniqueIds(c) || LeaseHolds(c) {
      forall s, p, retryable | Reachable(c, s) && p in s.working && !Current(s, p)
        ensures Handle(c, s, p, retryable).job == s.job && Handle(c, s, p, retryable).requests == s.requests
      {
        ReachableKeeps(c, s);
      }
    } else {
      var p: Process, q: Process :| c.id(p) == c.id(q) && p != q;
      SharedIdBreaks(c, p, q);
    }
  }

  /** A process on the latest claim is at most one attempt past it, and there no failure retries in place. */
  ghost predicate RetriesOnce(c: Config, s: State, p: Process)
    requires p in s.working
  {
    && s.working[p].attempt <= s.job.attempt <= s.working[p].attempt + 1
    && (s.job.attempt == s.working[p].attempt + 1 ==>
          forall retryable :: var t := Handle(c, s, p, retryable);
            t.job.attempt == s.job.attempt && p !in t.working)
  }

  /** A stale process under the same id retries in place on the other's claim, and then so does the other. */
  lemma SharedIdRetriesTwice(c: Config, p: Process, q: Process)
    requires c.id(p) == c.id(q) && p != q && !LeaseHolds(c)
    ensures exists s, r :: Reachable(c, s) && r in s.working && s.working[r].claim == s.claims && !RetriesOnce(c, s, r)
  {
    var s := Stolen(c, p, q);
    var t := Do(c, s, Fail(p, true));
    ReachableMore(c, s, Fail(p, true));
    var u := Do(c, t, Fail(q, true));
    ReachableMore(c, t, Fail(q, true));
    assert q in u.working && u.working[q].claim == u.claims && u.job.attempt == 4 && u.working[q].attempt == 2;
    assert !RetriesOnce(c, u, q);
  }

  /** One claim makes at most one retry in place, exactly under the same condition. */
  lemma OneRetryPerClaim(c: Config)
    ensures (forall s, p | Reachable(c, s) && p in s.working && s.working[p].claim == s.claims :: RetriesOnce(c, s, p))
      <==> UniqueIds(c) || LeaseHolds(c)
  {
    if UniqueIds(c) || LeaseHolds(c) {
      forall s, p | Reachable(c, s) && p in s.working && s.working[p].claim == s.claims ensures RetriesOnce(c, s, p) {
        ReachableKeeps(c, s);
      }
    } else {
      var p: Process, q: Process :| c.id(p) == c.id(q) && p != q;
      SharedIdRetriesTwice(c, p, q);
    }
  }

  // ---- builds and claims ------------------------------------------------------------------------

  /** In any state a second build adds nothing and lists the job again. */
  lemma BuildTwice(c: Config, s: State)
    ensures var once := Do(c, s, Build);
      Do(c, once, Build) == once && (Builds(s) ==> Listed(once)) && (Listed(s) ==> Listed(once))
  {}

  /** `k` is the newest request up to `attempt` that is not fulfilled. */
  ghost predicate Newest(requests: map<nat, Request>, attempt: nat, k: nat) {
    && k <= attempt && k in requests && !requests[k].fulfilled
    && forall j | k < j <= attempt && j in requests :: requests[j].fulfilled
  }

  lemma {:induction false} PendingIsNewest(requests: map<nat, Request>, attempt: nat)
    ensures Pending(requests, attempt) == None <==> forall k | k <= attempt && k in requests :: requests[k].fulfilled
    ensures forall k | Newest(requests, attempt, k) :: Pending(requests, attempt) == Some(requests[k])
  {
    if !(attempt in requests && !requests[attempt].fulfilled) && attempt > 0 {
      PendingIsNewest(requests, attempt - 1);
      forall k | Newest(requests, attempt, k) ensures Newest(requests, attempt - 1, k) {}
    }
  }

  /** A build asks for grouping only, and only for a job that is completed, or failed on such a request; a retry asks
      for the whole run. Either puts the job back in the queue with one request for its next attempt. */
  lemma EnqueuedExactly(c: Config, s: State, k: nat)
    requires s.job.state == Failed ==> Newest(s.requests, s.job.attempt, k)
    ensures var t := Do(c, s, Build);
      if s.job.state == Completed || (s.job.state == Failed && s.requests[k].groupingOnly) then
        && t.job.state == Queued && t.job.owner == None && t.job.attempt == s.job.attempt
        && t.requests == s.requests[s.job.attempt + 1 := Request(true, false)]
      else t == s
    ensures s.job.state == Completed || s.job.state == Failed ==>
      && Can(c, s, Retry) && var t := Do(c, s, Retry);
      && t.job.state == Queued && t.job.owner == None && t.job.attempt == s.job.attempt
      && t.requests == s.requests[s.job.attempt + 1 := Request(false, false)]
  {
    PendingIsNewest(s.requests, s.job.attempt);
  }

  /** A checkpoint or a plain renewal extends the lease whoever holds it; a completion frees the job, fulfils exactly
      the requests it was made for and no other. */
  lemma WritesExactly(c: Config, s: State, p: Process, checkpoint: bool, fulfil: set<nat>, k: nat)
    requires p in s.working && forall key | key in fulfil :: key <= s.job.attempt
    ensures var t := Do(c, s, Renew(p, checkpoint));
      && t.job.expires == s.now + c.lease && t.job.owner == s.job.owner && t.job.attempt == s.job.attempt
      && t.job.state == (if checkpoint then Checkpointed else s.job.state) && t.requests == s.requests
    ensures Can(c, s, Complete(p, fulfil)) && var t := Do(c, s, Complete(p, fulfil));
      && t.job.state == Completed && t.job.owner == None && p !in t.working && t.requests.Keys == s.requests.Keys
      && (k in s.requests ==>
            && t.requests[k].groupingOnly == s.requests[k].groupingOnly
            && (t.requests[k].fulfilled <==> s.requests[k].fulfilled || k in fulfil))
  {}

  /** The claim after a retry or a build sees that request as the newest pending one: grouping only after a build,
      the whole run after a retry. */
  lemma ClaimSeesRequest(c: Config, s: State, p: Process, step: Step)
    requires p !in s.working && (step == Retry || (step == Build && s.job.state == Completed)) && Can(c, s, step)
    ensures var queued := Do(c, s, step);
      Can(c, queued, Claim(p)) && var claimed := Do(c, queued, Claim(p));
      Pending(claimed.requests, claimed.job.attempt) == Some(Request(step.Build?, false))
  {}
}
