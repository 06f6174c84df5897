/** A scheduler that is fair: it serves the first thread of a queue that can move, and puts it at the end. */
module PoolFairRun {
  import opened ProcessPool
  import opened PoolTheorems
  import opened PoolLiveness

  /** Threads by number: the drivers, and after them the consumer, which always gets its turn. */
  predicate Eligible(c: Config, s: State, thread: nat) { thread == c.workers || DriverCan(s, thread) }

  function TurnOf(c: Config, thread: nat): Action {
    if thread == c.workers then ConsumerStep(false) else DriverStep(thread)
  }

  /** The place of the first thread in the queue that can move. */
  function First(c: Config, s: State, queue: seq<nat>): (i: nat)
    ensures i <= |queue|
    ensures i < |queue| ==> Eligible(c, s, queue[i])
    ensures forall j | 0 <= j < i :: !Eligible(c, s, queue[j])
  {
    if queue == [] || Eligible(c, s, queue[0]) then 0 else 1 + First(c, s, queue[1..])
  }

  function MoveToEnd(queue: seq<nat>, i: nat): seq<nat>
    requires i < |queue|
  {
    queue[..i] + queue[i + 1..] + [queue[i]]
  }

  /** The state and the queue before turn `n`. */
  function Robin(c: Config, n: nat): (State, seq<nat>) {
    if n == 0 then (Init(c), seq(c.workers + 1, i => i))
    else
      var (s, queue) := Robin(c, n - 1);
      var a := Choice(c, s, queue);
      var i := First(c, s, queue);
      (if Can(s, a) then Do(c, s, a) else s, if i < |queue| then MoveToEnd(queue, i) else queue)
  }

  function Choice(c: Config, s: State, queue: seq<nat>): Action {
    var i := First(c, s, queue);
    if i < |queue| then TurnOf(c, queue[i]) else ConsumerStep(false)
  }

  function StateAt(c: Config, n: nat): State { Robin(c, n).0 }

  function TurnAt(c: Config, n: nat): Action { Choice(c, Robin(c, n).0, Robin(c, n).1) }

  /** Thread `thread` stands at place `i` before turn `n`. */
  predicate Stands(c: Config, n: nat, thread: nat, i: nat) {
    var queue := Robin(c, n).1; i < |queue| && queue[i] == thread
  }

  /** The turn is the thread's, and it can move. */
  predicate Chosen(c: Config, n: nat, thread: nat) {
    TurnAt(c, n) == TurnOf(c, thread) && Eligible(c, StateAt(c, n), thread)
  }

  /** A thread that is not served stays where it is or moves up; if it could have moved, it moves up. */
  lemma NextPlace(c: Config, n: nat, thread: nat, i: nat) returns (j: nat)
    requires Stands(c, n, thread, i) && !Chosen(c, n, thread)
    ensures j <= i && Stands(c, n + 1, thread, j)
    ensures Eligible(c, StateAt(c, n), thread) ==> j < i
  {
    var (s, queue) := Robin(c, n);
    var f := First(c, s, queue);
    j := if f < i then i - 1 else i;
    if f < |queue| {
      assert f != i;
      assert MoveToEnd(queue, f)[j] == thread;
    }
  }

  ghost predicate ChosenAfter(c: Config, thread: nat, n: nat) { exists k :: n <= k && Chosen(c, k, thread) }

  ghost predicate EligibleAfter(c: Config, thread: nat, n: nat) {
    exists k :: n <= k && Eligible(c, StateAt(c, k), thread)
  }

  /** On the way to turn `k` the thread is served, or it is no further back in the queue. */
  lemma {:induction false} Wait(c: Config, n: nat, k: nat, thread: nat, i: nat) returns (j: nat)
    requires Stands(c, n, thread, i) && n <= k && !ChosenAfter(c, thread, n)
    ensures j <= i && Stands(c, k, thread, j)
    decreases k
  {
    if n == k {
      j := i;
    } else {
      var before := Wait(c, n, k - 1, thread, i);
      assert !Chosen(c, k - 1, thread);
      j := NextPlace(c, k - 1, thread, before);
    }
  }

  /** When it can move, the thread is served, or it has come further up. */
  lemma MovesUp(c: Config, n: nat, thread: nat, i: nat) returns (m: nat, j: nat)
    requires Stands(c, n, thread, i) && EligibleAfter(c, thread, n)
    ensures ChosenAfter(c, thread, n) || (n < m && j < i && Stands(c, m, thread, j))
  {
    var k :| n <= k && Eligible(c, StateAt(c, k), thread);
    m, j := k + 1, 0;
    if !ChosenAfter(c, thread, n) {
      var before := Wait(c, n, k, thread, i);
      assert !Chosen(c, k, thread);
      j := NextPlace(c, k, thread, before);
    }
  }

  lemma ChosenLater(c: Config, thread: nat, n: nat, m: nat)
    requires n <= m && ChosenAfter(c, thread, m)
    ensures ChosenAfter(c, thread, n)
  {
    var k :| m <= k && Chosen(c, k, thread);
  }

  /** Whoever can move again and again is served. */
  lemma {:induction false} ServedInTheEnd(c: Config, n: nat, thread: nat, i: nat)
    requires Stands(c, n, thread, i) && forall m: nat | n <= m :: EligibleAfter(c, thread, m)
    ensures ChosenAfter(c, thread, n)
    decreases i
  {
    hide Stands, EligibleAfter, ChosenAfter;
    assert EligibleAfter(c, thread, n);
    var m, j := MovesUp(c, n, thread, i);
    if !ChosenAfter(c, thread, n) {
      ServedInTheEnd(c, m, thread, j);
      ChosenLater(c, thread, n, m);
    }
  }

  lemma {:induction false} InTheQueue(c: Config, n: nat, thread: nat) returns (i: nat)
    requires thread <= c.workers
    ensures Stands(c, n, thread, i)
  {
    if n == 0 {
      i := thread;
    } else {
      i := InTheQueue(c, n - 1, thread);
      if Chosen(c, n - 1, thread) {
        var (s, queue) := Robin(c, n - 1);
        var f := First(c, s, queue);
        if f == i {
          i := |queue| - 1;
        } else {
          i := AfterMove(queue, f, i);
        }
      } else {
        i := NextPlace(c, n - 1, thread, i);
      }
    }
  }

  lemma AfterMove(queue: seq<nat>, f: nat, i: nat) returns (j: nat)
    requires i < |queue| && f <= |queue| && f != i
    ensures j < |queue| && (if f < |queue| then MoveToEnd(queue, f)[j] else queue[j]) == queue[i]
  {
    j := if f < i then i - 1 else i;
  }

  /** Every pool has a fair run, so the liveness theorems speak of something. */
  lemma FairRunExists(c: Config) returns (turns: nat -> Action, states: nat -> State)
    requires c.Valid()
    ensures IsRun(c, turns, states) && Fair(turns, states)
  {
    turns, states := (n: nat) => TurnAt(c, n), (n: nat) => StateAt(c, n);
    forall n: nat ensures Turned(c, turns, states, n) {
      assert states(n + 1) == StateAt(c, n + 1);
    }
    forall n: nat ensures ConsumerTurnAfter(turns, n) {
      ConsumerServed(c, n);
      var k :| n <= k && Chosen(c, k, c.workers);
      assert ConsumerTurn(turns, k);
    }
    forall d: nat, n: nat | forall m: nat | n <= m :: ReadyAfter(states, d, m)
      ensures ServedAfter(turns, states, d, n)
    {
      DriverServed(c, turns, states, d, n);
    }
  }

  lemma ConsumerServed(c: Config, n: nat)
    ensures ChosenAfter(c, c.workers, n)
  {
    var i := InTheQueue(c, n, c.workers);
    forall m: nat | n <= m ensures EligibleAfter(c, c.workers, m) {
      assert Eligible(c, StateAt(c, m), c.workers);
    }
    ServedInTheEnd(c, n, c.workers, i);
  }

  lemma DriverServed(c: Config, turns: nat -> Action, states: nat -> State, d: nat, n: nat)
    requires c.Valid() && IsRun(c, turns, states)
    requires forall k: nat :: turns(k) == TurnAt(c, k) && states(k) == StateAt(c, k)
    requires forall m: nat | n <= m :: ReadyAfter(states, d, m)
    ensures ServedAfter(turns, states, d, n)
  {
    assert ReadyAfter(states, d, n);
    var r :| n <= r && Ready(states, d, r);
    StatesInv(c, turns, states, r);
    assert d < c.workers;
    var i := InTheQueue(c, n, d);
    forall m: nat | n <= m ensures EligibleAfter(c, d, m) {
      assert ReadyAfter(states, d, m);
      var k :| m <= k && Ready(states, d, k);
      assert Eligible(c, StateAt(c, k), d);
    }
    ServedInTheEnd(c, n, d, i);
    var k :| n <= k && Chosen(c, k, d);
    assert Served(turns, states, d, k);
  }
}
