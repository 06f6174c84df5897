/** The event log of one case: `append_event` of app/events.py against `sse_events` of app/api/routes.py.
    Writers hold the lock on the case row from their first event to the end of their transaction. */
module CaseEvents {
  import opened Wrappers
  import opened Sequences

  type Writer = nat
  type Reader = nat

  datatype Event = Event(sequence: nat, payload: string)

  /** A follower of the log: where it started, the last sequence it emitted, the answer of its last query
      that it still has to emit, and everything it emitted. */
  datatype Follower = Follower(start: int, emitted: int, answer: seq<Event>, log: seq<Event>)

  /** The committed rows in commit order, the open transaction that holds the case row with its own rows,
      and the followers. */
  datatype State = State(committed: seq<Event>, holder: Option<Writer>, own: seq<Event>, readers: map<Reader, Follower>)

  datatype Step =
    | Lock(w: Writer)
    | Append(w: Writer, payload: string)
    | Commit(w: Writer)
    | Rollback(w: Writer)
    | Follow(r: Reader, start: int)
    | Query(r: Reader, answer: seq<Event>)
    | Emit(r: Reader)

  /** `max(sequence) or 0`. */
  function MaxSequence(rows: seq<Event>): nat {
    if rows == [] then 0
    else
      var front, last := MaxSequence(rows[..|rows| - 1]), rows[|rows| - 1].sequence;
      if last > front then last else front
  }

  /** The rows past `emitted`. */
  function Past(rows: seq<Event>, emitted: int): seq<Event> {
    if rows == [] then []
    else Past(rows[..|rows| - 1], emitted) + if rows[|rows| - 1].sequence > emitted then [rows[|rows| - 1]] else []
  }

  predicate Sorted(rows: seq<Event>) {
    forall i, j | 0 <= i < j < |rows| :: rows[i].sequence <= rows[j].sequence
  }

  /** `answer` holds the committed rows past `emitted`, ordered by sequence. */
  predicate Answers(committed: seq<Event>, emitted: int, answer: seq<Event>) {
    multiset(answer) == multiset(Past(committed, emitted)) && Sorted(answer)
  }

  predicate Can(s: State, step: Step) {
    match step
    case Lock(_) => s.holder.None?
    case Append(w, _) => s.holder == Some(w)
    case Commit(w) => s.holder == Some(w)
    case Rollback(w) => s.holder == Some(w)
    case Follow(r, _) => r !in s.readers
    case Query(r, answer) =>
      r in s.readers && s.readers[r].answer == [] && Answers(s.committed, s.readers[r].emitted, answer)
    case Emit(r) => r in s.readers && s.readers[r].answer != []
  }

  function Do(s: State, step: Step): State
    requires Can(s, step)
  {
    match step
    case Lock(w) => s.(holder := Some(w), own := [])
    case Append(_, payload) => s.(own := s.own + [Event(MaxSequence(s.committed + s.own) + 1, payload)])
    case Commit(_) => s.(committed := s.committed + s.own, holder := None, own := [])
    case Rollback(_) => s.(holder := None, own := [])
    case Follow(r, start) => s.(readers := s.readers[r := Follower(start, start, [], [])])
    case Query(r, answer) => s.(readers := s.readers[r := s.readers[r].(answer := answer)])
    case Emit(r) =>
      var f := s.readers[r];
      s.(readers := s.readers[r := Follower(f.start, f.answer[0].sequence, f.answer[1..], f.log + [f.answer[0]])])
  }

  const INIT := State([], None, [], map[])

  predicate Runs(s: State, steps: seq<Step>)
    decreases |steps|
  {
    steps == [] || (Can(s, steps[0]) && Runs(Do(s, steps[0]), steps[1..]))
  }

  function After(s: State, steps: seq<Step>): State
    requires Runs(s, steps)
    decreases |steps|
  {
    if steps == [] then s else After(Do(s, steps[0]), steps[1..])
  }

  ghost predicate Reachable(s: State) {
    exists steps :: Runs(INIT, steps) && After(INIT, steps) == s
  }

  // ---- the sequence numbers -----------------------------------------------------------------

  /** The sequences are 1, 2, ..., n, in the order of the rows. */
  predicate Numbered(rows: seq<Event>) {
    forall i | 0 <= i < |rows| :: rows[i].sequence == i + 1
  }

  lemma {:induction false} MaxOfNumbered(rows: seq<Event>)
    requires Numbered(rows)
    ensures MaxSequence(rows) == |rows|
  {
    if rows != [] {
      MaxOfNumbered(rows[..|rows| - 1]);
    }
  }

  lemma {:induction false} NonePast(rows: seq<Event>, emitted: int)
    requires Numbered(rows) && |rows| <= emitted
    ensures Past(rows, emitted) == []
  {
    if rows != [] {
      NonePast(rows[..|rows| - 1], emitted);
    }
  }

  lemma {:induction false} PastNumbered(rows: seq<Event>, emitted: int)
    requires Numbered(rows)
    ensures Past(rows, emitted) == if emitted <= |rows| then rows[Place(emitted)..] else []
  {
    if |rows| <= emitted {
      NonePast(rows, emitted);
    } else if rows != [] {
      PastNumbered(rows[..|rows| - 1], emitted);
      SliceMore(rows, Place(emitted));
    }
  }

  predicate StrictlySorted(rows: seq<Event>) {
    forall i, j | 0 <= i < j < |rows| :: rows[i].sequence < rows[j].sequence
  }

  lemma Fronts(rows: seq<Event>)
    requires rows != []
    ensures Sorted(rows) ==> Sorted(rows[..|rows| - 1])
    ensures StrictlySorted(rows) ==> StrictlySorted(rows[..|rows| - 1])
  {}

  /** Sorted rows with different sequences are determined by their multiset. */
  lemma {:induction false} OneAnswer(rows: seq<Event>, answer: seq<Event>)
    requires multiset(answer) == multiset(rows) && Sorted(answer)
    requires StrictlySorted(rows)
    ensures answer == rows
  {
    hide Sorted, StrictlySorted;
    assert |multiset(answer)| == |answer| && |multiset(rows)| == |rows|;
    if rows != [] {
      var n := |rows| - 1;
      LastIsGreatest(rows, answer);
      WithoutLast(rows);
      WithoutLast(answer);
      Fronts(rows);
      Fronts(answer);
      OneAnswer(rows[..n], answer[..n]);
      assert rows == rows[..n] + [rows[n]] && answer == answer[..n] + [answer[n]];
    }
  }

  lemma LastIsGreatest(rows: seq<Event>, answer: seq<Event>)
    requires multiset(answer) == multiset(rows) && Sorted(answer) && |answer| == |rows| > 0
    requires StrictlySorted(rows)
    ensures answer[|rows| - 1] == rows[|rows| - 1]
  {
    var n := |rows| - 1;
    assert answer[n] in multiset(answer) && rows[n] in multiset(rows);
    assert answer[n] in rows && rows[n] in answer;
    var i :| 0 <= i < |rows| && rows[i] == answer[n];
    var j :| 0 <= j < |answer| && answer[j] == rows[n];
    assert answer[j].sequence <= answer[n].sequence;
    assert forall k | 0 <= k < n :: rows[k].sequence < rows[n].sequence;
  }

  lemma AnswerIsSuffix(committed: seq<Event>, emitted: int, answer: seq<Event>)
    requires Numbered(committed) && Answers(committed, emitted, answer)
    ensures answer == if emitted <= |committed| then committed[Place(emitted)..] else []
  {
    PastNumbered(committed, emitted);
    OneAnswer(Past(committed, emitted), answer);
  }

  // ---- what every step keeps -------------------------------------------------------------------

  /** How many events a follower that starts at `sequence` takes for seen. */
  function Place(sequence: int): nat { if sequence < 0 then 0 else sequence }

  /** What a follower emitted, and is about to emit, is the log from its start on, without a gap. */
  ghost predicate InStep(committed: seq<Event>, f: Follower) {
    && (f.start > |committed| ==> f.log == [] && f.answer == [] && f.emitted == f.start)
    && (f.start <= |committed| ==>
          && (f.log == [] ==> f.emitted == f.start) && Place(f.emitted) == Place(f.start) + |f.log|
          && Place(f.emitted) + |f.answer| <= |committed| && f.log == committed[Place(f.start)..Place(f.emitted)]
          && f.answer == committed[Place(f.emitted)..Place(f.emitted) + |f.answer|])
  }

  ghost predicate Inv(s: State) {
    && Numbered(s.committed + s.own) && (s.holder.None? ==> s.own == [])
    && forall r | r in s.readers :: InStep(s.committed, s.readers[r])
  }

  lemma CommitKeepsPace(committed: seq<Event>, own: seq<Event>, f: Follower)
    requires InStep(committed, f)
    ensures InStep(committed + own, f)
  {}

  lemma QueryKeepsPace(committed: seq<Event>, f: Follower, answer: seq<Event>)
    requires Numbered(committed) && InStep(committed, f) && f.answer == [] && Answers(committed, f.emitted, answer)
    ensures InStep(committed, f.(answer := answer))
  {
    AnswerIsSuffix(committed, f.emitted, answer);
  }

  lemma EmitKeepsPace(committed: seq<Event>, f: Follower)
    requires Numbered(committed) && InStep(committed, f) && f.answer != []
    ensures InStep(committed, Follower(f.start, f.answer[0].sequence, f.answer[1..], f.log + [f.answer[0]]))
  {}

  lemma NumberedFront(rows: seq<Event>, more: seq<Event>)
    requires Numbered(rows + more)
    ensures Numbered(rows)
  {
    forall i | 0 <= i < |rows| ensures rows[i].sequence == i + 1 {
      assert (rows + more)[i] == rows[i];
    }
  }

  /** The open transaction numbers its events on from the committed ones. */
  lemma WriterStep(s: State, step: Step)
    requires Numbered(s.committed + s.own) && (s.holder.None? ==> s.own == []) && Can(s, step)
    ensures var t := Do(s, step); Numbered(t.committed + t.own) && (t.holder.None? ==> t.own == [])
    ensures Do(s, step).committed == if step.Commit? then s.committed + s.own else s.committed
  {
    if step.Append? {
      AppendNumbers(s.committed, s.own, step.payload);
    } else if step.Commit? {
      assert s.committed + s.own + [] == s.committed + s.own;
    } else {
      NumberedFront(s.committed, s.own);
      assert s.committed + [] == s.committed;
    }
  }

  lemma AppendNumbers(committed: seq<Event>, own: seq<Event>, payload: string)
    requires Numbered(committed + own)
    ensures Numbered(committed + (own + [Event(MaxSequence(committed + own) + 1, payload)]))
  {
    var rows := committed + own;
    MaxOfNumbered(rows);
    assert committed + (own + [Event(|rows| + 1, payload)]) == rows + [Event(|rows| + 1, payload)];
  }

  lemma ReaderStep(s: State, step: Step)
    requires Inv(s) && Can(s, step) && !step.Commit?
    ensures forall r | r in Do(s, step).readers :: InStep(s.committed, Do(s, step).readers[r])
  {
    hide InStep;
    NumberedFront(s.committed, s.own);
    match step
    case Query(r, answer) => QueryKeepsPace(s.committed, s.readers[r], answer);
    case Emit(r) => EmitKeepsPace(s.committed, s.readers[r]);
    case Follow(r, start) => FollowInStep(s.committed, start);
    case _ =>
  }

  lemma StepKeeps(s: State, step: Step)
    requires Inv(s) && Can(s, step)
    ensures Inv(Do(s, step))
  {
    hide InStep, Numbered;
    WriterStep(s, step);
    if step.Commit? {
      forall r | r in s.readers ensures InStep(s.committed + s.own, s.readers[r]) {
        CommitKeepsPace(s.committed, s.own, s.readers[r]);
      }
    } else {
      ReaderStep(s, step);
    }
  }

  lemma FollowInStep(committed: seq<Event>, start: int)
    ensures InStep(committed, Follower(start, start, [], []))
  {}

  lemma {:induction false} RunKeeps(s: State, steps: seq<Step>)
    requires Inv(s) && Runs(s, steps)
    ensures Inv(After(s, steps))
    decreases |steps|
  {
    if steps != [] {
      StepKeeps(s, steps[0]);
      RunKeeps(Do(s, steps[0]), steps[1..]);
    }
  }

  lemma ReachableKeeps(s: State)
    requires Reachable(s)
    ensures Inv(s)
  {
    var steps :| Runs(INIT, steps) && After(INIT, steps) == s;
    RunKeeps(INIT, steps);
  }

  /** However writers and readers interleave, commit or roll back: the committed sequences are 1..n, and they
      became visible in that order. */
  lemma SequencesAreGapless(s: State)
    requires Reachable(s)
    ensures Numbered(s.committed)
  {
    ReachableKeeps(s);
    assert forall i | 0 <= i < |s.committed| :: (s.committed + s.own)[i] == s.committed[i];
  }

  /** A follower has emitted exactly the committed events after its start, up to the last it emitted: each
      once, in order, none passed over. */
  lemma FollowerMissesNothing(s: State, r: Reader)
    requires Reachable(s) && r in s.readers
    ensures var f := s.readers[r];
      if f.start > |s.committed| then f.log == [] else
        var from := Place(f.start);
        from + |f.log| <= |s.committed| && f.log == s.committed[from..from + |f.log|]
  {
    ReachableKeeps(s);
  }

  /** No later commit brings an event that a follower has already passed: one that resumed within the log,
      whether it has emitted anything yet or not. */
  lemma {:induction false} NothingLandsBehind(s: State, steps: seq<Step>, r: Reader, e: Event)
    requires Reachable(s) && r in s.readers && Runs(s, steps)
    requires e in After(s, steps).committed && e !in s.committed && s.readers[r].start <= |s.committed|
    ensures e.sequence > s.readers[r].emitted
  {
    ReachableKeeps(s);
    RunKeeps(s, steps);
    CommitsGrow(s, steps);
    var t := After(s, steps);
    var i :| 0 <= i < |t.committed| && t.committed[i] == e;
    assert (t.committed + t.own)[i] == e;
    assert forall k | 0 <= k < |s.committed| :: t.committed[k] == s.committed[k];
  }

  lemma {:induction false} CommitsGrow(s: State, steps: seq<Step>)
    requires Runs(s, steps)
    ensures s.committed <= After(s, steps).committed
    decreases |steps|
  {
    if steps != [] {
      CommitsGrow(Do(s, steps[0]), steps[1..]);
    }
  }

  /** A follower that has emitted the answer of its query has emitted everything committed when it asked. */
  lemma QueryCatchesUp(s: State, r: Reader, answer: seq<Event>)
    requires Reachable(s) && Can(s, Query(r, answer)) && s.readers[r].start <= |s.committed|
    ensures var f := Do(s, Query(r, answer)).readers[r]; f.log + f.answer == s.committed[Place(f.start)..]
  {
    ReachableKeeps(s);
    SequencesAreGapless(s);
    AnswerCompletes(s.committed, s.readers[r], answer);
  }

  lemma AnswerCompletes(committed: seq<Event>, f: Follower, answer: seq<Event>)
    requires Numbered(committed) && InStep(committed, f) && Answers(committed, f.emitted, answer)
    requires f.start <= |committed|
    ensures f.log + answer == committed[Place(f.start)..]
  {
    AnswerIsSuffix(committed, f.emitted, answer);
    var from, to := Place(f.start), Place(f.emitted);
    assert committed[from..] == committed[from..to] + committed[to..];
  }

  // ---- whole transactions -------------------------------------------------------------------

  /** While a transaction holds the case row, no other begins, appends, commits or rolls back. */
  lemma LockExcludes(s: State, v: Writer, w: Writer, payload: string)
    requires s.holder == Some(w)
    ensures !Can(s, Lock(v))
    ensures Can(s, Append(v, payload)) || Can(s, Commit(v)) || Can(s, Rollback(v)) ==> v == w
  {}

  function Appends(w: Writer, payloads: seq<string>): seq<Step> {
    seq(|payloads|, i requires 0 <= i < |payloads| => Append(w, payloads[i]))
  }

  /** Events numbered on from `count`. */
  function NumberedOn(count: nat, payloads: seq<string>): seq<Event> {
    seq(|payloads|, i requires 0 <= i < |payloads| => Event(count + 1 + i, payloads[i]))
  }

  lemma {:induction false} RunsThen(s: State, steps: seq<Step>, more: seq<Step>)
    requires Runs(s, steps) && Runs(After(s, steps), more)
    ensures Runs(s, steps + more) && After(s, steps + more) == After(After(s, steps), more)
    decreases |steps|
  {
    if steps == [] {
      assert steps + more == more;
    } else {
      RunsThen(Do(s, steps[0]), steps[1..], more);
      assert (steps + more)[1..] == steps[1..] + more;
    }
  }

  lemma RunsOne(s: State, step: Step)
    requires Can(s, step)
    ensures Runs(s, [step]) && After(s, [step]) == Do(s, step)
  {
    assert Runs(Do(s, step), []);
  }

  lemma RunsNone(s: State)
    ensures Runs(s, []) && After(s, []) == s
  {}

  lemma MaxNumberedOn(committed: seq<Event>, payloads: seq<string>)
    requires Numbered(committed)
    ensures MaxSequence(committed + NumberedOn(|committed|, payloads)) == |committed| + |payloads|
  {
    hide MaxSequence;
    MaxOfNumbered(committed + NumberedOn(|committed|, payloads));
  }

  lemma NoNumbers(count: nat)
    ensures NumberedOn(count, []) == []
  {}

  lemma NumberedOnMore(count: nat, payloads: seq<string>, payload: string)
    ensures NumberedOn(count, payloads + [payload]) ==
      NumberedOn(count, payloads) + [Event(count + |payloads| + 1, payload)]
  {}

  lemma {:induction false} AppendsRun(s: State, w: Writer, payloads: seq<string>)
    requires s.holder == Some(w) && s.own == [] && Numbered(s.committed)
    ensures Runs(s, Appends(w, payloads))
    ensures After(s, Appends(w, payloads)) == s.(own := NumberedOn(|s.committed|, payloads))
  {
    hide Runs, After, MaxSequence, Numbered, NumberedOn;
    if payloads == [] {
      assert Appends(w, payloads) == [];
      NoNumbers(|s.committed|);
      RunsNone(s);
    } else {
      var n := |payloads| - 1;
      AppendsRun(s, w, payloads[..n]);
      var t, step := After(s, Appends(w, payloads[..n])), Append(w, payloads[n]);
      MaxNumberedOn(s.committed, payloads[..n]);
      assert payloads == payloads[..n] + [payloads[n]];
      NumberedOnMore(|s.committed|, payloads[..n], payloads[n]);
      RunsOne(t, step);
      RunsThen(s, Appends(w, payloads[..n]), [step]);
      assert Appends(w, payloads) == Appends(w, payloads[..n]) + [step];
    }
  }

  /** Whenever the row is free, a whole transaction can run: a commit makes exactly its events visible, numbered on
      from those before; a rollback leaves nothing behind. */
  lemma TransactionLands(s: State, w: Writer, payloads: seq<string>)
    requires Reachable(s) && s.holder.None?
    ensures var begun := [Lock(w)] + Appends(w, payloads);
      && Runs(s, begun + [Commit(w)]) && Runs(s, begun + [Rollback(w)])
      && After(s, begun + [Commit(w)]) ==
           s.(committed := s.committed + NumberedOn(|s.committed|, payloads), own := [])
      && After(s, begun + [Rollback(w)]) == s.(own := [])
  {
    ReachableKeeps(s);
    NumberedFront(s.committed, s.own);
    var begun := [Lock(w)] + Appends(w, payloads);
    RunsOne(s, Lock(w));
    AppendsRun(Do(s, Lock(w)), w, payloads);
    RunsThen(s, [Lock(w)], Appends(w, payloads));
    RunsOne(After(s, begun), Commit(w));
    RunsOne(After(s, begun), Rollback(w));
    RunsThen(s, begun, [Commit(w)]);
    RunsThen(s, begun, [Rollback(w)]);
  }
}
