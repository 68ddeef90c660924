/**
 The limiter driven by a sequence of events: a task is submitted (`run`), a
 running task settles (fulfilled or rejected), or the bound is changed
 (`setMaxConcurrent`). Each step also reports which tasks it put in the
 queue and which it admitted from the queue, so that admission order can be
 compared with submission order over a whole run.
 */
module LimiterTrace {
  import opened Base
  import opened Concurrency

  datatype Event =
    | SubmitTask(t: TaskId)
    | SettleTask(t: TaskId, fulfilled: bool)
    | SetLimit(n: int)

  /** A state after some events, with the tasks queued and the tasks admitted from the queue, in order. */
  datatype Run = Run(state: ConcurrencyLimiter, enqueued: seq<TaskId>, dequeued: seq<TaskId>)

  /** Task ids are fresh when submitted; only a running task settles. */
  predicate Enabled(s: ConcurrencyLimiter, e: Event) {
    match e
    case SubmitTask(t) => t !in s.running && t !in s.queue
    case SettleTask(t, _) => t in s.running
    case SetLimit(_) => true
  }

  /**
   One event. The queue before the step, followed by what the step queued,
   is what the step admitted followed by the queue after it.
   */
  function Step(s: ConcurrencyLimiter, e: Event): (r: Run)
    requires Enabled(s, e)
    ensures r.dequeued + r.state.queue == s.queue + r.enqueued
    ensures e.SubmitTask? ==> r.dequeued == []
    ensures !e.SubmitTask? ==> r.enqueued == []
  {
    match e
    case SubmitTask(t) =>
      Run(Submit(s, t), if s.activeCount < s.maxConcurrent then [] else [t], [])
    case SettleTask(t, _) =>
      var a := Settle(s, t);
      Run(a.state, [], a.admitted)
    case SetLimit(n) =>
      match SetMax(s, n)
      case Ok(a) => Run(a.state, [], a.admitted)
      case Err(_) => Run(s, [], [])
  }

  /** Every event of `evs`, taken in order, is enabled when it happens. */
  predicate Runnable(s: ConcurrencyLimiter, evs: seq<Event>)
    decreases |evs|
  {
    |evs| == 0 || (Enabled(s, evs[0]) && Runnable(Step(s, evs[0]).state, evs[1..]))
  }

  /**
   A whole run. Over any run the queue behaves as one FIFO: what was
   admitted from it, followed by what still waits, is what waited at the
   start followed by everything queued during the run.
   */
  function Exec(s: ConcurrencyLimiter, evs: seq<Event>): (r: Run)
    requires Runnable(s, evs)
    ensures r.dequeued + r.state.queue == s.queue + r.enqueued
    decreases |evs|
  {
    if |evs| == 0 then
      Run(s, [], [])
    else
      var first := Step(s, evs[0]);
      var rest := Exec(first.state, evs[1..]);
      QueueAccounting(s.queue, first, rest);
      Run(rest.state, first.enqueued + rest.enqueued, first.dequeued + rest.dequeued)
  }

  /** Gluing two runs: the queue accounting of each adds up to that of both. */
  lemma QueueAccounting(q: seq<TaskId>, first: Run, rest: Run)
    requires first.dequeued + first.state.queue == q + first.enqueued
    requires rest.dequeued + rest.state.queue == first.state.queue + rest.enqueued
    ensures (first.dequeued + rest.dequeued) + rest.state.queue == q + (first.enqueued + rest.enqueued)
  {
    assert (first.dequeued + rest.dequeued) + rest.state.queue == first.dequeued + (rest.dequeued + rest.state.queue);
    assert (first.dequeued + first.state.queue) + rest.enqueued == q + (first.enqueued + rest.enqueued);
  }

  /** Every step keeps a consistent limiter consistent. */
  lemma StepPreservesValid(s: ConcurrencyLimiter, e: Event)
    requires Valid(s) && Enabled(s, e)
    ensures Valid(Step(s, e).state)
  {
    match e
    case SubmitTask(t) => SubmitPreservesValid(s, t);
    case SettleTask(t, _) => SettlePreservesValid(s, t);
    case SetLimit(n) => SetMaxPreservesValid(s, n);
  }

  /** Every run keeps a consistent limiter consistent. */
  lemma {:induction false} ExecPreservesValid(s: ConcurrencyLimiter, evs: seq<Event>)
    requires Valid(s) && Runnable(s, evs)
    ensures Valid(Exec(s, evs).state)
    decreases |evs|
  {
    if |evs| > 0 {
      StepPreservesValid(s, evs[0]);
      ExecPreservesValid(Step(s, evs[0]).state, evs[1..]);
    }
  }

  /**
   FIFO admission: starting from a fresh limiter, the tasks admitted from
   the queue are, in order, exactly the first tasks that were queued.
   */
  lemma FifoAdmission(maxConcurrent: int, evs: seq<Event>)
    requires Runnable(New(maxConcurrent), evs)
    ensures var r := Exec(New(maxConcurrent), evs);
      |r.dequeued| <= |r.enqueued| && r.dequeued == r.enqueued[..|r.dequeued|]
  {
    var r := Exec(New(maxConcurrent), evs);
    assert r.dequeued + r.state.queue == r.enqueued;
    assert r.enqueued[..|r.dequeued|] == (r.dequeued + r.state.queue)[..|r.dequeued|];
  }

  /** No preemption in one step: a running task keeps running unless it is the one settling. */
  lemma StepKeepsRunning(s: ConcurrencyLimiter, e: Event, u: TaskId)
    requires Enabled(s, e) && u in s.running
    requires !(e.SettleTask? && e.t == u)
    ensures u in Step(s, e).state.running
  {
  }

  /** No preemption: a running task keeps running through any run in which it does not settle. */
  lemma {:induction false} ExecKeepsRunning(s: ConcurrencyLimiter, evs: seq<Event>, u: TaskId)
    requires Runnable(s, evs) && u in s.running
    requires forall i | 0 <= i < |evs| :: !(evs[i].SettleTask? && evs[i].t == u)
    ensures u in Exec(s, evs).state.running
    decreases |evs|
  {
    if |evs| > 0 {
      StepKeepsRunning(s, evs[0], u);
      var rest := evs[1..];
      assert forall i | 0 <= i < |rest| :: rest[i] == evs[i + 1];
      ExecKeepsRunning(Step(s, evs[0]).state, rest, u);
    }
  }

  /**
   The count stays within the bound through every step except a lowering
   of the bound below the current count, which is accepted without
   preempting anything.
   */
  lemma StepKeepsBound(s: ConcurrencyLimiter, e: Event)
    requires Enabled(s, e) && s.activeCount <= s.maxConcurrent
    requires !(e.SetLimit? && 1 <= e.n < s.activeCount)
    ensures Step(s, e).state.activeCount <= Step(s, e).state.maxConcurrent
  {
    if e.SetLimit? && e.n >= 1 {
      DrainClosedForm(s.(maxConcurrent := e.n));
    }
  }

  /** Whether a task fulfilled or rejected makes no difference to the limiter. */
  lemma SettleOutcomeIrrelevant(s: ConcurrencyLimiter, t: TaskId)
    requires t in s.running
    ensures Step(s, SettleTask(t, true)) == Step(s, SettleTask(t, false))
  {
  }
}
