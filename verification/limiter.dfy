/**
 The bookkeeping of the concurrency limiter (`ConcurrencyLimiter` in
 app/lib/concurrency-limiter.ts): a bound `maxConcurrent`, a counter
 `activeCount` of running tasks and a FIFO queue of waiting tasks.

 JavaScript runs one callback at a time, so every operation below is one
 atomic step. Tasks are abstract ids; the set `running` is the model's view
 of which tasks the counter counts.
 */
module Concurrency {
  import opened Base

  type TaskId = nat

  datatype ConcurrencyLimiter = ConcurrencyLimiter(
    maxConcurrent: int,
    activeCount: int,
    running: set<TaskId>,
    queue: seq<TaskId>)

  /** What `getStats` reports. */
  datatype Stats = Stats(maxConcurrent: int, activeCount: int, queuedCount: nat, availableSlots: int)

  /** A step that may admit tasks from the queue, together with the tasks it admitted, in order. */
  datatype Admission = Admission(state: ConcurrencyLimiter, admitted: seq<TaskId>)

  /** How a task came to run: at once in `run`, or later from the queue. */
  datatype AdmissionPath = Immediate | FromQueue

  /** What a task's promise settled with. A rejection is either an `Error` object or any other thrown value (kept as its `String(v)` text). */
  datatype Thrown = ErrorObject(message: string) | OtherValue(text: string)
  datatype TaskOutcome<T> = Fulfilled(value: T) | Rejected(reason: Thrown)

  const MaxTooSmallMessage := "Max concurrent must be at least 1"

  function Members(a: seq<TaskId>): set<TaskId> {
    set x | x in a
  }

  lemma MembersConcat(a: seq<TaskId>, b: seq<TaskId>)
    ensures Members(a + b) == Members(a) + Members(b)
  {
  }

  lemma Reassociate(a: seq<TaskId>, b: seq<TaskId>, c: seq<TaskId>)
    ensures a + (b + c) == (a + b) + c
  {
  }

  function Min(a: int, b: int): int { if a <= b then a else b }
  function Max(a: int, b: int): int { if a <= b then b else a }

  /** The counter counts exactly the running tasks; queued tasks are distinct and not running. */
  predicate WellFormed(s: ConcurrencyLimiter) {
    && s.activeCount == |s.running|
    && (forall i | 0 <= i < |s.queue| :: s.queue[i] !in s.running)
    && (forall i, j | 0 <= i < j < |s.queue| :: s.queue[i] != s.queue[j])
  }

  /** A task waits only while every slot is taken: the invariant that stops a new task overtaking a queued one. */
  predicate QueueOnlyWhenFull(s: ConcurrencyLimiter) {
    |s.queue| > 0 ==> s.activeCount >= s.maxConcurrent
  }

  predicate Valid(s: ConcurrencyLimiter) {
    WellFormed(s) && QueueOnlyWhenFull(s)
  }

  /** The queue is empty or no slot is free: nothing more can be admitted. */
  predicate Drained(s: ConcurrencyLimiter) {
    |s.queue| == 0 || s.activeCount >= s.maxConcurrent
  }

  /** The constructor: nothing runs and nothing waits. The bound is taken as given, unchecked. */
  function New(maxConcurrent: int): (s: ConcurrencyLimiter)
    ensures Valid(s)
    ensures s.maxConcurrent == maxConcurrent && s.activeCount == 0 && s.running == {} && s.queue == []
  {
    ConcurrencyLimiter(maxConcurrent, 0, {}, [])
  }

  /** `getStats`: a read of the state; with a waiting task there is never a free slot. */
  function GetStats(s: ConcurrencyLimiter): (r: Stats)
    ensures r.maxConcurrent == s.maxConcurrent && r.activeCount == s.activeCount
    ensures r.queuedCount == |s.queue|
    ensures r.availableSlots == r.maxConcurrent - r.activeCount
    ensures Valid(s) && r.queuedCount > 0 ==> r.availableSlots <= 0
  {
    Stats(s.maxConcurrent, s.activeCount, |s.queue|, s.maxConcurrent - s.activeCount)
  }

  /**
   `run(fn)` up to its first suspension: below the bound the task starts at
   once and takes a slot; otherwise it joins the back of the queue.
   */
  function Submit(s: ConcurrencyLimiter, t: TaskId): (r: ConcurrencyLimiter)
    ensures r.maxConcurrent == s.maxConcurrent
    ensures s.activeCount < s.maxConcurrent ==>
      r.activeCount == s.activeCount + 1 && r.running == s.running + {t} && r.queue == s.queue
    ensures s.activeCount >= s.maxConcurrent ==>
      r.activeCount == s.activeCount && r.running == s.running && r.queue == s.queue + [t]
  {
    if s.activeCount < s.maxConcurrent then
      s.(activeCount := s.activeCount + 1, running := s.running + {t})
    else
      s.(queue := s.queue + [t])
  }

  /**
   `processQueue`: when a slot is free and a task waits, the head of the
   queue (and only the head) starts; otherwise nothing changes.
   */
  function ProcessQueue(s: ConcurrencyLimiter): (r: Admission)
    ensures |r.admitted| <= 1
    ensures r.admitted == [] <==> Drained(s)
    ensures r.admitted == [] ==> r.state == s
    ensures s.queue == r.admitted + r.state.queue
    ensures r.state.activeCount == s.activeCount + |r.admitted|
    ensures r.state.running == s.running + Members(r.admitted)
    ensures r.state.maxConcurrent == s.maxConcurrent
  {
    if |s.queue| == 0 || s.activeCount >= s.maxConcurrent then
      Admission(s, [])
    else
      var head := s.queue[0];
      assert s.queue == [head] + s.queue[1..];
      Admission(s.(activeCount := s.activeCount + 1, running := s.running + {head}, queue := s.queue[1..]), [head])
  }

  /**
   A running task settles (fulfilled or rejected alike, the `finally` of
   `run` and of `processQueue`): its slot is released and then at most one
   task, the head of the queue, is admitted.
   */
  function Settle(s: ConcurrencyLimiter, t: TaskId): (r: Admission)
    requires t in s.running
    ensures |r.admitted| <= 1
    ensures r.admitted != [] <==> |s.queue| > 0 && s.activeCount - 1 < s.maxConcurrent
    ensures s.queue == r.admitted + r.state.queue
    ensures r.state.activeCount == s.activeCount - 1 + |r.admitted|
    ensures r.state.running == (s.running - {t}) + Members(r.admitted)
    ensures r.state.maxConcurrent == s.maxConcurrent
  {
    ProcessQueue(s.(activeCount := s.activeCount - 1, running := s.running - {t}))
  }

  /**
   The outcome the caller of `run` receives. An immediately started task
   rethrows its own rejection verbatim; a queued task's wrapper turns a
   thrown non-`Error` value into `new Error(String(v))`.
   */
  function Deliver<T>(path: AdmissionPath, o: TaskOutcome<T>): (r: TaskOutcome<T>)
    ensures r.Fulfilled? <==> o.Fulfilled?
    ensures path == FromQueue && r.Rejected? ==> r.reason.ErrorObject?
    ensures path == Immediate ==> r == o
    ensures o.Fulfilled? || o.reason.ErrorObject? ==> r == o
    ensures path == FromQueue && o.Rejected? && o.reason.OtherValue? ==> r == Rejected(ErrorObject(o.reason.text))
  {
    match o
    case Rejected(OtherValue(text)) => if path == FromQueue then Rejected(ErrorObject(text)) else o
    case _ => o
  }

  /**
   The drain loop of `setMaxConcurrent` as a recursive reference: while a
   slot is free and a task waits, `processQueue` admits the head.
   */
  function Drain(s: ConcurrencyLimiter): (r: Admission)
    ensures Drained(r.state)
    ensures s.queue == r.admitted + r.state.queue
    ensures r.state.activeCount == s.activeCount + |r.admitted|
    ensures r.state.running == s.running + Members(r.admitted)
    ensures r.state.maxConcurrent == s.maxConcurrent
    decreases |s.queue|
  {
    if s.activeCount < s.maxConcurrent && |s.queue| > 0 then
      var step := ProcessQueue(s);
      assert step.admitted == [s.queue[0]];
      var rest := Drain(step.state);
      MembersConcat(step.admitted, rest.admitted);
      Reassociate(step.admitted, rest.admitted, rest.state.queue);
      Admission(rest.state, step.admitted + rest.admitted)
    else
      Admission(s, [])
  }

  /** Draining admits as many tasks as there are free slots, or the whole queue if it is shorter. */
  lemma {:induction false} DrainAdmitsFreeSlots(s: ConcurrencyLimiter)
    ensures |Drain(s).admitted| == Min(|s.queue|, Max(0, s.maxConcurrent - s.activeCount))
    decreases |s.queue|
  {
    if s.activeCount < s.maxConcurrent && |s.queue| > 0 {
      var step := ProcessQueue(s);
      DrainAdmitsFreeSlots(step.state);
      assert |Drain(s).admitted| == 1 + |Drain(step.state).admitted|;
    }
  }

  /** The state after the first `k` queued tasks are admitted under bound `n`. */
  function AfterAdmitting(s: ConcurrencyLimiter, n: int, k: nat): ConcurrencyLimiter
    requires k <= |s.queue|
  {
    ConcurrencyLimiter(n, s.activeCount + k, s.running + Members(s.queue[..k]), s.queue[k..])
  }

  /** One pass of the drain loop admits the next queued task. */
  lemma AdmitNext(s: ConcurrencyLimiter, n: int, k: nat)
    requires k < |s.queue| && s.activeCount + k < n
    ensures ProcessQueue(AfterAdmitting(s, n, k)) == Admission(AfterAdmitting(s, n, k + 1), [s.queue[k]])
    ensures s.queue[..k + 1] == s.queue[..k] + [s.queue[k]]
  {
    assert s.queue[..k + 1] == s.queue[..k] + [s.queue[k]];
    assert Members(s.queue[..k + 1]) == Members(s.queue[..k]) + {s.queue[k]};
    assert s.queue[k..][1..] == s.queue[k + 1..];
  }

  /** Draining admits exactly as many queued tasks as there are free slots, taken from the front. */
  lemma DrainClosedForm(s: ConcurrencyLimiter)
    ensures var k := Min(|s.queue|, Max(0, s.maxConcurrent - s.activeCount));
      Drain(s) == Admission(AfterAdmitting(s, s.maxConcurrent, k), s.queue[..k])
  {
    var r := Drain(s);
    DrainAdmitsFreeSlots(s);
    assert r.admitted == s.queue[..|r.admitted|];
  }

  /**
   `setMaxConcurrent` as a function: a bound below 1 is refused (the state
   is left as it was); otherwise the bound is replaced and the queue drained.
   */
  function SetMax(s: ConcurrencyLimiter, n: int): (r: Result<Admission, string>)
    ensures n < 1 <==> r.Err?
    ensures r.Err? ==> r.error == MaxTooSmallMessage
    ensures r.Ok? ==> r.value.state.maxConcurrent == n && Drained(r.value.state)
  {
    if n < 1 then Err(MaxTooSmallMessage) else Ok(Drain(s.(maxConcurrent := n)))
  }

  /**
   The `while` loop of `setMaxConcurrent`. Each pass admits the head of the
   queue, so the queue shrinks and the loop ends; the tasks admitted are a
   prefix of the old queue, in order.
   */
  method DrainQueue(s: ConcurrencyLimiter) returns (r: Admission)
    ensures r == Drain(s)
    ensures Drained(r.state) && r.state.maxConcurrent == s.maxConcurrent
    ensures s.queue == r.admitted + r.state.queue
    ensures r.state.activeCount == s.activeCount + |r.admitted|
  {
    var cur := s;
    var admitted: seq<TaskId> := [];
    assert cur == AfterAdmitting(s, s.maxConcurrent, 0) by {
      assert s.queue[..0] == [] && s.queue[0..] == s.queue;
    }
    while cur.activeCount < cur.maxConcurrent && |cur.queue| > 0
      invariant |admitted| <= |s.queue| && admitted == s.queue[..|admitted|]
      invariant |admitted| == 0 || s.activeCount + |admitted| <= s.maxConcurrent
      invariant cur == AfterAdmitting(s, s.maxConcurrent, |admitted|)
      decreases |cur.queue|
    {
      AdmitNext(s, s.maxConcurrent, |admitted|);
      var step := ProcessQueue(cur);
      cur := step.state;
      admitted := admitted + step.admitted;
    }
    DrainLoopExit(s, |admitted|);
    r := Admission(cur, admitted);
  }

  /** When the drain loop stops after admitting `k` tasks, it has computed the reference drain. */
  lemma DrainLoopExit(s: ConcurrencyLimiter, k: nat)
    requires k <= |s.queue|
    requires k == 0 || s.activeCount + k <= s.maxConcurrent
    requires !(s.activeCount + k < s.maxConcurrent && k < |s.queue|)
    ensures Drain(s) == Admission(AfterAdmitting(s, s.maxConcurrent, k), s.queue[..k])
  {
    assert k == Min(|s.queue|, Max(0, s.maxConcurrent - s.activeCount));
    DrainClosedForm(s);
  }

  /**
   `setMaxConcurrent`: a bound below 1 is refused before anything is
   assigned; otherwise the bound is replaced and the queue drained.
   */
  method SetMaxConcurrent(s: ConcurrencyLimiter, n: int) returns (r: Result<Admission, string>)
    ensures r == SetMax(s, n)
    ensures n < 1 ==> r == Err(MaxTooSmallMessage)
    ensures n >= 1 ==> r.Ok? && r.value.state.maxConcurrent == n && Drained(r.value.state)
  {
    if n < 1 {
      return Err(MaxTooSmallMessage);
    }
    var a := DrainQueue(s.(maxConcurrent := n));
    return Ok(a);
  }

  /** A fresh task submitted to a consistent limiter leaves it consistent. */
  lemma SubmitPreservesValid(s: ConcurrencyLimiter, t: TaskId)
    requires Valid(s) && t !in s.running && t !in s.queue
    ensures Valid(Submit(s, t))
  {
    var r := Submit(s, t);
    if s.activeCount >= s.maxConcurrent {
      forall i, j | 0 <= i < j < |r.queue|
        ensures r.queue[i] != r.queue[j]
      {
        if j == |s.queue| {
          assert r.queue[i] == s.queue[i];
        }
      }
    }
  }

  /** While a task waits, a new task can only queue behind it: it never starts first. */
  lemma SubmitNeverOvertakes(s: ConcurrencyLimiter, t: TaskId)
    requires Valid(s) && |s.queue| > 0
    ensures Submit(s, t).queue == s.queue + [t]
    ensures Submit(s, t).running == s.running
  {
  }

  /** Admitting the head keeps the counter, the running set and the queue consistent. */
  lemma ProcessQueuePreservesWellFormed(s: ConcurrencyLimiter)
    requires WellFormed(s)
    ensures WellFormed(ProcessQueue(s).state)
  {
    var r := ProcessQueue(s);
    if r.admitted != [] {
      var head := s.queue[0];
      assert r.state.queue == s.queue[1..];
      assert head !in s.running;
      assert r.state.running == s.running + {head};
      forall i | 0 <= i < |r.state.queue|
        ensures r.state.queue[i] !in r.state.running
      {
        assert r.state.queue[i] == s.queue[i + 1];
      }
    }
  }

  /** Settling a running task of a consistent limiter leaves it consistent, with the task gone. */
  lemma SettlePreservesValid(s: ConcurrencyLimiter, t: TaskId)
    requires Valid(s) && t in s.running
    ensures Valid(Settle(s, t).state)
    ensures t !in Settle(s, t).state.running
  {
    var mid := s.(activeCount := s.activeCount - 1, running := s.running - {t});
    assert WellFormed(mid);
    ProcessQueuePreservesWellFormed(mid);
    var r := Settle(s, t);
    if r.admitted != [] {
      assert r.admitted[0] == s.queue[0];
    }
  }

  /** Draining from a consistent state ends consistent, the queue invariant restored. */
  lemma {:induction false} DrainPreservesValid(s: ConcurrencyLimiter)
    requires WellFormed(s)
    ensures Valid(Drain(s).state)
    decreases |s.queue|
  {
    if s.activeCount < s.maxConcurrent && |s.queue| > 0 {
      ProcessQueuePreservesWellFormed(s);
      DrainPreservesValid(ProcessQueue(s).state);
    }
  }

  /** Changing the bound never breaks consistency, whether it is refused or accepted. */
  lemma SetMaxPreservesValid(s: ConcurrencyLimiter, n: int)
    requires Valid(s)
    ensures SetMax(s, n).Ok? ==> Valid(SetMax(s, n).value.state)
  {
    if n >= 1 {
      DrainPreservesValid(s.(maxConcurrent := n));
    }
  }

  /** `run` never pushes the count past the bound when it starts within it. */
  lemma SubmitKeepsBound(s: ConcurrencyLimiter, t: TaskId)
    requires s.activeCount <= s.maxConcurrent
    ensures Submit(s, t).activeCount <= Submit(s, t).maxConcurrent
  {
  }

  /** Settlement never pushes the count past the bound when it starts within it. */
  lemma SettleKeepsBound(s: ConcurrencyLimiter, u: TaskId)
    requires s.activeCount <= s.maxConcurrent && u in s.running
    ensures Settle(s, u).state.activeCount <= Settle(s, u).state.maxConcurrent
  {
  }

  /**
   Lowering the bound never preempts: five running tasks stay running under
   a bound of two, and the reported free slots go negative.
   */
  lemma LoweringBoundDoesNotPreempt()
    ensures var s := ConcurrencyLimiter(5, 5, {1, 2, 3, 4, 5}, [6]);
      && SetMax(s, 2).Ok?
      && SetMax(s, 2).value.state.running == s.running
      && SetMax(s, 2).value.state.activeCount > SetMax(s, 2).value.state.maxConcurrent
      && GetStats(SetMax(s, 2).value.state).availableSlots == -3
  {
    var s := ConcurrencyLimiter(5, 5, {1, 2, 3, 4, 5}, [6]);
    assert Drain(s.(maxConcurrent := 2)) == Admission(s.(maxConcurrent := 2), []);
  }
}
