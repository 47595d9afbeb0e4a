/**
 * `JobQueue` (src/component/scheduler/queue.ts): the queue of one job group.
 * It holds the pending jobs, a lock per job id and a drain that pops the
 * most recently queued job, runs it, and keeps its id locked for the rest of
 * the throttle delay.
 *
 * The drain is asynchronous: between two of its awaits other jobs can be
 * queued.  The model therefore splits it into the steps between awaits.
 * `Queue` runs the synchronous part of `queue` (and, when the drain is idle,
 * of `_throttle` up to the first await inside `runner.start`); `RunFinished`
 * is the moment `runner.start` settles; `WaitDone` the end of the throttle
 * wait.  `Drain` runs these steps in a loop while nothing else is queued.
 * The clock is a parameter of each step.
 */
module Queue {
  import opened Js
  import opened Errors
  import Runner

  type Job = map<string, JsValue>

  /** Where the drain is between two awaits. */
  datatype Phase =
    | Idle
    | Executing(job: Job, started: int, delay: Option<int>)
    | Cooling(job: Job)
    /** `runner.start` rejected: the drain was aborted with `_running` still set. */
    | Stuck

  /** `v * 1000`: the value converted to a number, times 1000; None stands for NaN. */
  function Times1000(v: JsValue): Option<int> {
    var n := ToNumber(v);
    if n.Some? then Some(n.value * 1000) else None
  }

  /** `delay()`: `(conf.throttle ? conf.throttle.second || 1 : 1) * 1000`. */
  function Delay(conf: JsValue): Option<int> {
    var throttle := Get(conf, "throttle");
    var second := Get(throttle, "second");
    Times1000(if !Truthy(throttle) then Int(1) else if Truthy(second) then second else Int(1))
  }

  /** The key a job is locked under: its `_uuid` as a property name. */
  function LockKey(job: Job): string {
    ToStr(Field(job, "_uuid"))
  }

  /** Some pending job has the same `_uuid`, found by a scan from the front. */
  predicate Pending(pending: seq<Job>, job: Job) {
    |pending| > 0 && (StrictEquals(Field(pending[0], "_uuid"), Field(job, "_uuid")) || Pending(pending[1..], job))
  }

  /** `isLocked(job)`: the id is pending or locked. */
  predicate Locked(pending: seq<Job>, locks: set<string>, job: Job) {
    Pending(pending, job) || LockKey(job) in locks
  }

  /** `diff = timestamp + minimalTime - Date.now()` is positive, so `_seq` takes the lock. */
  predicate Cools(started: int, delay: Option<int>, now: int) {
    delay.Some? && started + delay.value - now > 0
  }

  // ---------------------------------------------------------------------
  // The drain as a function of its state

  /**
   * What the drain loop works on: the store's records, the runner's audit
   * log, the jobs started so far, the pending jobs and the phase; `k` counts
   * the steps taken, so the k-th step reads `clock(k)`.
   */
  datatype DrainState = DrainState(docs: seq<Job>, audit: seq<string>, ran: seq<Job>,
                                   pending: seq<Job>, phase: Phase, k: nat)

  /** The ids the runner addresses records by are strings. */
  predicate StringIds(st: DrainState) {
    && (forall i :: 0 <= i < |st.pending| ==> Field(st.pending[i], "_uuid").Str?)
    && (st.phase.Executing? ==> Field(st.phase.job, "_uuid").Str?)
  }

  /** Executing, then cooling, then the rest: the order in which one job's steps come. */
  function Rank(phase: Phase): nat {
    if phase.Executing? then 2 else if phase.Cooling? then 1 else 0
  }

  /** The test of the drain loop at `now`: pop the most recent job and start it, or stop idle. */
  function Popped(st: DrainState, now: int, conf: JsValue): DrainState {
    if |st.pending| > 0 then
      st.(pending := st.pending[..|st.pending| - 1], phase := Executing(st.pending[|st.pending| - 1], now, Delay(conf)))
    else st.(phase := Idle)
  }

  /**
   * How one step moves the queue: a running job is recorded as started; a
   * stuck or cooling drain keeps the queue, cooling the same job; a new
   * round pops the most recent job; the drain ends idle only on an empty
   * queue.
   */
  predicate StepShape(st: DrainState, r: DrainState) {
    && r.ran == st.ran + (if st.phase.Executing? then [st.phase.job] else [])
    && (r.phase.Stuck? || r.phase.Cooling? ==> st.phase.Executing? && r.pending == st.pending)
    && (r.phase.Cooling? ==> r.phase.job == st.phase.job)
    && (r.phase.Executing? ==>
         |st.pending| > 0 && r.pending == st.pending[..|st.pending| - 1] && r.phase.job == st.pending[|st.pending| - 1])
    && (r.phase.Idle? ==> st.pending == [] && r.pending == [])
  }

  /** The jobs started so far, then the running one, then the pending ones last-queued first. */
  function Order(st: DrainState): seq<Job> {
    st.ran + (if st.phase.Executing? then [st.phase.job] else []) + Reversed(st.pending)
  }

  /**
   * One step of the drain: the running job's start settles (a rejection
   * aborts; the job cools while its delay lasts), or a throttle wait ends.
   */
  function Step(st: DrainState, conf: JsValue, handler: Job -> Runner.Outcome, clock: nat -> int): (r: DrainState)
    requires StringIds(st) && (st.phase.Executing? || st.phase.Cooling?)
    ensures StringIds(r) && r.k == st.k + 1
    ensures |r.pending| < |st.pending| || (|r.pending| == |st.pending| && Rank(r.phase) < Rank(st.phase))
    ensures StepShape(st, r)
  {
    var now := clock(st.k);
    var next := st.(k := st.k + 1);
    if st.phase.Cooling? then Popped(next, now, conf)
    else
      var job := st.phase.job;
      var e := Runner.StartEffect(st.docs, job, handler(job), now);
      var started := next.(docs := e.docs, audit := st.audit + e.audit, ran := st.ran + [job]);
      if e.result.Err? then started.(phase := Stuck)
      else if Cools(st.phase.started, st.phase.delay, now) then started.(phase := Cooling(job))
      else Popped(started, now, conf)
  }

  /** The drain run to its end: steps until it is idle or stuck. */
  function Drained(st: DrainState, conf: JsValue, handler: Job -> Runner.Outcome, clock: nat -> int): (r: DrainState)
    requires StringIds(st)
    ensures r.phase.Idle? || r.phase.Stuck?
    decreases |st.pending|, Rank(st.phase)
  {
    if st.phase.Executing? || st.phase.Cooling? then Drained(Step(st, conf, handler, clock), conf, handler, clock)
    else st
  }

  /** `Step` on a running job, branch by branch. */
  lemma StepOfExecuting(st: DrainState, conf: JsValue, handler: Job -> Runner.Outcome, clock: nat -> int)
    requires StringIds(st) && st.phase.Executing?
    ensures var now := clock(st.k);
      var job := st.phase.job;
      var e := Runner.StartEffect(st.docs, job, handler(job), now);
      var r := Step(st, conf, handler, clock);
      && r.docs == e.docs && r.audit == st.audit + e.audit && r.ran == st.ran + [job] && r.k == st.k + 1
      && (e.result.Err? ==> r.pending == st.pending && r.phase == Stuck)
      && (e.result.Ok? && Cools(st.phase.started, st.phase.delay, now) ==>
            r.pending == st.pending && r.phase == Cooling(job))
      && (e.result.Ok? && !Cools(st.phase.started, st.phase.delay, now) ==>
            r == Popped(st.(docs := e.docs, audit := st.audit + e.audit, ran := st.ran + [job], k := st.k + 1), now, conf))
  {
  }

  /** A step of the drain leaves what the drain ends with unchanged. */
  lemma DrainedStep(st: DrainState, conf: JsValue, handler: Job -> Runner.Outcome, clock: nat -> int)
    requires StringIds(st) && (st.phase.Executing? || st.phase.Cooling?)
    ensures Drained(st, conf, handler, clock) == Drained(Step(st, conf, handler, clock), conf, handler, clock)
  {
  }

  /** What a group queue holds between two awaits: its configuration, its pending jobs, its locks and where its drain is. */
  datatype QueueState = QueueState(conf: JsValue, pending: seq<Job>, locks: set<string>, phase: Phase)

  /** A queue just created with configuration `conf`: idle, nothing pending, nothing locked. */
  function Fresh(conf: JsValue): QueueState {
    QueueState(conf, [], {}, Idle)
  }

  /**
   * `queue(job)` on a queue in state `s`: a pending or locked id is refused
   * and nothing changes; a running drain gets the job appended; an idle one
   * pops it at once and starts it at `now`.
   */
  function Admitted(s: QueueState, job: Job, now: int): (bool, QueueState) {
    if Locked(s.pending, s.locks, job) then (false, s)
    else if !s.phase.Idle? then (true, s.(pending := s.pending + [job]))
    else (true, s.(pending := [], locks := {}, phase := Executing(job, now, Delay(s.conf))))
  }

  function Reversed(s: seq<Job>): (r: seq<Job>)
    ensures |r| == |s|
  {
    if |s| == 0 then [] else [s[|s| - 1]] + Reversed(s[..|s| - 1])
  }

  class JobQueue {
    /** The group the queue serves. */
    const group: string
    const conf: JsValue
    const runner: Runner.JobRunner
    var running: bool
    var pending: seq<Job>
    var locks: set<string>
    /** The point the asynchronous drain has reached. */
    var phase: Phase

    /**
     * The drain runs exactly when it is not idle; an idle queue has nothing
     * pending; the only lock is the one of the job in its throttle wait.
     */
    ghost predicate Valid()
      reads this
    {
      && (running <==> !phase.Idle?)
      && (phase.Idle? ==> pending == [])
      && (phase.Cooling? ==> locks == {LockKey(phase.job)})
      && (!phase.Cooling? ==> locks == {})
      && (forall i :: 0 <= i < |pending| ==> Field(pending[i], "_uuid").Str?)
      && (phase.Executing? ==> Field(phase.job, "_uuid").Str?)
    }

    /** The queue's pending jobs, locks and phase as a value. */
    ghost function Snapshot(): QueueState
      reads this
    {
      QueueState(conf, pending, locks, phase)
    }

    constructor(group: string, conf: JsValue, runner: Runner.JobRunner)
      ensures Valid()
      ensures this.group == group && this.conf == conf && this.runner == runner
      ensures !running && pending == [] && locks == {} && phase == Idle
      ensures Snapshot() == Fresh(conf)
    {
      this.group := group;
      this.conf := conf;
      this.runner := runner;
      running := false;
      pending := [];
      locks := {};
      phase := Idle;
    }

    /** `isLocked(job)`: a scan of the pending jobs, then the lock map. */
    method IsLocked(job: Job) returns (r: bool)
      ensures r == Locked(pending, locks, job)
    {
      var i := 0;
      while i < |pending|
        invariant 0 <= i <= |pending|
        invariant Pending(pending, job) == Pending(pending[i..], job)
      {
        if StrictEquals(Field(pending[i], "_uuid"), Field(job, "_uuid")) {
          return true;
        }
        i := i + 1;
      }
      return LockKey(job) in locks;
    }

    /**
     * `queue(job)`: rejected, with nothing changed, exactly when the id is
     * pending or locked.  Otherwise the job is appended; an idle drain starts
     * at once and pops it again, so it is running and no longer pending.
     */
    method Queue(job: Job, now: int) returns (accepted: bool)
      requires Valid() && Field(job, "_uuid").Str?
      modifies this
      ensures Valid()
      ensures accepted == !Locked(old(pending), old(locks), job)
      ensures !accepted ==>
        pending == old(pending) && locks == old(locks) && running == old(running) && phase == old(phase)
      ensures accepted && old(running) ==>
        pending == old(pending) + [job] && locks == old(locks) && running && phase == old(phase)
      ensures accepted && !old(running) ==>
        pending == [] && locks == {} && running && phase == Executing(job, now, Delay(conf))
      ensures (accepted, Snapshot()) == Admitted(old(Snapshot()), job, now)
    {
      accepted := IsLocked(job);
      accepted := !accepted;
      if !accepted {
        return;
      }
      pending := pending + [job];
      if !running {
        running := true;
        Advance(now);
      }
    }

    /** `lock(job)`. */
    method Lock(job: Job)
      modifies this
      ensures locks == old(locks) + {LockKey(job)}
      ensures pending == old(pending) && running == old(running) && phase == old(phase)
    {
      locks := locks + {LockKey(job)};
    }

    /** `unlock(job)`. */
    method Unlock(job: Job)
      modifies this
      ensures locks == old(locks) - {LockKey(job)}
      ensures pending == old(pending) && running == old(running) && phase == old(phase)
    {
      locks := locks - {LockKey(job)};
    }

    /**
     * The test of the drain loop and the start of its next round: pop the
     * most recent job and start it, or clear `_running` when nothing is left.
     */
    method Advance(now: int)
      requires running && locks == {}
      requires forall i :: 0 <= i < |pending| ==> Field(pending[i], "_uuid").Str?
      modifies this
      ensures Valid()
      ensures |old(pending)| > 0 ==>
        && pending == old(pending)[..|old(pending)| - 1]
        && phase == Executing(old(pending)[|old(pending)| - 1], now, Delay(conf))
        && running
      ensures |old(pending)| == 0 ==> pending == [] && phase == Idle && !running
      ensures locks == {}
    {
      if |pending| > 0 {
        var job := pending[|pending| - 1];
        pending := pending[..|pending| - 1];
        phase := Executing(job, now, Delay(conf));
      } else {
        running := false;
        phase := Idle;
      }
    }

    /**
     * `runner.start(job)` settles at `now`.  A rejection aborts the drain;
     * otherwise the id is locked when the run ended before the delay was
     * over, and the loop goes on at once when it was not.
     */
    method RunFinished(outcome: Runner.Outcome, now: int) returns (r: Result<JsValue>)
      requires Valid() && phase.Executing?
      modifies this, runner, runner.db
      ensures Valid()
      ensures var e := Runner.StartEffect(old(runner.db.docs), old(phase).job, outcome, now);
        runner.db.docs == e.docs && runner.audit == old(runner.audit) + e.audit && r == e.result
      ensures r.Err? ==> phase == Stuck && running && pending == old(pending) && locks == {}
      ensures r.Ok? && Cools(old(phase).started, old(phase).delay, now) ==>
        phase == Cooling(old(phase).job) && locks == {LockKey(old(phase).job)} && pending == old(pending)
      ensures r.Ok? && !Cools(old(phase).started, old(phase).delay, now) && |old(pending)| > 0 ==>
        && pending == old(pending)[..|old(pending)| - 1]
        && phase == Executing(old(pending)[|old(pending)| - 1], now, Delay(conf))
      ensures r.Ok? && !Cools(old(phase).started, old(phase).delay, now) && |old(pending)| == 0 ==>
        pending == [] && phase == Idle && !running && locks == {}
    {
      r := runner.Start(phase.job, outcome, now);
      Settle(r.Err?, now);
    }

    /** What `_seq` and the drain loop do once `runner.start` has settled, rejected or not. */
    method Settle(rejected: bool, now: int)
      requires Valid() && phase.Executing?
      modifies this
      ensures Valid()
      ensures rejected ==> phase == Stuck && running && pending == old(pending) && locks == {}
      ensures !rejected && Cools(old(phase).started, old(phase).delay, now) ==>
        phase == Cooling(old(phase).job) && locks == {LockKey(old(phase).job)} && pending == old(pending)
      ensures !rejected && !Cools(old(phase).started, old(phase).delay, now) && |old(pending)| > 0 ==>
        && pending == old(pending)[..|old(pending)| - 1]
        && phase == Executing(old(pending)[|old(pending)| - 1], now, Delay(conf))
      ensures !rejected && !Cools(old(phase).started, old(phase).delay, now) && |old(pending)| == 0 ==>
        pending == [] && phase == Idle && !running && locks == {}
    {
      if rejected {
        phase := Stuck;
        return;
      }
      var job := phase.job;
      if Cools(phase.started, phase.delay, now) {
        Lock(job);
        phase := Cooling(job);
      } else {
        Advance(now);
      }
    }

    /** The throttle wait of `_seq` is over at `now`: unlock the id and go on with the loop. */
    method WaitDone(now: int)
      requires Valid() && phase.Cooling?
      modifies this
      ensures Valid()
      ensures |old(pending)| > 0 ==>
        && pending == old(pending)[..|old(pending)| - 1]
        && phase == Executing(old(pending)[|old(pending)| - 1], now, Delay(conf))
      ensures |old(pending)| == 0 ==> pending == [] && phase == Idle && !running
      ensures locks == {}
    {
      Unlock(phase.job);
      Advance(now);
    }

    /** The state the drain works on, with the jobs started so far. */
    ghost function State(ran: seq<Job>, k: nat): DrainState
      reads this, runner, runner.db
    {
      DrainState(runner.db.docs, runner.audit, ran, pending, phase, k)
    }

    /**
     * The drain loop of `_throttle` run to its end while nothing else is
     * queued: each job's handler outcome comes from `handler`, and the clock
     * reads `clock(k)` at the k-th step.  The store, the audit log, the
     * queue and the phase end as `Drained` says.
     */
    method Drain(handler: Job -> Runner.Outcome, clock: nat -> int)
      requires Valid()
      modifies this, runner, runner.db
      ensures Valid()
      ensures var d := Drained(DrainState(old(runner.db.docs), old(runner.audit), [], old(pending), old(phase), 0),
                               conf, handler, clock);
        runner.db.docs == d.docs && runner.audit == d.audit && pending == d.pending && phase == d.phase
      ensures phase.Idle? ==> pending == [] && !running && locks == {}
    {
      var k := 0;
      ghost var ran: seq<Job> := [];
      ghost var goal := Drained(State(ran, k), conf, handler, clock);
      while phase.Executing? || phase.Cooling?
        invariant Valid()
        invariant Drained(State(ran, k), conf, handler, clock) == goal
        decreases |pending|, Rank(phase)
      {
        DrainedStep(State(ran, k), conf, handler, clock);
        ran := Round(handler, clock, k, ran);
        k := k + 1;
      }
    }

    /** One pass of the drain loop's body: the step `Step` describes. */
    method Round(handler: Job -> Runner.Outcome, clock: nat -> int, k: nat, ghost ran: seq<Job>) returns (ghost ran': seq<Job>)
      requires Valid() && (phase.Executing? || phase.Cooling?)
      modifies this, runner, runner.db
      ensures Valid()
      ensures State(ran', k + 1) == Step(old(State(ran, k)), conf, handler, clock)
    {
      ghost var before := State(ran, k);
      if phase.Executing? {
        StepOfExecuting(before, conf, handler, clock);
        ran' := ran + [phase.job];
        var _ := RunFinished(handler(phase.job), clock(k));
      } else {
        ran' := ran;
        WaitDone(clock(k));
      }
    }
  }

  // ---------------------------------------------------------------------
  // Properties

  /** `delay()` is 1000 without a throttle or without a truthy `second`, and otherwise 1000 × the number `second` converts to, or NaN. */
  lemma DelayRule(conf: JsValue)
    ensures !Truthy(Get(conf, "throttle")) ==> Delay(conf) == Some(1000)
    ensures Truthy(Get(conf, "throttle")) && !Truthy(Get(Get(conf, "throttle"), "second")) ==> Delay(conf) == Some(1000)
    ensures (Truthy(Get(conf, "throttle")) && Truthy(Get(Get(conf, "throttle"), "second")) &&
             Get(Get(conf, "throttle"), "second").Int?) ==>
      Delay(conf) == Some(1000 * Get(Get(conf, "throttle"), "second").i)
    ensures Truthy(Get(conf, "throttle")) && Truthy(Get(Get(conf, "throttle"), "second")) ==>
      var n := ToNumber(Get(Get(conf, "throttle"), "second"));
      Delay(conf) == if n.Some? then Some(1000 * n.value) else None
  {
  }

  /** An object as `second` makes the delay NaN: its string form is no number, so the drain never cools. */
  lemma DelayOfObject(conf: JsValue)
    requires Truthy(Get(conf, "throttle")) && Get(Get(conf, "throttle"), "second").Obj?
    ensures Delay(conf) == None
    ensures forall started, now :: !Cools(started, Delay(conf), now)
  {
    ObjectIsNaN(Get(Get(conf, "throttle"), "second").props);
  }

  /** A `second` given as a decimal string counts as its number: "2" waits 2000 ms. */
  lemma DelayFromString(n: int)
    requires n != 0
    ensures Delay(Obj(map["throttle" := Obj(map["second" := Str(IntStr(n))])])) == Some(1000 * n)
  {
    var second := Str(IntStr(n));
    var throttle := Obj(map["second" := second]);
    var conf := Obj(map["throttle" := throttle]);
    assert Get(conf, "throttle") == throttle && Get(throttle, "second") == second;
    assert IntStr(n) != "";
    NumberOfIntStr(n);
    assert Times1000(second) == Some(n * 1000);
  }

  /** A step keeps the order in which the jobs are to start, and has started a prefix of it. */
  lemma StepKeepsOrder(st: DrainState, next: DrainState)
    requires StepShape(st, next) && (st.phase.Executing? || st.phase.Cooling?)
    ensures next.ran <= Order(st)
    ensures next.phase.Executing? || next.phase.Cooling? ==> Order(next) == Order(st)
    ensures next.phase.Idle? ==> next.ran == Order(st)
  {
    var p := st.pending;
    if |p| > 0 {
      assert Reversed(p) == [p[|p| - 1]] + Reversed(p[..|p| - 1]);
    }
  }

  /**
   * The drain starts the jobs last-queued first: the jobs it starts are a
   * prefix of the running job followed by the pending ones in reverse, and
   * all of them when it ends idle.
   */
  lemma {:induction false} DrainLifo(st: DrainState, conf: JsValue, handler: Job -> Runner.Outcome, clock: nat -> int)
    requires StringIds(st) && (st.phase.Executing? || st.phase.Cooling?)
    ensures var d := Drained(st, conf, handler, clock);
      d.ran <= Order(st) && (d.phase.Idle? ==> d.ran == Order(st))
    decreases |st.pending|, Rank(st.phase)
  {
    var next := Step(st, conf, handler, clock);
    StepKeepsOrder(st, next);
    if next.phase.Executing? || next.phase.Cooling? {
      DrainLifo(next, conf, handler, clock);
    }
  }

  /** Locks are per id: a job with another id that is not pending is accepted while one id is locked. */
  lemma LockPerId(pending: seq<Job>, locked: Job, other: Job)
    requires LockKey(other) != LockKey(locked)
    ensures Locked(pending, {LockKey(locked)}, other) <==> Pending(pending, other)
  {
  }

  /**
   * While a job runs its id is neither pending (unless queued again) nor
   * locked, so queueing the same id again is accepted.
   */
  lemma RunningJobRequeueable(q: JobQueue)
    requires q.Valid() && q.phase.Executing?
    ensures Locked(q.pending, q.locks, q.phase.job) <==> Pending(q.pending, q.phase.job)
  {
  }

  /** Pending ids are told apart by strict equality of `_uuid`: a queued job is pending afterwards. */
  lemma QueuedIsPending(pending: seq<Job>, job: Job)
    requires Field(job, "_uuid").Str?
    ensures Pending(pending + [job], job)
  {
    if |pending| > 0 {
      assert (pending + [job])[1..] == pending[1..] + [job];
      QueuedIsPending(pending[1..], job);
    }
  }
}
