/**
 * `Scheduler` (src/component/scheduler/index.ts): the registry of job
 * types, the lazily created queue of each job group, the claim protocol
 * that moves a ready job into its queue, the heartbeat poll for ready jobs,
 * the built-in "signal" job type and the loading of configured jobs.
 *
 * The store is the `_jobs` collection behind `Jobs`; the clock, the claim
 * tokens (uuid v4 in the code) and fresh ids are parameters, and so are the
 * handlers the configuration names (the code loads them with `require`).
 * Each `await` is one step of the methods below.
 */
module Scheduler {
  import opened Js
  import opened Errors
  import Strip
  import JobValidator
  import Store
  import Jobs
  import Runner
  import Queue

  type Job = map<string, JsValue>

  /** A registered job type: its name and its handler, given by the outcome it has on each job. */
  datatype JobType = JobType(name: JsValue, handler: JsValue -> Runner.Outcome)

  /**
   * The job type a `job_types` entry declares: its name, and the handler
   * `require` loads from `root + entry.handler`, where `+` is JavaScript's
   * (it adds when both operands are numbers).
   */
  function Declared(entry: JsValue, root: JsValue, load: JsValue -> (JsValue -> Runner.Outcome)): JobType {
    JobType(Get(entry, "name"), load(Plus(root, Get(entry, "handler"))))
  }

  /** The job types after the entries of `codes` are registered in order on top of `types`. */
  function Registrations(types: map<string, JobType>, entries: map<string, JsValue>, codes: seq<string>,
                         root: JsValue, load: JsValue -> (JsValue -> Runner.Outcome)): map<string, JobType>
    requires forall k :: 0 <= k < |codes| ==> codes[k] in entries
    decreases |codes|
  {
    if |codes| == 0 then types
    else
      var last := codes[|codes| - 1];
      Registrations(types, entries, codes[..|codes| - 1], root, load)[last := Declared(entries[last], root, load)]
  }

  /** Registering one more code is a single update of the job types. */
  lemma RegistrationsSnoc(types: map<string, JobType>, entries: map<string, JsValue>, order: seq<string>, i: nat,
                          root: JsValue, load: JsValue -> (JsValue -> Runner.Outcome))
    requires i < |order| && forall k :: 0 <= k < |order| ==> order[k] in entries
    ensures Registrations(types, entries, order[..i + 1], root, load) ==
      Registrations(types, entries, order[..i], root, load)[order[i] := Declared(entries[order[i]], root, load)]
  {
    hide Declared;
    assert order[..i + 1][..i] == order[..i];
  }

  /** Registering distinct codes adds exactly them, each with the job type its entry declares, and keeps every other code. */
  lemma {:induction false} RegistrationsRule(types: map<string, JobType>, entries: map<string, JsValue>, codes: seq<string>,
                                             root: JsValue, load: JsValue -> (JsValue -> Runner.Outcome))
    requires forall k :: 0 <= k < |codes| ==> codes[k] in entries
    requires forall a, b :: 0 <= a < b < |codes| ==> codes[a] != codes[b]
    ensures var r := Registrations(types, entries, codes, root, load);
      && (forall c :: c in r <==> c in types || c in codes)
      && (forall k :: 0 <= k < |codes| ==> r[codes[k]] == Declared(entries[codes[k]], root, load))
      && (forall c :: c in types && c !in codes ==> r[c] == types[c])
    decreases |codes|
  {
    hide Declared;
    if |codes| > 0 {
      var init := codes[..|codes| - 1];
      RegistrationsRule(types, entries, init, root, load);
      assert codes == init + [codes[|codes| - 1]];
      forall k | 0 <= k < |codes| - 1
        ensures codes[k] != codes[|codes| - 1]
      {
      }
    }
  }

  /** The position in `order` of the first null or undefined entry, `|order|` when there is none. */
  function FirstNullish(entries: map<string, JsValue>, order: seq<string>): (n: nat)
    requires forall k :: 0 <= k < |order| ==> order[k] in entries
    ensures n <= |order|
    ensures forall k :: 0 <= k < n ==> !Nullish(entries[order[k]])
    ensures n < |order| ==> Nullish(entries[order[n]])
    decreases |order|
  {
    if |order| == 0 || Nullish(entries[order[0]]) then 0
    else 1 + FirstNullish(entries, order[1..])
  }

  /** `exec(code, job, params)` with an unregistered code. */
  function NotRegistered(code: string): Exception {
    Fail("system_error", "Job type " + code + " not registered", "system_scheduler_exec")
  }

  /**
   * `exec(code, job, params)`: the handler of the code's type on the job.
   * The function is asynchronous, so the thrown error is a rejection, which
   * the runner sees as a thrown value; `params` is not passed on.
   */
  function Exec(types: map<string, JobType>, code: string, job: JsValue): Runner.Outcome {
    if code !in types then Runner.Threw(ExceptionValue(NotRegistered(code)))
    else types[code].handler(job)
  }

  /** `getRegisteredJobTypes()` as a value. */
  function Registered(types: map<string, JobType>): (r: map<string, JsValue>)
    ensures r.Keys == types.Keys
    ensures forall c :: c in r ==> r[c] == types[c].name
  {
    map c | c in types :: types[c].name
  }

  // ---------------------------------------------------------------------
  // The "signal" job type

  /** The event a handler signals, with its payload. */
  datatype Signal = Signal(event: JsValue, params: JsValue)

  /**
   * The handler of the "signal" job type: a job and its `params.event` are
   * required; it signals that event with the params and resolves with no
   * value.
   */
  function SignalJob(job: JsValue): (Runner.Outcome, Option<Signal>) {
    var params := Get(job, "params");
    if !Truthy(job) then
      (Runner.Threw(ExceptionValue(Fail("invalid_request", "Job not specified", "sche_job_se1"))), None)
    else if !Truthy(params) || !Truthy(Get(params, "event")) then
      (Runner.Threw(ExceptionValue(Fail("invalid_request", "Event parameter required for this job", "sche_job_se2"))), None)
    else
      (Runner.Returned(Undefined), Some(Signal(Get(params, "event"), params)))
  }

  function SignalHandler(): JsValue -> Runner.Outcome {
    job => SignalJob(job).0
  }

  // ---------------------------------------------------------------------
  // Configuration

  /** The heartbeat period of the poll in ticks: `conf.frequency || 60`. */
  function Frequency(conf: JsValue): JsValue {
    if Truthy(Get(conf, "frequency")) then Get(conf, "frequency") else Int(60)
  }

  /** The property name a job's group is kept under. */
  function GroupKey(job: Job): string {
    ToStr(Field(job, "group"))
  }

  /** The configuration of a new group queue: `conf.groups[group]` when set, else `{}`. */
  function GroupConf(conf: JsValue, key: string): JsValue {
    var groups := Get(conf, "groups");
    if Truthy(conf) && Truthy(groups) && Truthy(Get(groups, key)) then Get(groups, key) else Obj(map[])
  }

  /** The sequence lists each of the keys exactly once (the order `getOwnPropertyNames` gives). */
  predicate Enumerates(order: seq<string>, keys: set<string>) {
    && (forall i, j :: 0 <= i < j < |order| ==> order[i] != order[j])
    && (forall k :: k in keys ==> k in order)
    && (forall i :: 0 <= i < |order| ==> order[i] in keys)
  }

  /** An enumeration lists each key once and nothing else. */
  lemma EnumeratesOnce(order: seq<string>, keys: set<string>)
    requires Enumerates(order, keys)
    ensures forall c :: c in keys <==> c in order
    ensures forall a, b :: 0 <= a < b < |order| ==> order[a] != order[b]
  {
  }

  // ---------------------------------------------------------------------
  // The claim protocol

  /** `{status: 'claimed', claim, claim_expire: Date.now()}`. */
  function ClaimPatch(claim: string, now: int): JsValue {
    Obj(map["status" := Str("claimed"), "claim" := Str(claim), "claim_expire" := Int(now)])
  }

  const ScheduledPatch: JsValue := Obj(map["status" := Str("scheduled")])

  /** `{status: 'ready', claim: null, claim_expire: null}`. */
  const ReadyPatch: JsValue := Obj(map["status" := Str("ready"), "claim" := Null, "claim_expire" := Null])

  /** What `Jobs.update` writes for each of these patches once `sanitizeUpdate` has run. */
  function ClaimValues(claim: string, now: int): Job {
    if claim != "" then map["status" := Str("claimed"), "claim" := Str(claim), "claim_expire" := Int(now)]
    else map["status" := Str("claimed"), "claim_expire" := Int(now)]
  }

  const ScheduledValues: Job := map["status" := Str("scheduled")]
  const ReadyValues: Job := map["status" := Str("ready")]

  /** `{_uuid, status: 'ready'}`: the compare part of the compare-and-swap. */
  function ReadyCriteria(uuid: string): map<string, JsValue> {
    map["_uuid" := Str(uuid), "status" := Str("ready")]
  }

  /** `{_uuid, claim}`: the re-read of the claimed record. */
  function ClaimCriteria(uuid: string, claim: string): map<string, JsValue> {
    map["_uuid" := Str(uuid), "claim" := Str(claim)]
  }

  /** The store after the compare-and-swap. */
  function Claimed(docs: seq<Job>, uuid: string, claim: string, now: int): seq<Job> {
    Store.UpdatedAll(docs, ReadyCriteria(uuid), ClaimValues(claim, now), now)
  }

  /** The record the re-read finds, if the claim was won. */
  function Winner(docs: seq<Job>, uuid: string, claim: string): Option<Job> {
    var hit := Store.Found(docs, ClaimCriteria(uuid, claim));
    if hit == [] then None else Some(hit[0])
  }

  /** The store after a won claim: marked scheduled, and back to ready when the queue refused the job. */
  function Scheduled(docs: seq<Job>, uuid: string, admitted: bool, now: int): seq<Job> {
    var marked := Store.Written(docs, Store.ById(uuid), ScheduledValues, now).0;
    if admitted then marked else Store.UpdatedAll(marked, Store.IdCriteria(uuid), ReadyValues, now)
  }

  // ---------------------------------------------------------------------
  // The poll as a function of its state

  /** What scheduling changes: the store's records and the state of each group's queue. */
  datatype PollState = PollState(docs: seq<Job>, groups: map<string, Queue.QueueState>)

  /** The queue of group `key`: the one kept, or a new idle one with the group's configuration. */
  function QueueOf(groups: map<string, Queue.QueueState>, conf: JsValue, key: string): Queue.QueueState {
    if key in groups then groups[key] else Queue.Fresh(GroupConf(conf, key))
  }

  /** `queue(job)` on the group queues: the job's group queue, created on first use, takes the job or refuses it. */
  function Enqueued(groups: map<string, Queue.QueueState>, conf: JsValue, job: Job, now: int)
    : (bool, map<string, Queue.QueueState>)
  {
    var key := GroupKey(job);
    var a := Queue.Admitted(QueueOf(groups, conf, key), job, now);
    (a.0, groups[key := a.1])
  }

  /**
   * `queue(job)` touches the job's group queue only: the job is taken exactly
   * when its id is neither pending nor locked there; a taken job starts at
   * once on an idle queue and is appended to a busy one; a refused job
   * leaves the queue as it was.
   */
  lemma EnqueuedGroup(groups: map<string, Queue.QueueState>, conf: JsValue, job: Job, now: int)
    ensures var key := GroupKey(job);
      var s := QueueOf(groups, conf, key);
      var e := Enqueued(groups, conf, job, now);
      && e.1.Keys == groups.Keys + {key}
      && (forall g :: g in groups && g != key ==> e.1[g] == groups[g])
      && (e.0 <==> !Queue.Locked(s.pending, s.locks, job))
      && (!e.0 ==> e.1[key] == s)
      && (e.0 && s.phase.Idle? ==> e.1[key].phase == Queue.Executing(job, now, Queue.Delay(s.conf)) && e.1[key].pending == [])
      && (e.0 && !s.phase.Idle? ==> e.1[key].pending == s.pending + [job] && e.1[key].phase == s.phase)
  {
  }

  /** The rest of `schedule` after the compare-and-swap: the re-read, then the scheduled record queued, or put back to ready when refused. */
  function Resolved(st: PollState, conf: JsValue, uuid: string, claim: string, now: int): PollState {
    var w := Winner(st.docs, uuid, claim);
    if w.None? then st
    else
      var e := Enqueued(st.groups, conf, w.value["status" := Str("scheduled")], now);
      PollState(Scheduled(st.docs, uuid, e.0, now), e.1)
  }

  lemma ResolvedLost(st: PollState, conf: JsValue, uuid: string, claim: string, now: int)
    requires Store.Found(st.docs, ClaimCriteria(uuid, claim)) == []
    ensures Resolved(st, conf, uuid, claim, now) == st
  {
  }

  lemma ResolvedWon(st: PollState, conf: JsValue, uuid: string, claim: string, now: int, found: Job)
    requires Store.Found(st.docs, ClaimCriteria(uuid, claim)) != []
    requires found == Store.Found(st.docs, ClaimCriteria(uuid, claim))[0]
    ensures var e := Enqueued(st.groups, conf, found["status" := Str("scheduled")], now);
      Resolved(st, conf, uuid, claim, now) == PollState(Scheduled(st.docs, uuid, e.0, now), e.1)
  {
  }

  /** `schedule(job)` of the record with id `uuid`, drawing `claim` at `now`. */
  function ScheduleEffect(st: PollState, conf: JsValue, uuid: string, claim: string, now: int): PollState {
    Resolved(st.(docs := Claimed(st.docs, uuid, claim, now)), conf, uuid, claim, now)
  }

  /** The first `n` rounds of the poll's loop: the i-th found job scheduled with claim `claims(i)` at `clock(i)`. */
  function Polled(st: PollState, conf: JsValue, jobs: seq<Job>, claims: nat -> string, clock: nat -> int, n: nat): PollState
    requires n <= |jobs| && Store.StringIds(jobs)
  {
    if n == 0 then st
    else ScheduleEffect(Polled(st, conf, jobs, claims, clock, n - 1), conf, jobs[n - 1]["_uuid"].s, claims(n - 1), clock(n - 1))
  }

  /** One more round of the poll schedules the next found job. */
  lemma PolledStep(st: PollState, conf: JsValue, jobs: seq<Job>, claims: nat -> string, clock: nat -> int, i: nat)
    requires i < |jobs| && Store.StringIds(jobs)
    ensures Polled(st, conf, jobs, claims, clock, i + 1)
      == ScheduleEffect(Polled(st, conf, jobs, claims, clock, i), conf, jobs[i]["_uuid"].s, claims(i), clock(i))
  {
  }

  /** The `_uuid`s of a list of records, in order. */
  function Ids(jobs: seq<Job>): (r: seq<JsValue>)
    ensures |r| == |jobs|
  {
    seq(|jobs|, i requires 0 <= i < |jobs| => Field(jobs[i], "_uuid"))
  }

  lemma IdsSnoc(jobs: seq<Job>, i: nat)
    requires i < |jobs|
    ensures Ids(jobs[..i + 1]) == Ids(jobs[..i]) + [Field(jobs[i], "_uuid")]
  {
  }

  // ---------------------------------------------------------------------
  // Configured jobs

  /**
   * One round of `loadJobs` for the configured job `entry` under `code`:
   * the entry gets `code` (a TypeError when it is a primitive); a stored job
   * with that code is updated only when its version is below the
   * configured one; without one the job is created.  A failing create or
   * update ends the load with its error.  An array takes `code` as a named
   * property, which the value model cannot hold; an array has no `version`
   * and no `run`, so that property is never read.
   */
  function LoadStep(docs: seq<Job>, code: string, entry: JsValue, owner: JsValue, now: int, todayAt: int,
                    freshCode: string, freshId: string): (seq<Job>, Result<JsValue>)
    requires Store.StringIds(docs)
  {
    if !entry.Obj? && !entry.Arr? then (docs, Err(TypeError))
    else
      var job := if entry.Obj? then Obj(entry.props["code" := Str(code)]) else entry;
      var hit := Store.Found(docs, map["code" := Str(code)]);
      if hit == [] then Loaded(Jobs.CreateEffect(docs, owner, job, now, todayAt, freshCode, freshId))
      else if !LessThan(Field(hit[0], "version"), Get(job, "version")) then (docs, Ok(Undefined))
      else
        Store.FoundIds(docs, map["code" := Str(code)]);
        Loaded(Jobs.UpdateEffect(docs, Store.ById(hit[0]["_uuid"].s), job, now))
  }

  /** A round's store and result: a create or update that succeeds resolves to `undefined`. */
  function Loaded(effect: (seq<Job>, Result<JsValue>)): (seq<Job>, Result<JsValue>) {
    (effect.0, if effect.1.Err? then effect.1 else Ok(Undefined))
  }

  /** `loadJobs` from the `i`-th configured code on: the rounds in order, up to the first error. */
  function LoadFrom(docs: seq<Job>, entries: map<string, JsValue>, order: seq<string>, i: nat, owner: JsValue,
                    now: int, todayAt: int, freshCode: string, freshIds: nat -> string): (seq<Job>, Result<JsValue>)
    requires Store.StringIds(docs)
    requires forall k :: 0 <= k < |order| ==> order[k] in entries
    decreases |order| - i
  {
    if i >= |order| then (docs, Ok(Undefined))
    else
      var (after, r) := LoadStep(docs, order[i], entries[order[i]], owner, now, todayAt, freshCode, freshIds(i));
      if r.Err? then (after, r)
      else
        LoadStepKeepsIds(docs, order[i], entries[order[i]], owner, now, todayAt, freshCode, freshIds(i));
        LoadFrom(after, entries, order, i + 1, owner, now, todayAt, freshCode, freshIds)
  }

  lemma LoadStepKeepsIds(docs: seq<Job>, code: string, entry: JsValue, owner: JsValue, now: int, todayAt: int,
                         freshCode: string, freshId: string)
    requires Store.StringIds(docs)
    ensures Store.StringIds(LoadStep(docs, code, entry, owner, now, todayAt, freshCode, freshId).0)
  {
    if entry.Obj? || entry.Arr? {
      var job := if entry.Obj? then Obj(entry.props["code" := Str(code)]) else entry;
      var hit := Store.Found(docs, map["code" := Str(code)]);
      if hit == [] {
        Jobs.CreateKeepsIds(docs, owner, job, now, todayAt, freshCode, freshId);
      } else if LessThan(Field(hit[0], "version"), Get(job, "version")) {
        Store.FoundIds(docs, map["code" := Str(code)]);
        Jobs.UpdateKeepsIds(docs, Store.ById(hit[0]["_uuid"].s), job, now);
      }
    }
  }

  // ---------------------------------------------------------------------
  // The scheduler

  class Scheduler {
    /** The `scheduler` section of the configuration. */
    const conf: JsValue
    /** The `_jobs` collection. */
    const db: Store.Store
    /** The system user's account, the owner of created jobs. */
    const owner: JsValue
    var jobTypes: map<string, JobType>
    var queues: map<string, Queue.JobQueue>

    /** Every stored record has a string id; every queue is in a consistent state and runs against the store. */
    ghost predicate Valid()
      reads this, db, queues.Values
    {
      Store.StringIds(db.docs) && QueuesValid()
    }

    /** Each queue serves the group it is kept under, is consistent, and runs against the store. */
    ghost predicate QueuesValid()
      reads this, queues.Values
    {
      forall g :: g in queues ==> queues[g].group == g && queues[g].Valid() && queues[g].runner.db == db
    }

    /** The state of every group queue, as values. */
    ghost function Groups(): map<string, Queue.QueueState>
      reads this, queues.Values
    {
      map g | g in queues :: queues[g].Snapshot()
    }

    /** The group queues are in the states `groups`, stated group by group. */
    ghost predicate Holds(groups: map<string, Queue.QueueState>)
      reads this, queues.Values
    {
      && groups.Keys == queues.Keys
      && (forall g :: g in queues ==> groups[g] == queues[g].Snapshot())
    }

    /** The group queues other than `key` are in the states `groups`, and `key` is kept too. */
    ghost predicate HoldsBut(groups: map<string, Queue.QueueState>, key: string)
      reads this, queues.Values
    {
      && queues.Keys == groups.Keys + {key}
      && (forall g :: g in queues && g != key ==> groups[g] == queues[g].Snapshot())
    }

    /** The scheduler is in the poll state `st`: the store holds its records and the queues its group states. */
    ghost predicate At(st: PollState)
      reads this, db, queues.Values
    {
      db.docs == st.docs && Groups() == st.groups
    }

    /** A write to the store leaves the queues as they were. */
    twostate lemma StoreOnly()
      requires old(Valid()) && Store.StringIds(db.docs)
      requires unchanged(this)
      requires forall q :: q in queues.Values ==> unchanged(q)
      ensures Valid() && Groups() == old(Groups())
    {
    }

    /** A state the queues hold is the one `Groups` reads. */
    lemma HoldsGroups(groups: map<string, Queue.QueueState>)
      requires Holds(groups)
      ensures Groups() == groups
    {
    }

    constructor(conf: JsValue, db: Store.Store, owner: JsValue)
      requires Store.StringIds(db.docs)
      ensures Valid()
      ensures this.conf == conf && this.db == db && this.owner == owner
      ensures jobTypes == map[] && queues == map[]
    {
      this.conf := conf;
      this.db := db;
      this.owner := owner;
      jobTypes := map[];
      queues := map[];
    }

    /** `registerJobType(name, code, handler)`: the code's entry is set, replacing any earlier one. */
    method RegisterJobType(name: JsValue, code: string, handler: JsValue -> Runner.Outcome)
      modifies this
      ensures jobTypes == old(jobTypes)[code := JobType(name, handler)]
      ensures queues == old(queues)
    {
      jobTypes := jobTypes[code := JobType(name, handler)];
    }

    /** `deregisterJobType(code)`. */
    method DeregisterJobType(code: string)
      modifies this
      ensures jobTypes == old(jobTypes) - {code}
      ensures queues == old(queues)
    {
      jobTypes := jobTypes - {code};
    }

    /** `getRegisteredJobTypes()`: a loop over the registered codes. */
    method GetRegisteredJobTypes() returns (res: map<string, JsValue>)
      ensures res == Registered(jobTypes)
    {
      res := map[];
      var left := jobTypes.Keys;
      while left != {}
        invariant left <= jobTypes.Keys
        invariant res.Keys == jobTypes.Keys - left
        invariant forall c :: c in res ==> res[c] == jobTypes[c].name
        decreases left
      {
        var c :| c in left;
        res := res[c := jobTypes[c].name];
        left := left - {c};
      }
    }

    /** `registerSignalEventJobType()`. */
    method RegisterSignalEventJobType()
      modifies this
      ensures jobTypes == old(jobTypes)["signal" := JobType(Str("Signal event"), SignalHandler())]
      ensures queues == old(queues)
    {
      RegisterJobType(Str("Signal event"), "signal", SignalHandler());
    }

    /**
     * `registerJobTypes()`: each entry of `conf.job_types`, in `order`, is
     * registered under its key with its `name` and the handler loaded from
     * `root + entry.handler`.  An entry that is null or undefined throws a
     * TypeError when its name is read.
     */
    method RegisterJobTypes(root: JsValue, load: JsValue -> (JsValue -> Runner.Outcome), order: seq<string>)
      returns (r: Result<JsValue>)
      requires Enumerates(order, OwnProps(Get(conf, "job_types")).Keys)
      modifies this
      ensures queues == old(queues)
      ensures !Truthy(conf) || !Truthy(Get(conf, "job_types")) ==> r == Ok(Undefined) && jobTypes == old(jobTypes)
      ensures r.Err? ==> r == Err(TypeError)
      ensures Truthy(conf) && Truthy(Get(conf, "job_types")) ==>
        var entries := OwnProps(Get(conf, "job_types"));
        var n := FirstNullish(entries, order);
        && (r.Err? <==> n < |order|)
        && (forall c :: c in jobTypes <==> c in old(jobTypes) || c in order[..n])
        && (forall k :: 0 <= k < n ==> jobTypes[order[k]] == Declared(entries[order[k]], root, load))
        && (forall c :: c in old(jobTypes) && c !in order[..n] ==> jobTypes[c] == old(jobTypes)[c])
      ensures r.Ok? && Truthy(conf) && Truthy(Get(conf, "job_types")) ==>
        var entries := OwnProps(Get(conf, "job_types"));
        && (forall c :: c in entries ==> !Nullish(entries[c]))
        && jobTypes.Keys == old(jobTypes).Keys + entries.Keys
        && (forall c :: c in entries ==>
              jobTypes[c] == Declared(entries[c], root, load))
        && (forall c :: c in old(jobTypes) && c !in entries ==> jobTypes[c] == old(jobTypes)[c])
    {
      hide *;
      if Truthy(conf) && Truthy(Get(conf, "job_types")) {
        var entries := OwnProps(Get(conf, "job_types"));
        EnumeratesOnce(order, entries.Keys);
        r := RegisterEntries(entries, root, load, order);
        ghost var n := FirstNullish(entries, order);
        RegistrationsRule(old(jobTypes), entries, order[..n], root, load);
        if r.Ok? {
          assert order[..n] == order;
        }
      } else {
        r := Ok(Undefined);
      }
    }

    /** The loop of `registerJobTypes()` over the codes of `entries` in `order`, up to the first null or undefined entry. */
    method RegisterEntries(entries: map<string, JsValue>, root: JsValue, load: JsValue -> (JsValue -> Runner.Outcome), order: seq<string>)
      returns (r: Result<JsValue>)
      requires forall k :: 0 <= k < |order| ==> order[k] in entries
      modifies this
      ensures queues == old(queues)
      ensures r == (if FirstNullish(entries, order) < |order| then Err(TypeError) else Ok(Undefined))
      ensures jobTypes == Registrations(old(jobTypes), entries, order[..FirstNullish(entries, order)], root, load)
    {
      ghost var n := FirstNullish(entries, order);
      assert Registrations(jobTypes, entries, order[..0], root, load) == jobTypes;
      hide *;
      var i := 0;
      while i < |order|
        invariant 0 <= i <= n
        invariant queues == old(queues)
        invariant jobTypes == Registrations(old(jobTypes), entries, order[..i], root, load)
      {
        var code := order[i];
        var entry := entries[code];
        if Nullish(entry) {
          assert i == n;
          return Err(TypeError);
        }
        assert i < n;
        var declared := Declared(entry, root, load);
        RegisterJobType(declared.name, code, declared.handler);
        RegistrationsSnoc(old(jobTypes), entries, order, i, root, load);
        i := i + 1;
      }
      return Ok(Undefined);
    }

    /**
     * `queue(job)`: the group's queue, created on first use with its group
     * configuration and kept afterwards, takes the job or refuses it.
     */
    method QueueJob(job: Job, now: int, ghost groups: map<string, Queue.QueueState>) returns (accepted: bool)
      requires Valid() && Field(job, "_uuid").Str? && Groups() == groups
      modifies this, queues.Values
      ensures Valid()
      ensures jobTypes == old(jobTypes)
      ensures forall q :: q in queues.Values ==> q in old(queues.Values) || fresh(q)
      ensures (accepted, Groups()) == Enqueued(groups, conf, job, now)
    {
      var key := GroupKey(job);
      var q := GroupQueue(key);
      accepted := Take(q, key, job, now, groups);
      HoldsGroups(groups[key := q.Snapshot()]);
    }

    /** The group's queue `q` takes the job or refuses it; the other queues keep their state. */
    method Take(q: Queue.JobQueue, key: string, job: Job, now: int, ghost groups: map<string, Queue.QueueState>)
      returns (accepted: bool)
      requires Valid() && Field(job, "_uuid").Str? && key in queues && q == queues[key] && HoldsBut(groups, key)
      modifies q
      ensures Valid()
      ensures (accepted, q.Snapshot()) == Queue.Admitted(old(q.Snapshot()), job, now)
      ensures Holds(groups[key := q.Snapshot()])
    {
      hide Queue.Admitted, Queue.Locked, Store.StringIds, Queue.JobQueue.Valid;
      accepted := q.Queue(job, now);
      ghost var after := groups[key := q.Snapshot()];
      forall g | g in queues
        ensures after[g] == queues[g].Snapshot() && queues[g].Valid()
      {
        if g != key {
          assert queues[g].group != q.group;
        }
      }
    }

    /** The queue of group `key`: the one already kept, or a new idle one with the group's configuration. */
    method GroupQueue(key: string) returns (q: Queue.JobQueue)
      requires Valid()
      modifies this
      ensures Valid()
      ensures jobTypes == old(jobTypes)
      ensures queues.Keys == old(queues.Keys) + {key} && q == queues[key]
      ensures forall g :: g in old(queues) ==> queues[g] == old(queues[g])
      ensures key !in old(queues) ==> fresh(q)
      ensures forall v :: v in queues.Values ==> v in old(queues.Values) || fresh(v)
      ensures q.Snapshot() == QueueOf(old(Groups()), conf, key)
      ensures HoldsBut(old(Groups()), key)
    {
      if key !in queues {
        q := AddQueue(key);
      } else {
        q := queues[key];
      }
    }

    /** A new idle queue for group `key`, with its runner on the store, kept under `key`. */
    method AddQueue(key: string) returns (q: Queue.JobQueue)
      requires Valid() && key !in queues
      modifies this
      ensures Valid()
      ensures jobTypes == old(jobTypes)
      ensures queues == old(queues)[key := q] && fresh(q)
      ensures q.Snapshot() == Queue.Fresh(GroupConf(conf, key))
      ensures HoldsBut(old(Groups()), key)
    {
      var runner := new Runner.JobRunner(db);
      q := new Queue.JobQueue(key, GroupConf(conf, key), runner);
      queues := queues[key := q];
    }

    /**
     * `schedule(job)`: claim the record if it is still ready, re-read it by
     * the claim, mark it scheduled and queue it; a refused job goes back to
     * ready.  A lost claim (the re-read finds nothing) is swallowed.  No step
     * rejects, so neither does `schedule`.
     */
    method Schedule(job: Job, claim: string, now: int, ghost groups: map<string, Queue.QueueState>)
      returns (r: Result<JsValue>)
      requires Valid() && Field(job, "_uuid").Str? && Groups() == groups
      modifies this, db, queues.Values
      ensures Valid()
      ensures r == Ok(Undefined)
      ensures jobTypes == old(jobTypes)
      ensures forall q :: q in queues.Values ==> q in old(queues.Values) || fresh(q)
      ensures At(ScheduleEffect(PollState(old(db.docs), groups), conf, job["_uuid"].s, claim, now))
    {
      var uuid := job["_uuid"].s;
      label Start:
      Claim(uuid, claim, now);
      StoreOnly@Start();
      Resolve(uuid, claim, now, groups);
      return Ok(Undefined);
    }

    /** The re-read by the claim and, when it finds the record, the rest of `schedule`. */
    method Resolve(uuid: string, claim: string, now: int, ghost groups: map<string, Queue.QueueState>)
      requires Valid() && Groups() == groups
      modifies this, db, queues.Values
      ensures Valid()
      ensures jobTypes == old(jobTypes)
      ensures forall q :: q in queues.Values ==> q in old(queues.Values) || fresh(q)
      ensures At(Resolved(PollState(old(db.docs), groups), conf, uuid, claim, now))
    {
      var hit := Store.Found(db.docs, ClaimCriteria(uuid, claim));
      if hit == [] {
        ResolvedLost(PollState(db.docs, groups), conf, uuid, claim, now);
        return;
      }
      Store.FoundById(db.docs, ClaimCriteria(uuid, claim), uuid);
      ResolvedWon(PollState(db.docs, groups), conf, uuid, claim, now, hit[0]);
      Place(hit[0], uuid, now, groups);
    }

    /** The part of `schedule` after a won claim: mark the record scheduled, queue it, and put it back to ready if refused. */
    method Place(found: Job, uuid: string, now: int, ghost groups: map<string, Queue.QueueState>)
      requires Valid() && Field(found, "_uuid") == Str(uuid) && Store.FirstWithId(db.docs, uuid) >= 0
      requires Groups() == groups
      modifies this, db, queues.Values
      ensures Valid()
      ensures jobTypes == old(jobTypes)
      ensures forall q :: q in queues.Values ==> q in old(queues.Values) || fresh(q)
      ensures var e := Enqueued(groups, conf, found["status" := Str("scheduled")], now);
        db.docs == Scheduled(old(db.docs), uuid, e.0, now) && Groups() == e.1
    {
      label Start:
      MarkScheduled(uuid, now);
      StoreOnly@Start();
      Enqueue(found["status" := Str("scheduled")], uuid, now, groups);
    }

    /** Queue the scheduled record; a refused one goes back to ready. */
    method Enqueue(record: Job, uuid: string, now: int, ghost groups: map<string, Queue.QueueState>)
      requires Valid() && Field(record, "_uuid") == Str(uuid) && Groups() == groups
      modifies this, db, queues.Values
      ensures Valid()
      ensures jobTypes == old(jobTypes)
      ensures forall q :: q in queues.Values ==> q in old(queues.Values) || fresh(q)
      ensures var e := Enqueued(groups, conf, record, now);
        && Groups() == e.1
        && db.docs == if e.0 then old(db.docs) else Store.UpdatedAll(old(db.docs), Store.IdCriteria(uuid), ReadyValues, now)
    {
      hide Enqueued, Store.UpdatedAll, Store.StringIds, Queue.JobQueue.Valid;
      var accepted := QueueJob(record, now, groups);
      label Queued:
      Refused(accepted, uuid, now);
      StoreOnly@Queued();
    }

    /** The refused job goes back to ready; an accepted one leaves the store as it is. */
    method Refused(accepted: bool, uuid: string, now: int)
      requires Store.StringIds(db.docs)
      modifies db
      ensures Store.StringIds(db.docs)
      ensures db.docs == if accepted then old(db.docs) else Store.UpdatedAll(old(db.docs), Store.IdCriteria(uuid), ReadyValues, now)
    {
      if !accepted {
        Requeue(uuid, now);
      }
    }

    /** The compare-and-swap of `schedule`; a criteria update never rejects. */
    method Claim(uuid: string, claim: string, now: int)
      requires Store.StringIds(db.docs)
      modifies db
      ensures Store.StringIds(db.docs)
      ensures db.docs == Claimed(old(db.docs), uuid, claim, now)
    {
      ClaimSanitized(claim, now);
      Store.WrittenKeepsIds(db.docs, Store.ByCriteria(ReadyCriteria(uuid)), ClaimValues(claim, now), now);
      var _ := Jobs.Update(db, Store.ByCriteria(ReadyCriteria(uuid)), ClaimPatch(claim, now), now);
    }

    /** `update(job._uuid, {status: 'scheduled'})` of a record just found. */
    method MarkScheduled(uuid: string, now: int)
      requires Store.StringIds(db.docs) && Store.FirstWithId(db.docs, uuid) >= 0
      modifies db
      ensures Store.StringIds(db.docs)
      ensures db.docs == Store.Written(old(db.docs), Store.ById(uuid), ScheduledValues, now).0
    {
      ScheduledSanitized();
      Store.WrittenKeepsIds(db.docs, Store.ById(uuid), ScheduledValues, now);
      var _ := Jobs.Update(db, Store.ById(uuid), ScheduledPatch, now);
    }

    /** `update({_uuid}, {status: 'ready', claim: null, claim_expire: null})` of a refused job. */
    method Requeue(uuid: string, now: int)
      requires Store.StringIds(db.docs)
      modifies db
      ensures Store.StringIds(db.docs)
      ensures db.docs == Store.UpdatedAll(old(db.docs), Store.IdCriteria(uuid), ReadyValues, now)
    {
      ReadySanitized();
      Store.WrittenKeepsIds(db.docs, Store.ByCriteria(Store.IdCriteria(uuid)), ReadyValues, now);
      var _ := Jobs.Update(db, Store.ByCriteria(Store.IdCriteria(uuid)), ReadyPatch, now);
    }

    /**
     * The heartbeat handler: find the ready jobs and schedule them one at a
     * time, in the order found.  The i-th schedule draws claim `claims(i)` at
     * `clock(i)`.  Every record that `find({status: 'ready'})` returns has
     * status "ready" (`FoundReady`), so the loop's status test always passes.
     * The scheduled ids are returned.
     */
    method Tick(claims: nat -> string, clock: nat -> int) returns (scheduled: seq<JsValue>)
      requires Valid()
      modifies this, db, queues.Values
      ensures Valid()
      ensures jobTypes == old(jobTypes)
      ensures var found := Store.Found(old(db.docs), map["status" := Str("ready")]);
        && Store.StringIds(found)
        && scheduled == Ids(found)
        && At(Polled(PollState(old(db.docs), old(Groups())), conf, found, claims, clock, |found|))
    {
      var ready := map["status" := Str("ready")];
      var jobs := Jobs.Find(db, Some(ready), Undefined, Undefined);
      assert Jobs.FindCriteria(Some(ready), Undefined, Undefined) == ready;
      Store.FoundIds(db.docs, ready);
      scheduled := ScheduleAll(jobs, claims, clock);
    }

    /** The loop of `tick`: each found job is scheduled in turn, and its id listed. */
    method ScheduleAll(jobs: seq<Job>, claims: nat -> string, clock: nat -> int) returns (scheduled: seq<JsValue>)
      requires Valid() && Store.StringIds(jobs)
      modifies this, db, queues.Values
      ensures Valid()
      ensures jobTypes == old(jobTypes)
      ensures scheduled == Ids(jobs)
      ensures At(Polled(PollState(old(db.docs), old(Groups())), conf, jobs, claims, clock, |jobs|))
    {
      ghost var start := PollState(db.docs, Groups());
      ghost var st := start;
      assert st == Polled(start, conf, jobs, claims, clock, 0);
      hide ScheduleEffect, Polled;
      scheduled := [];
      var i := 0;
      while i < |jobs|
        invariant 0 <= i <= |jobs|
        invariant Valid()
        invariant jobTypes == old(jobTypes)
        invariant forall q :: q in queues.Values ==> q in old(queues.Values) || fresh(q)
        invariant scheduled == Ids(jobs[..i])
        invariant st == Polled(start, conf, jobs, claims, clock, i)
        invariant At(st)
      {
        var _ := Schedule(jobs[i], claims(i), clock(i), st.groups);
        PolledStep(start, conf, jobs, claims, clock, i);
        st := ScheduleEffect(st, conf, jobs[i]["_uuid"].s, claims(i), clock(i));
        scheduled := scheduled + [Field(jobs[i], "_uuid")];
        IdsSnoc(jobs, i);
        i := i + 1;
      }
      assert jobs[..i] == jobs;
    }

    /**
     * `loadJobs()`: the configured jobs of `conf.jobs`, in `order`, each
     * created or upgraded; the i-th create draws the fresh id `freshIds(i)`.
     */
    method LoadJobs(order: seq<string>, now: int, todayAt: int, freshCode: string, freshIds: nat -> string)
      returns (r: Result<JsValue>)
      requires Valid()
      requires Enumerates(order, OwnProps(Get(conf, "jobs")).Keys)
      modifies db
      ensures Valid()
      ensures !Truthy(Get(conf, "jobs")) ==> r == Ok(Undefined) && db.docs == old(db.docs)
      ensures Truthy(Get(conf, "jobs")) ==>
        (db.docs, r) == LoadFrom(old(db.docs), OwnProps(Get(conf, "jobs")), order, 0, owner, now, todayAt, freshCode, freshIds)
    {
      if !Truthy(Get(conf, "jobs")) {
        return Ok(Undefined);
      }
      var entries := OwnProps(Get(conf, "jobs"));
      assert forall k :: 0 <= k < |order| ==> order[k] in entries;
      var i := 0;
      while i < |order|
        invariant 0 <= i <= |order|
        invariant Valid()
        invariant LoadFrom(old(db.docs), entries, order, 0, owner, now, todayAt, freshCode, freshIds) ==
          LoadFrom(db.docs, entries, order, i, owner, now, todayAt, freshCode, freshIds)
        decreases |order| - i
      {
        var code := order[i];
        r := LoadJob(code, entries[code], now, todayAt, freshCode, freshIds(i));
        if r.Err? {
          return r;
        }
        i := i + 1;
      }
      return Ok(Undefined);
    }

    /** One round of `loadJobs`. */
    method LoadJob(code: string, entry: JsValue, now: int, todayAt: int, freshCode: string, freshId: string)
      returns (r: Result<JsValue>)
      requires Store.StringIds(db.docs)
      modifies db
      ensures Store.StringIds(db.docs)
      ensures (db.docs, r) == LoadStep(old(db.docs), code, entry, owner, now, todayAt, freshCode, freshId)
    {
      LoadStepKeepsIds(db.docs, code, entry, owner, now, todayAt, freshCode, freshId);
      if !entry.Obj? && !entry.Arr? {
        return Err(TypeError);
      }
      var job := if entry.Obj? then Obj(entry.props["code" := Str(code)]) else entry;
      var found := Jobs.FindOne(db, map["code" := Str(code)]);
      if found.Err? {
        r := CreateConfigured(job, now, todayAt, freshCode, freshId);
        return;
      }
      if !LessThan(Field(found.value, "version"), Get(job, "version")) {
        return Ok(Undefined);
      }
      Store.FoundIds(db.docs, map["code" := Str(code)]);
      assert found.value == Store.Found(db.docs, map["code" := Str(code)])[0];
      r := UpgradeConfigured(found.value["_uuid"].s, job, now);
    }

    /** `create(job)` of a configured job not yet stored. */
    method CreateConfigured(job: JsValue, now: int, todayAt: int, freshCode: string, freshId: string)
      returns (r: Result<JsValue>)
      modifies db
      ensures (db.docs, r) == Loaded(Jobs.CreateEffect(old(db.docs), owner, job, now, todayAt, freshCode, freshId))
    {
      r := Jobs.Create(db, owner, job, now, todayAt, freshCode, freshId);
      if r.Ok? {
        r := Ok(Undefined);
      }
    }

    /** `update(stored._uuid, job)` of a stored job with a lower version. */
    method UpgradeConfigured(uuid: string, job: JsValue, now: int) returns (r: Result<JsValue>)
      modifies db
      ensures (db.docs, r) == Loaded(Jobs.UpdateEffect(old(db.docs), Store.ById(uuid), job, now))
    {
      r := Jobs.Update(db, Store.ById(uuid), job, now);
      if r.Ok? {
        r := Ok(Undefined);
      }
    }
  }

  // ---------------------------------------------------------------------
  // Sanitised patches

  lemma ClaimSanitized(claim: string, now: int)
    ensures Jobs.SanitizeUpdate(ClaimPatch(claim, now)) == Ok(ClaimValues(claim, now))
  {
    var src := map["status" := Str("claimed"), "claim" := Str(claim), "claim_expire" := Int(now)];
    ClaimPatchKept(claim, now);
    Jobs.PatchIsKept(src);
    UpdateOfObject(ClaimPatch(claim, now), src);
  }

  lemma UpdateOfObject(data: JsValue, src: Job)
    requires data == Obj(src)
    ensures Jobs.SanitizeUpdate(data) == Jobs.SanitizePatch(src)
  {
  }

  lemma ClaimPatchKept(claim: string, now: int)
    ensures var src := map["status" := Str("claimed"), "claim" := Str(claim), "claim_expire" := Int(now)];
      Jobs.RunnerPatch(src) && Strip.KeptMap(src) == ClaimValues(claim, now)
  {
    assert "claimed" in JobValidator.StatusCodes;
  }

  lemma ScheduledSanitized()
    ensures Jobs.SanitizeUpdate(ScheduledPatch) == Ok(ScheduledValues)
  {
    var src := map["status" := Str("scheduled")];
    ScheduledPatchKept();
    Jobs.PatchIsKept(src);
    UpdateOfObject(ScheduledPatch, src);
  }

  lemma ScheduledPatchKept()
    ensures var src := map["status" := Str("scheduled")];
      Jobs.RunnerPatch(src) && Strip.KeptMap(src) == ScheduledValues
  {
    assert "scheduled" in JobValidator.StatusCodes;
    Strip.KeptMapNoop(map["status" := Str("scheduled")]);
  }

  /** The null claim fields are stripped: a refused job goes back to ready but keeps its claim. */
  lemma ReadySanitized()
    ensures Jobs.SanitizeUpdate(ReadyPatch) == Ok(ReadyValues)
  {
    var src := map["status" := Str("ready"), "claim" := Null, "claim_expire" := Null];
    ReadyPatchKept();
    Jobs.PatchIsKept(src);
    UpdateOfObject(ReadyPatch, src);
  }

  lemma ReadyPatchKept()
    ensures var src := map["status" := Str("ready"), "claim" := Null, "claim_expire" := Null];
      Jobs.RunnerPatch(src) && Strip.KeptMap(src) == ReadyValues
  {
    assert "ready" in JobValidator.StatusCodes;
  }

  // ---------------------------------------------------------------------
  // Properties

  /** Whether a queue takes a job depends on the job's id only. */
  lemma LockedById(pending: seq<Job>, locks: set<string>, a: Job, b: Job)
    requires Field(a, "_uuid") == Field(b, "_uuid")
    ensures Queue.Locked(pending, locks, a) == Queue.Locked(pending, locks, b)
  {
    PendingById(pending, a, b);
  }

  lemma {:induction false} PendingById(pending: seq<Job>, a: Job, b: Job)
    requires Field(a, "_uuid") == Field(b, "_uuid")
    ensures Queue.Pending(pending, a) == Queue.Pending(pending, b)
  {
    if |pending| > 0 {
      PendingById(pending[1..], a, b);
    }
  }

  /** A registered code runs its handler; the last registration of a code wins. */
  lemma ExecRegistered(types: map<string, JobType>, name: JsValue, code: string, handler: JsValue -> Runner.Outcome, job: JsValue)
    ensures Exec(types[code := JobType(name, handler)], code, job) == handler(job)
  {
  }

  /** After `deregisterJobType(code)`, `exec(code, …)` rejects with `system_error`. */
  lemma ExecDeregistered(types: map<string, JobType>, code: string, job: JsValue)
    ensures Exec(types - {code}, code, job) == Runner.Threw(ExceptionValue(NotRegistered(code)))
    ensures IsError(NotRegistered(code), "system_error")
  {
  }

  /** The registered names are those of the registered codes only. */
  lemma RegisteredAfterDeregister(types: map<string, JobType>, code: string)
    ensures Registered(types - {code}) == Registered(types) - {code}
  {
  }

  /**
   * A signal job without a job or without `params.event` is rejected with
   * `invalid_request` and signals nothing, so its run fails; otherwise it
   * signals the event with the params and its run completes.
   */
  lemma SignalOutcome(job: JsValue)
    ensures var (o, s) := SignalJob(job);
      && (s.None? <==> !Truthy(job) || !Truthy(Get(job, "params")) || !Truthy(Get(Get(job, "params"), "event")))
      && (s.Some? ==> s.value == Signal(Get(Get(job, "params"), "event"), Get(job, "params")))
      && (s.Some? ==> Runner.NextOf(Runner.RunResult(o)) == Runner.Complete)
      && (s.None? ==> o.Threw? && Runner.NextOf(Runner.RunResult(o)) == Runner.FailWith(o.err))
  {
    var o := SignalJob(job).0;
    if o.Threw? {
      Runner.ThrownFails(o.err);
    } else {
      Runner.ReturnedResult(Undefined);
    }
  }

  lemma SignalErrors(job: JsValue)
    ensures !Truthy(job) ==>
      SignalJob(job).0 == Runner.Threw(ExceptionValue(Fail("invalid_request", "Job not specified", "sche_job_se1")))
    ensures Truthy(job) && (!Truthy(Get(job, "params")) || !Truthy(Get(Get(job, "params"), "event"))) ==>
      SignalJob(job).0 == Runner.Threw(ExceptionValue(Fail("invalid_request", "Event parameter required for this job", "sche_job_se2")))
  {
  }

  /** The poll runs every 60 ticks unless the configuration gives a truthy frequency. */
  lemma FrequencyDefault(conf: JsValue)
    ensures !Truthy(Get(conf, "frequency")) ==> Frequency(conf) == Int(60)
    ensures Truthy(Get(conf, "frequency")) ==> Frequency(conf) == Get(conf, "frequency")
  {
  }

  /**
   * The compare-and-swap: when no record with the id is ready, nothing is
   * claimed, and unless a record already carried this claim the re-read
   * finds nothing, so the claim is lost without any write.
   */
  lemma ClaimLost(docs: seq<Job>, uuid: string, claim: string, now: int)
    requires forall j :: 0 <= j < |docs| ==> !Store.Matches(docs[j], ReadyCriteria(uuid))
    requires forall j :: 0 <= j < |docs| ==> !(Store.Live(docs[j]) && Store.Matches(docs[j], ClaimCriteria(uuid, claim)))
    ensures Claimed(docs, uuid, claim, now) == docs
    ensures Winner(Claimed(docs, uuid, claim, now), uuid, claim) == None
  {
    Store.UpdateNothing(docs, ReadyCriteria(uuid), ClaimValues(claim, now), now);
    Store.FoundNone(docs, ClaimCriteria(uuid, claim));
  }

  /** A live ready record with the id is claimed, so the re-read finds a record with the id and the claim. */
  lemma ClaimWon(docs: seq<Job>, uuid: string, claim: string, now: int, j: nat)
    requires j < |docs| && Store.Live(docs[j]) && Store.Matches(docs[j], ReadyCriteria(uuid)) && claim != ""
    ensures var w := Winner(Claimed(docs, uuid, claim, now), uuid, claim);
      w.Some? && Field(w.value, "_uuid") == Str(uuid) && Field(w.value, "claim") == Str(claim)
  {
    var c := Claimed(docs, uuid, claim, now);
    var d := c[j];
    Store.SetFieldsAt(docs[j], ClaimValues(claim, now), now, "_uuid");
    Store.SetFieldsAt(docs[j], ClaimValues(claim, now), now, "claim");
    Store.SetFieldsAt(docs[j], ClaimValues(claim, now), now, "_deleted");
    assert Store.FieldMatches(Field(docs[j], "_uuid"), Str(uuid));
    assert Store.Matches(d, ClaimCriteria(uuid, claim));
    Store.FoundMember(c, ClaimCriteria(uuid, claim), d);
    var w := Store.Found(c, ClaimCriteria(uuid, claim))[0];
    assert w in Store.Found(c, ClaimCriteria(uuid, claim));
    assert Store.FieldMatches(Field(w, "_uuid"), Str(uuid));
    assert Store.FieldMatches(Field(w, "claim"), Str(claim));
  }

  /**
   * A won claim leaves the first record with the id "scheduled" when the
   * queue took the job and "ready" again when it refused it; the refused
   * record keeps the claim it was given.
   */
  lemma ScheduledStatus(docs: seq<Job>, uuid: string, admitted: bool, now: int)
    requires Store.FirstWithId(docs, uuid) >= 0
    ensures var i := Store.FirstWithId(docs, uuid);
      var after := Scheduled(docs, uuid, admitted, now);
      && |after| == |docs|
      && Field(after[i], "status") == Str(if admitted then "scheduled" else "ready")
      && Field(after[i], "claim") == Field(docs[i], "claim")
      && Field(after[i], "_uuid") == Str(uuid)
  {
    var i := Store.FirstWithId(docs, uuid);
    var marked := docs[i := Store.SetFields(docs[i], ScheduledValues, now)];
    Store.SetFieldsAt(docs[i], ScheduledValues, now, "status");
    Store.SetFieldsAt(docs[i], ScheduledValues, now, "claim");
    Store.SetFieldsAt(docs[i], ScheduledValues, now, "_uuid");
    if !admitted {
      assert Store.Matches(marked[i], Store.IdCriteria(uuid));
      Store.SetFieldsAt(marked[i], ReadyValues, now, "status");
      Store.SetFieldsAt(marked[i], ReadyValues, now, "claim");
      Store.SetFieldsAt(marked[i], ReadyValues, now, "_uuid");
    }
  }

  /** Every record `find({status: 'ready'})` returns is ready, so the heartbeat's status test never skips one. */
  lemma FoundReady(docs: seq<Job>)
    ensures forall j :: j in Store.Found(docs, map["status" := Str("ready")]) ==> Field(j, "status") == Str("ready")
  {
    forall j | j in Store.Found(docs, map["status" := Str("ready")]) ensures Field(j, "status") == Str("ready") {
      assert Store.FieldMatches(Field(j, "status"), Str("ready"));
    }
  }

  /** `loadJobs` with a stored job of that code whose version is not below the configured one writes nothing. */
  lemma LoadKeepsCurrent(docs: seq<Job>, code: string, entry: JsValue, owner: JsValue, now: int, todayAt: int,
                         freshCode: string, freshId: string)
    requires Store.StringIds(docs) && entry.Obj?
    requires Store.Found(docs, map["code" := Str(code)]) != []
    requires !LessThan(Field(Store.Found(docs, map["code" := Str(code)])[0], "version"), Field(entry.props, "version"))
    ensures LoadStep(docs, code, entry, owner, now, todayAt, freshCode, freshId) == (docs, Ok(Undefined))
  {
    VersionKept(entry.props, code);
  }

  /** Setting the code leaves the configured version as it is. */
  lemma VersionKept(m: map<string, JsValue>, code: string)
    ensures Get(Obj(m["code" := Str(code)]), "version") == Field(m, "version")
  {
    assert "version" != "code";
  }

  /** A stored job with a lower version is updated by id with the configured job, its code set to the key. */
  lemma LoadUpgrades(docs: seq<Job>, code: string, entry: JsValue, owner: JsValue, now: int, todayAt: int,
                     freshCode: string, freshId: string)
    requires Store.StringIds(docs) && entry.Obj?
    requires Store.Found(docs, map["code" := Str(code)]) != []
    requires LessThan(Field(Store.Found(docs, map["code" := Str(code)])[0], "version"), Field(entry.props, "version"))
    ensures var hit := Store.Found(docs, map["code" := Str(code)])[0];
      Field(hit, "_uuid").Str? &&
      LoadStep(docs, code, entry, owner, now, todayAt, freshCode, freshId).0 ==
        Jobs.UpdateEffect(docs, Store.ById(hit["_uuid"].s), Obj(entry.props["code" := Str(code)]), now).0
  {
    Store.FoundIds(docs, map["code" := Str(code)]);
    VersionKept(entry.props, code);
  }

  /** Without a stored job of that code, a successful round appends one record, whose code is the key. */
  lemma LoadCreates(docs: seq<Job>, code: string, entry: JsValue, owner: JsValue, now: int, todayAt: int,
                    freshCode: string, freshId: string)
    requires Store.StringIds(docs) && entry.Obj? && code != ""
    requires Store.Found(docs, map["code" := Str(code)]) == []
    requires LoadStep(docs, code, entry, owner, now, todayAt, freshCode, freshId).1.Ok?
    ensures var after := LoadStep(docs, code, entry, owner, now, todayAt, freshCode, freshId).0;
      |after| == |docs| + 1 && after[..|docs|] == docs && Field(after[|docs|], "code") == Str(code)
  {
    var src := entry.props["code" := Str(code)];
    assert LoadStep(docs, code, entry, owner, now, todayAt, freshCode, freshId) ==
      Loaded(Jobs.CreateEffect(docs, owner, Obj(src), now, todayAt, freshCode, freshId));
    Jobs.CreatedCode(docs, owner, src, now, todayAt, freshCode, freshId);
  }

  /** A configured entry that is a primitive ends the load with a TypeError when its code is assigned. */
  lemma LoadNonObject(docs: seq<Job>, code: string, entry: JsValue, owner: JsValue, now: int, todayAt: int,
                      freshCode: string, freshId: string)
    requires Store.StringIds(docs) && !entry.Obj? && !entry.Arr?
    ensures LoadStep(docs, code, entry, owner, now, todayAt, freshCode, freshId) == (docs, Err(TypeError))
  {
  }

  /**
   * A configured entry that is an array writes nothing: its `version` is
   * undefined, so a stored job of that code is never below it, and without
   * one the create fails for want of a `run` definition.
   */
  lemma LoadArray(docs: seq<Job>, code: string, entry: JsValue, owner: JsValue, now: int, todayAt: int,
                  freshCode: string, freshId: string)
    requires Store.StringIds(docs) && entry.Arr?
    ensures var (after, r) := LoadStep(docs, code, entry, owner, now, todayAt, freshCode, freshId);
      && after == docs
      && (Store.Found(docs, map["code" := Str(code)]) == [] ==>
            r == Err(Jobs.SanError("Job must have run definition", "engine_scheduler_san1")))
      && (Store.Found(docs, map["code" := Str(code)]) != [] ==> r == Ok(Undefined))
  {
    if Store.Found(docs, map["code" := Str(code)]) == [] {
      ArrayCreateFails(docs, entry, owner, now, todayAt, freshCode, freshId);
    } else {
      ArrayNamedUndefined(entry.items, "version");
      NothingBelowUndefined(Field(Store.Found(docs, map["code" := Str(code)])[0], "version"));
    }
  }

  /** Creating from an array fails for want of a `run` definition, and writes nothing. */
  lemma ArrayCreateFails(docs: seq<Job>, entry: JsValue, owner: JsValue, now: int, todayAt: int,
                         freshCode: string, freshId: string)
    requires entry.Arr?
    ensures Jobs.CreateEffect(docs, owner, entry, now, todayAt, freshCode, freshId) ==
      (docs, Err(Jobs.SanError("Job must have run definition", "engine_scheduler_san1")))
  {
    ArrayNamedUndefined(entry.items, "run");
  }

  /** The load stops at the first failing round: its error is the result and the later rounds do not run. */
  lemma LoadStopsAtError(docs: seq<Job>, entries: map<string, JsValue>, order: seq<string>, i: nat,
                           owner: JsValue, now: int, todayAt: int, freshCode: string, freshIds: nat -> string)
    requires Store.StringIds(docs)
    requires forall k :: 0 <= k < |order| ==> order[k] in entries
    requires i < |order|
    requires LoadStep(docs, order[i], entries[order[i]], owner, now, todayAt, freshCode, freshIds(i)).1.Err?
    ensures LoadFrom(docs, entries, order, i, owner, now, todayAt, freshCode, freshIds) ==
      LoadStep(docs, order[i], entries[order[i]], owner, now, todayAt, freshCode, freshIds(i))
  {
  }

  /** A load that succeeds ran every round without error. */
  lemma {:induction false} LoadOk(docs: seq<Job>, entries: map<string, JsValue>, order: seq<string>, i: nat,
                                  owner: JsValue, now: int, todayAt: int, freshCode: string, freshIds: nat -> string)
    requires Store.StringIds(docs)
    requires forall k :: 0 <= k < |order| ==> order[k] in entries
    requires i < |order|
    requires LoadFrom(docs, entries, order, i, owner, now, todayAt, freshCode, freshIds).1.Ok?
    ensures LoadStep(docs, order[i], entries[order[i]], owner, now, todayAt, freshCode, freshIds(i)).1.Ok?
    ensures LoadFrom(docs, entries, order, i, owner, now, todayAt, freshCode, freshIds).1 == Ok(Undefined)
    decreases |order| - i
  {
    var (after, r) := LoadStep(docs, order[i], entries[order[i]], owner, now, todayAt, freshCode, freshIds(i));
    if i + 1 < |order| {
      LoadStepKeepsIds(docs, order[i], entries[order[i]], owner, now, todayAt, freshCode, freshIds(i));
      LoadOk(after, entries, order, i + 1, owner, now, todayAt, freshCode, freshIds);
    }
  }
}
