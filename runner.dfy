/**
 * `JobRunner` (src/component/scheduler/runner.ts): runs one job.  `start`
 * marks the record `running` and audits "started", runs the handler of the
 * job's type, and then fails, reschedules or completes the record according
 * to the status the handler returned.  The handler is not part of this
 * model: its outcome (a returned value or a thrown value) is an input.  The
 * audit component is a log of messages the runner appends to; the records
 * live in the document store behind `Jobs.update`.
 *
 * The switch in `start` does not await `fail`, `reschedule` or `complete`;
 * here their writes take place before `start` settles and their outcome is
 * ignored, as the code ignores it.
 */
module Runner {
  import opened Js
  import opened Errors
  import Strip
  import JobValidator
  import Store
  import Jobs

  type Job = map<string, JsValue>

  /** What the handler did: returned a value or threw one. */
  datatype Outcome = Threw(err: JsValue) | Returned(result: JsValue)

  /**
   * `run(job)`: a thrown value becomes a failed status carrying it; an empty
   * result, one without a status or with status "completed" becomes
   * `{status: 'completed'}`; any other result is passed on as it is.
   */
  function RunResult(o: Outcome): JsValue {
    match o
    case Threw(err) => Obj(map["status" := Str("failed"), "error" := err])
    case Returned(result) =>
      if !Truthy(result) || !Truthy(Get(result, "status")) || Get(result, "status") == Str("completed")
      then Obj(map["status" := Str("completed")])
      else result
  }

  /** The branch of the switch in `start` that a run result takes. */
  datatype Next = FailWith(error: JsValue) | Reschedule(state: JsValue) | Complete | BadStatus

  /** `switch (result.status)`, with the values the branches read. */
  function NextOf(result: JsValue): Next {
    var status := Get(result, "status");
    if status == Str("failed") then FailWith(Get(result, "error"))
    else if status == Str("reschedule") then Reschedule(Get(result, "state"))
    else if status == Str("completed") then Complete
    else BadStatus
  }

  /** The audit message `${job.name} (${job._uuid}) [${job.type}] <verb>`. */
  function AuditLine(job: Job, verb: string): string {
    ToStr(Field(job, "name")) + " (" + ToStr(Field(job, "_uuid")) + ") [" + ToStr(Field(job, "type")) + "] " + verb
  }

  function RunningPatch(): JsValue {
    Obj(map["status" := Str("running")])
  }

  function FailPatch(error: JsValue): JsValue {
    Obj(map["status" := Str("failed"), "error" := error])
  }

  function CompletePatch(): JsValue {
    Obj(map["status" := Str("completed")])
  }

  function ReschedulePatch(state: JsValue): JsValue {
    Obj(map["status" := Str("ready"), "claim" := Null, "claim_expire" := Null, "state" := state])
  }

  /** What `Jobs.update` writes for each of these patches once `sanitizeUpdate` has run. */
  const RunningValues: Job := map["status" := Str("running")]
  const CompleteValues: Job := map["status" := Str("completed")]

  function FailValues(error: JsValue): Job {
    if Strip.Kept(error) then map["status" := Str("failed"), "error" := error] else map["status" := Str("failed")]
  }

  function RescheduleValues(state: JsValue): Job {
    map["status" := Str("ready"), "state" := state]
  }

  /** The store, the audit messages appended and the outcome of a runner step. */
  datatype Effect = Effect(docs: seq<Job>, audit: seq<string>, result: Result<JsValue>)

  /** The id the runner addresses the job's record by. */
  function Id(job: Job): string
    requires Field(job, "_uuid").Str?
  {
    job["_uuid"].s
  }

  /** `fail(job, error)`: audit "failed" and write the failed status with the error. */
  function Failed(docs: seq<Job>, job: Job, error: JsValue, now: int): Effect
    requires Field(job, "_uuid").Str?
  {
    var (after, r) := Store.Written(docs, Store.ById(Id(job)), FailValues(error), now);
    Effect(after, [AuditLine(job, "failed")], r)
  }

  /** `complete(job)`: audit "completed" and write the completed status. */
  function Completed(docs: seq<Job>, job: Job, now: int): Effect
    requires Field(job, "_uuid").Str?
  {
    var (after, r) := Store.Written(docs, Store.ById(Id(job)), CompleteValues, now);
    Effect(after, [AuditLine(job, "completed")], r)
  }

  /** The store after `reschedule(job, result)`: a ready patch with the new state, only when there is one. */
  function Rescheduled(docs: seq<Job>, job: Job, result: JsValue, now: int): seq<Job>
    requires Field(job, "_uuid").Str?
  {
    var state := Get(result, "state");
    if Get(result, "status") == Str("reschedule") && Truthy(state) then
      Store.Written(docs, Store.ByCriteria(Store.IdCriteria(Id(job))), RescheduleValues(state), now).0
    else docs
  }

  /** What the switch in `start` does with a run result once the record is marked running. */
  function Followed(docs: seq<Job>, job: Job, result: JsValue, now: int): Effect
    requires Field(job, "_uuid").Str?
  {
    match NextOf(result)
    case FailWith(error) =>
      var f := Failed(docs, job, error, now);
      Effect(f.docs, f.audit, Ok(Undefined))
    case Reschedule(_) =>
      Effect(Rescheduled(docs, job, result, now), [], Ok(Undefined))
    case Complete =>
      var c := Completed(docs, job, now);
      Effect(c.docs, c.audit, Ok(Undefined))
    case BadStatus =>
      var f := Failed(docs, job, Undefined, now);
      Effect(f.docs, f.audit, if f.result.Err? then f.result else Ok(Undefined))
  }

  /** Everything `start(job)` does to the store and the audit log, and how it settles. */
  function StartEffect(docs: seq<Job>, job: Job, o: Outcome, now: int): Effect
    requires Field(job, "_uuid").Str?
  {
    var (marked, r) := Store.Written(docs, Store.ById(Id(job)), RunningValues, now);
    if r.Err? then
      var f := Failed(marked, job, Undefined, now);
      Effect(f.docs, f.audit, if f.result.Err? then f.result else Ok(Undefined))
    else
      var f := Followed(marked, job, RunResult(o), now);
      Effect(f.docs, [AuditLine(job, "started")] + f.audit, f.result)
  }

  class JobRunner {
    const db: Store.Store
    /** The messages this runner has written to the audit log. */
    var audit: seq<string>

    constructor(db: Store.Store)
      ensures this.db == db && audit == []
    {
      this.db := db;
      audit := [];
    }

    /** `start(job)`; the handler's outcome is given. */
    method Start(job: Job, outcome: Outcome, now: int) returns (r: Result<JsValue>)
      requires Field(job, "_uuid").Str?
      modifies this, db
      ensures var e := StartEffect(old(db.docs), job, outcome, now);
        db.docs == e.docs && audit == old(audit) + e.audit && r == e.result
    {
      var marked := Mark(job, now);
      if marked.Err? {
        var failed := Fail(job, Undefined, now);
        r := if failed.Err? then failed else Ok(Undefined);
        return;
      }
      ghost var before := audit;
      audit := audit + [AuditLine(job, "started")];
      ghost var mid := db.docs;
      r := FollowUp(job, RunResult(outcome), now);
      ghost var f := Followed(mid, job, RunResult(outcome), now);
      assert audit == before + ([AuditLine(job, "started")] + f.audit);
    }

    /** The first write of `start`: `update(job._uuid, {status: 'running'})`. */
    method Mark(job: Job, now: int) returns (r: Result<JsValue>)
      requires Field(job, "_uuid").Str?
      modifies db
      ensures (db.docs, r) == Store.Written(old(db.docs), Store.ById(Id(job)), RunningValues, now)
    {
      RunningSanitized();
      r := Jobs.Update(db, Store.ById(Id(job)), RunningPatch(), now);
    }

    /** The switch in `start` on the run result. */
    method FollowUp(job: Job, result: JsValue, now: int) returns (r: Result<JsValue>)
      requires Field(job, "_uuid").Str?
      modifies this, db
      ensures var e := Followed(old(db.docs), job, result, now);
        db.docs == e.docs && audit == old(audit) + e.audit && r == e.result
    {
      match NextOf(result)
      case FailWith(error) =>
        var _ := Fail(job, error, now);
        r := Ok(Undefined);
      case Reschedule(_) =>
        var _ := Reschedule(job, result, now);
        r := Ok(Undefined);
      case Complete =>
        var _ := Complete(job, now);
        r := Ok(Undefined);
      case BadStatus =>
        var failed := Fail(job, Undefined, now);
        r := if failed.Err? then failed else Ok(Undefined);
    }

    /** `complete(job)`. */
    method Complete(job: Job, now: int) returns (r: Result<JsValue>)
      requires Field(job, "_uuid").Str?
      modifies this, db
      ensures var e := Completed(old(db.docs), job, now);
        db.docs == e.docs && audit == old(audit) + e.audit && r == e.result
    {
      CompleteSanitized();
      audit := audit + [AuditLine(job, "completed")];
      r := Jobs.Update(db, Store.ById(Id(job)), CompletePatch(), now);
    }

    /** `fail(job, error)`; `error` is undefined when the caller gives none. */
    method Fail(job: Job, error: JsValue, now: int) returns (r: Result<JsValue>)
      requires Field(job, "_uuid").Str?
      modifies this, db
      ensures var e := Failed(old(db.docs), job, error, now);
        db.docs == e.docs && audit == old(audit) + e.audit && r == e.result
    {
      FailSanitized(error);
      audit := audit + [AuditLine(job, "failed")];
      r := Jobs.Update(db, Store.ById(Id(job)), FailPatch(error), now);
    }

    /** `reschedule(job, result)`: resolves `{status: 'reschedule'}` when it wrote, undefined otherwise. */
    method Reschedule(job: Job, result: JsValue, now: int) returns (r: JsValue)
      requires Field(job, "_uuid").Str?
      modifies db
      ensures db.docs == Rescheduled(old(db.docs), job, result, now)
      ensures r == if Get(result, "status") == Str("reschedule") && Truthy(Get(result, "state"))
        then Obj(map["status" := Str("reschedule")]) else Undefined
    {
      var state := Get(result, "state");
      if Get(result, "status") == Str("reschedule") && Truthy(state) {
        RescheduleSanitized(state);
        var _ := Jobs.Update(db, Store.ByCriteria(Store.IdCriteria(Id(job))), ReschedulePatch(state), now);
        return Obj(map["status" := Str("reschedule")]);
      }
      return Undefined;
    }
  }

  // ---------------------------------------------------------------------
  // The patches the runner writes

  /** `{status: 'running'}` passes `sanitizeUpdate` as it is. */
  lemma RunningSanitized()
    ensures Jobs.SanitizeUpdate(RunningPatch()) == Ok(RunningValues)
  {
    assert JobValidator.StatusCodes[3] == "running";
    StatusSanitized("running");
  }

  /** `{status: 'completed'}` passes `sanitizeUpdate` as it is. */
  lemma CompleteSanitized()
    ensures Jobs.SanitizeUpdate(CompletePatch()) == Ok(CompleteValues)
  {
    assert JobValidator.StatusCodes[5] == "completed";
    StatusSanitized("completed");
  }

  /** A patch that only sets a known (non-empty) status passes `sanitizeUpdate` as it is. */
  lemma StatusSanitized(status: string)
    requires status in JobValidator.StatusCodes && status != ""
    ensures Jobs.SanitizeUpdate(Obj(map["status" := Str(status)])) == Ok(map["status" := Str(status)])
  {
    var src := map["status" := Str(status)];
    assert Jobs.RunnerPatch(src);
    Jobs.ObjPatchIsKept(src);
    assert Strip.Kept(src["status"]);
    Strip.KeptMapNoop(src);
  }

  /** `{status: 'failed', error}` passes `sanitizeUpdate`, losing the error when `strip` drops it. */
  lemma FailSanitized(error: JsValue)
    ensures Jobs.SanitizeUpdate(FailPatch(error)) == Ok(FailValues(error))
  {
    FailPatchKept(error);
    Jobs.ObjPatchIsKept(map["status" := Str("failed"), "error" := error]);
  }

  lemma FailPatchKept(error: JsValue)
    ensures var src := map["status" := Str("failed"), "error" := error];
      Jobs.RunnerPatch(src) && Strip.KeptMap(src) == FailValues(error)
  {
    assert "failed" in JobValidator.StatusCodes;
  }

  /**
   * The reschedule patch passes `sanitizeUpdate` with status "ready" and the
   * new state, but `claim: null` and `claim_expire: null` are stripped from
   * it: a rescheduled record keeps its claim.
   */
  lemma RescheduleSanitized(state: JsValue)
    requires Truthy(state)
    ensures Jobs.SanitizeUpdate(ReschedulePatch(state)) == Ok(RescheduleValues(state))
  {
    ReschedulePatchKept(state);
    Jobs.ObjPatchIsKept(map["status" := Str("ready"), "claim" := Null, "claim_expire" := Null, "state" := state]);
  }

  lemma ReschedulePatchKept(state: JsValue)
    requires Truthy(state)
    ensures var src := map["status" := Str("ready"), "claim" := Null, "claim_expire" := Null, "state" := state];
      Jobs.RunnerPatch(src) && Strip.KeptMap(src) == RescheduleValues(state)
  {
    assert "ready" in JobValidator.StatusCodes;
  }

  // ---------------------------------------------------------------------
  // What run makes of the handler's outcome

  /** A thrown value fails the job with that value as its error. */
  lemma ThrownFails(err: JsValue)
    ensures NextOf(RunResult(Threw(err))) == FailWith(err)
  {
  }

  /** An empty result, a result without a status or with status "completed" completes the job; any other is kept. */
  lemma ReturnedResult(result: JsValue)
    ensures !Truthy(result) || !Truthy(Get(result, "status")) || Get(result, "status") == Str("completed") ==>
      NextOf(RunResult(Returned(result))) == Complete
    ensures Truthy(result) && Truthy(Get(result, "status")) && Get(result, "status") != Str("completed") ==>
      RunResult(Returned(result)) == result && NextOf(result) != Complete
  {
  }

  // ---------------------------------------------------------------------
  // What start does to the record

  /** With a record, `start` marks it running, audits "started" and goes on with the run result. */
  lemma StartMarked(docs: seq<Job>, job: Job, o: Outcome, now: int)
    requires Field(job, "_uuid").Str? && Store.FirstWithId(docs, Id(job)) >= 0
    ensures var i := Store.FirstWithId(docs, Id(job));
      var marked := docs[i := Store.SetFields(docs[i], RunningValues, now)];
      var f := Followed(marked, job, RunResult(o), now);
      && Store.FirstWithId(marked, Id(job)) == i
      && StartEffect(docs, job, o, now) == Effect(f.docs, [AuditLine(job, "started")] + f.audit, f.result)
  {
    Store.FirstWithIdAfterSet(docs, Id(job), RunningValues, now);
  }

  /** `fail` on an existing record audits "failed" and sets the failed values on it. */
  lemma FailedAt(docs: seq<Job>, job: Job, error: JsValue, now: int)
    requires Field(job, "_uuid").Str? && Store.FirstWithId(docs, Id(job)) >= 0
    ensures var i := Store.FirstWithId(docs, Id(job));
      var f := Failed(docs, job, error, now);
      && f.result.Ok? && f.audit == [AuditLine(job, "failed")]
      && f.docs == docs[i := Store.SetFields(docs[i], FailValues(error), now)]
  {
  }

  /** Without a record, `start` audits only "failed", writes nothing and rejects with not_found. */
  lemma StartWithoutRecord(docs: seq<Job>, job: Job, o: Outcome, now: int)
    requires Field(job, "_uuid").Str? && Store.FirstWithId(docs, Id(job)) == -1
    ensures StartEffect(docs, job, o, now) == Effect(docs, [AuditLine(job, "failed")], Err(Store.NotFoundUpdate))
  {
  }

  /**
   * A handler that failed (or threw) leaves the record failed, with the
   * error when `strip` keeps it; every other record is untouched.
   */
  lemma StartFails(docs: seq<Job>, job: Job, o: Outcome, now: int, error: JsValue)
    requires Field(job, "_uuid").Str? && Store.FirstWithId(docs, Id(job)) >= 0
    requires NextOf(RunResult(o)) == FailWith(error)
    ensures var i := Store.FirstWithId(docs, Id(job));
      var e := StartEffect(docs, job, o, now);
      && e.audit == [AuditLine(job, "started"), AuditLine(job, "failed")]
      && e.result == Ok(Undefined)
      && |e.docs| == |docs|
      && Field(e.docs[i], "status") == Str("failed")
      && (Strip.Kept(error) ==> Field(e.docs[i], "error") == error)
      && (forall j :: 0 <= j < |docs| && j != i ==> e.docs[j] == docs[j])
  {
    StartMarked(docs, job, o, now);
    var i := Store.FirstWithId(docs, Id(job));
    var marked := docs[i := Store.SetFields(docs[i], RunningValues, now)];
    FailedAt(marked, job, error, now);
    var f := Failed(marked, job, error, now);
    assert Followed(marked, job, RunResult(o), now) == Effect(f.docs, f.audit, Ok(Undefined));
    var e := StartEffect(docs, job, o, now);
    assert e == Effect(f.docs, [AuditLine(job, "started")] + f.audit, Ok(Undefined));
    assert e.docs == marked[i := Store.SetFields(marked[i], FailValues(error), now)];
    Store.SetFieldsAt(marked[i], FailValues(error), now, "status");
    Store.SetFieldsAt(marked[i], FailValues(error), now, "error");
  }

  /** A handler that completed leaves the record completed and audits "started" then "completed". */
  lemma StartCompletes(docs: seq<Job>, job: Job, o: Outcome, now: int)
    requires Field(job, "_uuid").Str? && Store.FirstWithId(docs, Id(job)) >= 0
    requires NextOf(RunResult(o)) == Complete
    ensures var i := Store.FirstWithId(docs, Id(job));
      var e := StartEffect(docs, job, o, now);
      && e.audit == [AuditLine(job, "started"), AuditLine(job, "completed")]
      && e.result == Ok(Undefined)
      && |e.docs| == |docs|
      && Field(e.docs[i], "status") == Str("completed")
      && (forall j :: 0 <= j < |docs| && j != i ==> e.docs[j] == docs[j])
  {
    StartMarked(docs, job, o, now);
    var i := Store.FirstWithId(docs, Id(job));
    var marked := docs[i := Store.SetFields(docs[i], RunningValues, now)];
    Store.SetFieldsAt(marked[i], CompleteValues, now, "status");
  }

  /**
   * An unknown result status is thrown inside `start` and caught: the record
   * is failed without an error, so any earlier error stays.
   */
  lemma StartBadStatus(docs: seq<Job>, job: Job, o: Outcome, now: int)
    requires Field(job, "_uuid").Str? && Store.FirstWithId(docs, Id(job)) >= 0
    requires NextOf(RunResult(o)) == BadStatus
    ensures var i := Store.FirstWithId(docs, Id(job));
      var e := StartEffect(docs, job, o, now);
      && e.audit == [AuditLine(job, "started"), AuditLine(job, "failed")]
      && e.result == Ok(Undefined)
      && |e.docs| == |docs|
      && Field(e.docs[i], "status") == Str("failed")
      && Field(e.docs[i], "error") == Field(docs[i], "error")
  {
    StartMarked(docs, job, o, now);
    var i := Store.FirstWithId(docs, Id(job));
    var marked := docs[i := Store.SetFields(docs[i], RunningValues, now)];
    FailedAt(marked, job, Undefined, now);
    Store.SetFieldsAt(marked[i], FailValues(Undefined), now, "status");
    Store.SetFieldsAt(marked[i], FailValues(Undefined), now, "error");
    Store.SetFieldsAt(docs[i], RunningValues, now, "error");
  }

  /**
   * A reschedule with a new state makes the record ready with that state;
   * its claim and claim expiry stay as they were, and only "started" is audited.
   */
  lemma StartReschedules(docs: seq<Job>, job: Job, o: Outcome, now: int, state: JsValue)
    requires Field(job, "_uuid").Str? && Store.FirstWithId(docs, Id(job)) >= 0
    requires NextOf(RunResult(o)) == Reschedule(state) && Truthy(state)
    ensures var i := Store.FirstWithId(docs, Id(job));
      var e := StartEffect(docs, job, o, now);
      && e.audit == [AuditLine(job, "started")]
      && e.result == Ok(Undefined)
      && |e.docs| == |docs|
      && Field(e.docs[i], "status") == Str("ready")
      && Field(e.docs[i], "state") == state
      && Field(e.docs[i], "claim") == Field(docs[i], "claim")
      && Field(e.docs[i], "claim_expire") == Field(docs[i], "claim_expire")
  {
    StartMarked(docs, job, o, now);
    var i := Store.FirstWithId(docs, Id(job));
    var marked := docs[i := Store.SetFields(docs[i], RunningValues, now)];
    ReschedulesAt(marked, job, RunResult(o), now, i, state);
    var values := RescheduleValues(state);
    Store.SetFieldsAt(marked[i], values, now, "status");
    Store.SetFieldsAt(marked[i], values, now, "state");
    Store.SetFieldsAt(marked[i], values, now, "claim");
    Store.SetFieldsAt(marked[i], values, now, "claim_expire");
    Store.SetFieldsAt(docs[i], RunningValues, now, "claim");
    Store.SetFieldsAt(docs[i], RunningValues, now, "claim_expire");
  }

  /** The criteria update of `reschedule` sets the ready values on the record that start marked. */
  lemma ReschedulesAt(marked: seq<Job>, job: Job, result: JsValue, now: int, i: int, state: JsValue)
    requires Field(job, "_uuid").Str? && Store.FirstWithId(marked, Id(job)) == i >= 0
    requires NextOf(result) == Reschedule(state) && Truthy(state)
    ensures var f := Followed(marked, job, result, now);
      && f.audit == [] && f.result == Ok(Undefined) && |f.docs| == |marked|
      && f.docs[i] == Store.SetFields(marked[i], RescheduleValues(state), now)
  {
    assert Store.Matches(marked[i], Store.IdCriteria(Id(job)));
  }

  /** A reschedule without a state writes nothing more: the record stays "running". */
  lemma StartReschedulesWithoutState(docs: seq<Job>, job: Job, o: Outcome, now: int, state: JsValue)
    requires Field(job, "_uuid").Str? && Store.FirstWithId(docs, Id(job)) >= 0
    requires NextOf(RunResult(o)) == Reschedule(state) && !Truthy(state)
    ensures var i := Store.FirstWithId(docs, Id(job));
      var e := StartEffect(docs, job, o, now);
      && e.audit == [AuditLine(job, "started")]
      && e.result == Ok(Undefined)
      && |e.docs| == |docs|
      && Field(e.docs[i], "status") == Str("running")
  {
    StartMarked(docs, job, o, now);
    var i := Store.FirstWithId(docs, Id(job));
    Store.SetFieldsAt(docs[i], RunningValues, now, "status");
  }
}
