/**
 * `Jobs` (src/component/scheduler/jobs.ts): the job records of the `_jobs`
 * collection.  `sanitize` builds a new record from caller data (guards,
 * defaults, activation time, forced `ready`), `sanitizeUpdate` builds a
 * patch; both strip empty values and run every field that has a validator
 * through it.  The store-facing operations forward to the document store.
 * The clock (`now`), the instant `nextRun` computes as `start.toMillis()`
 * (`todayAt`, see `NextRun`) and the fresh ids are inputs.
 */
module Jobs {
  import opened Js
  import opened Errors
  import Strip
  import JobValidator
  import NextRun
  import Store

  type Job = map<string, JsValue>

  /** The fields of a new record, in the order `sanitize` writes them. */
  const CreateFields: seq<string> :=
    ["version", "code", "group", "status", "run", "type", "name", "description", "params", "meta", "state", "activate"]

  /** The fields of a patch, in the order `sanitizeUpdate` writes them. */
  const UpdateFields: seq<string> :=
    ["version", "code", "group", "status", "run", "activate", "type", "name", "description", "params", "meta",
     "claim", "claim_expire", "state", "error"]

  predicate Distinct(names: seq<string>) {
    forall i, j :: 0 <= i < j < |names| ==> names[i] != names[j]
  }

  /**
   * The loop over the record's own properties: each one that has a validator
   * is replaced by the validator's output; the first rejection is thrown.
   */
  function ApplyValidators(job: Job, names: seq<string>): (r: Result<Job>)
    ensures r.Ok? ==> r.value.Keys == job.Keys
    decreases |names|
  {
    if |names| == 0 then Ok(job)
    else
      var n := names[0];
      if n in job && JobValidator.Validator(n, job[n]).Some? then
        var v := JobValidator.Validator(n, job[n]).value;
        if v.Err? then Err(v.ex) else ApplyValidators(job[n := v.value], names[1..])
      else ApplyValidators(job, names[1..])
  }

  /** `parseInt(data.version) || 1`. */
  function DefaultVersion(v: JsValue): (i: int)
    ensures i != 0
  {
    var p := ParseIntValue(v);
    if p.Some? && p.value != 0 then p.value else 1
  }

  /** `a || b`. */
  function Or(a: JsValue, b: JsValue): (r: JsValue)
    ensures Truthy(a) ==> r == a
    ensures !Truthy(a) ==> r == b
  {
    if Truthy(a) then a else b
  }

  function SanError(description: string, trace: string): Exception {
    Fail("validation_error", description, trace)
  }

  /** The activation instant of a job whose own properties are `src`. */
  function Activation(src: Job, now: int, todayAt: int): int {
    NextRun.NextRun(Field(src, "run"), now, todayAt)
  }

  /** The given status or "waiting", overridden by "ready" once the activation instant is reached. */
  function DraftStatus(src: Job, now: int, todayAt: int): JsValue {
    if now >= Activation(src, now, todayAt) then Str("ready") else Or(Field(src, "status"), Str("waiting"))
  }

  /** The value `sanitize` gives field `k` of the record, from the own properties `src` of its input. */
  function DraftField(src: Job, k: string, now: int, todayAt: int, freshCode: string): JsValue {
    if k == "version" then Int(DefaultVersion(Field(src, "version")))
    else if k == "code" then Or(Field(src, "code"), Str(freshCode))
    else if k == "group" then Or(Field(src, "group"), Str("default"))
    else if k == "status" then DraftStatus(src, now, todayAt)
    else if k == "activate" then Int(Activation(src, now, todayAt))
    else Field(src, k)
  }

  /** The record `sanitize` builds, before stripping. */
  function Draft(src: Job, now: int, todayAt: int, freshCode: string): Job {
    map k | k in CreateFields :: DraftField(src, k, now, todayAt, freshCode)
  }

  /** The draft after `strip`. */
  function KeptDraft(src: Job, now: int, todayAt: int, freshCode: string): Job {
    Strip.KeptMap(Draft(src, now, todayAt, freshCode))
  }

  /** `sanitize(data)` for a truthy `data` with own properties `src`. */
  function SanitizeProps(src: Job, now: int, todayAt: int, freshCode: string): (r: Result<Job>)
    ensures !Truthy(Field(src, "run")) ==> r == Err(SanError("Job must have run definition", "engine_scheduler_san1"))
    ensures Truthy(Field(src, "run")) && !Truthy(Field(src, "type")) ==>
      r == Err(SanError("Job must have a type", "engine_scheduler_san2"))
    ensures Truthy(Field(src, "run")) && Truthy(Field(src, "type")) && !Truthy(Field(src, "name")) ==>
      r == Err(SanError("Job must have a name", "engine_scheduler_san3"))
  {
    if !Truthy(Field(src, "run")) then Err(SanError("Job must have run definition", "engine_scheduler_san1"))
    else if !Truthy(Field(src, "type")) then Err(SanError("Job must have a type", "engine_scheduler_san2"))
    else if !Truthy(Field(src, "name")) then Err(SanError("Job must have a name", "engine_scheduler_san3"))
    else ApplyValidators(KeptDraft(src, now, todayAt, freshCode), CreateFields)
  }

  /**
   * `sanitize(data)`: the guard chain (empty job, then missing run, type and
   * name), then the stripped and validated draft.
   */
  function Sanitize(data: JsValue, now: int, todayAt: int, freshCode: string): (r: Result<Job>)
    ensures !Truthy(data) ==> r == Err(SanError("Can not create empty job", "engine_scheduler_san0"))
    ensures Truthy(data) && !Truthy(Get(data, "run")) ==>
      r == Err(SanError("Job must have run definition", "engine_scheduler_san1"))
    ensures Truthy(data) && Truthy(Get(data, "run")) && !Truthy(Get(data, "type")) ==>
      r == Err(SanError("Job must have a type", "engine_scheduler_san2"))
    ensures Truthy(data) && Truthy(Get(data, "run")) && Truthy(Get(data, "type")) && !Truthy(Get(data, "name")) ==>
      r == Err(SanError("Job must have a name", "engine_scheduler_san3"))
  {
    if !Truthy(data) then Err(SanError("Can not create empty job", "engine_scheduler_san0"))
    else SanitizeProps(OwnProps(data), now, todayAt, freshCode)
  }

  /** The value `sanitizeUpdate` gives field `k` of the patch: `error` only for a failed status. */
  function PatchDraftField(src: Job, k: string): JsValue {
    if k == "error" then (if Field(src, "status") == Str("failed") then Field(src, "error") else Null)
    else Field(src, k)
  }

  /** The patch `sanitizeUpdate` builds from the own properties `src` of its input, before stripping. */
  function UpdateDraft(src: Job): Job {
    map k | k in UpdateFields :: PatchDraftField(src, k)
  }

  /** The patch draft after `strip`. */
  function KeptPatch(src: Job): Job {
    Strip.KeptMap(UpdateDraft(src))
  }

  /** `sanitizeUpdate(data)` for a `data` with own properties `src`. */
  function SanitizePatch(src: Job): Result<Job> {
    ApplyValidators(KeptPatch(src), UpdateFields)
  }

  /** `sanitizeUpdate(data)`; reading a field of null or undefined throws a TypeError. */
  function SanitizeUpdate(data: JsValue): (r: Result<Job>)
    ensures Nullish(data) ==> r == Err(TypeError)
    ensures !Nullish(data) ==> r == SanitizePatch(OwnProps(data))
  {
    if Nullish(data) then Err(TypeError)
    else SanitizePatch(OwnProps(data))
  }

  /** `find(criteria, skip, limit)`: the criteria object with `skip` and `limit` written into it. */
  function FindCriteria(criteria: Option<map<string, JsValue>>, skip: JsValue, limit: JsValue): (c: map<string, JsValue>)
    ensures Truthy(skip) ==> "skip" in c && c["skip"] == skip
    ensures Truthy(limit) ==> "limit" in c && c["limit"] == limit
    ensures forall k :: k != "skip" && k != "limit" ==>
      (k in c <==> criteria.Some? && k in criteria.value)
    ensures forall k :: k in c && k != "skip" && k != "limit" ==> c[k] == criteria.value[k]
  {
    var c0 := if criteria.Some? then criteria.value else map[];
    var c1 := if Truthy(skip) then c0["skip" := skip] else c0;
    if Truthy(limit) then c1["limit" := limit] else c1
  }

  // ---------------------------------------------------------------------
  // Store-facing operations

  /** `create(job)`: sanitise, then insert as the system user. */
  method Create(db: Store.Store, owner: JsValue, data: JsValue, now: int, todayAt: int, freshCode: string, freshId: string)
    returns (r: Result<JsValue>)
    modifies db
    ensures Sanitize(data, now, todayAt, freshCode).Err? ==>
      r == Err(Sanitize(data, now, todayAt, freshCode).ex) && db.docs == old(db.docs)
    ensures Sanitize(data, now, todayAt, freshCode).Ok? && owner.Str? && owner.s != "" ==>
      (r == Ok(Obj(map["id" := Str(freshId)])) &&
       db.docs == old(db.docs) + [Store.Stamped(Sanitize(data, now, todayAt, freshCode).value, owner, freshId, now)])
    ensures (db.docs, r) == CreateEffect(old(db.docs), owner, data, now, todayAt, freshCode, freshId)
  {
    var job := Sanitize(data, now, todayAt, freshCode);
    if job.Err? {
      return Err(job.ex);
    }
    SanitizedHasNoId(OwnProps(data), now, todayAt, freshCode);
    r := db.Create(owner, Obj(job.value), freshId, now);
  }

  /** The documents and the result of `create(data)` with `owner` as the system account. */
  function CreateEffect(docs: seq<Job>, owner: JsValue, data: JsValue, now: int, todayAt: int, freshCode: string, freshId: string)
    : (seq<Job>, Result<JsValue>)
  {
    var job := Sanitize(data, now, todayAt, freshCode);
    if job.Err? then (docs, Err(job.ex))
    else Store.Inserted(docs, owner, Obj(job.value), freshId, now)
  }

  /** `get(jobId)`: the live record with that `_uuid`, or `not_found`. */
  method GetJob(db: Store.Store, jobId: string) returns (r: Result<Job>)
    ensures Store.Found(db.docs, Store.IdCriteria(jobId)) == [] ==> r == Err(Store.NotFoundOne)
    ensures Store.Found(db.docs, Store.IdCriteria(jobId)) != [] ==>
      r == Ok(Store.Found(db.docs, Store.IdCriteria(jobId))[0])
  {
    r := db.FindOne(Store.IdCriteria(jobId));
  }

  /** `find(criteria, skip, limit)`. */
  method Find(db: Store.Store, criteria: Option<map<string, JsValue>>, skip: JsValue, limit: JsValue)
    returns (r: seq<Job>)
    ensures r == Store.Found(db.docs, FindCriteria(criteria, skip, limit))
  {
    r := db.Find(FindCriteria(criteria, skip, limit));
  }

  /** `findOne(criteria)`. */
  method FindOne(db: Store.Store, criteria: map<string, JsValue>) returns (r: Result<Job>)
    ensures Store.Found(db.docs, criteria) == [] ==> r == Err(Store.NotFoundOne)
    ensures Store.Found(db.docs, criteria) != [] ==> r == Ok(Store.Found(db.docs, criteria)[0])
  {
    r := db.FindOne(criteria);
  }

  /** The documents and the result of `update(target, data)` on the documents `docs`. */
  function UpdateEffect(docs: seq<Job>, target: Store.Target, data: JsValue, now: int): (seq<Job>, Result<JsValue>) {
    var patch := SanitizeUpdate(data);
    if patch.Err? then (docs, Err(patch.ex))
    else Store.Written(docs, target, patch.value, now)
  }

  /** `update(idOrFilter, job)`: sanitise the patch, then a by-id or a criteria update. */
  method Update(db: Store.Store, target: Store.Target, data: JsValue, now: int) returns (r: Result<JsValue>)
    modifies db
    ensures (db.docs, r) == UpdateEffect(old(db.docs), target, data, now)
  {
    var patch := SanitizeUpdate(data);
    if patch.Err? {
      return Err(patch.ex);
    }
    r := Write(db, target, patch.value, now);
  }

  /** The store's `update`: a string id updates one record, a criteria object all matching ones. */
  method Write(db: Store.Store, target: Store.Target, values: Job, now: int) returns (r: Result<JsValue>)
    modifies db
    ensures (db.docs, r) == Store.Written(old(db.docs), target, values, now)
  {
    match target
    case ById(id) =>
      r := db.UpdateById(id, values, now);
    case ByCriteria(criteria) =>
      var counts := db.UpdateAll(criteria, values, now);
      r := Ok(counts);
  }

  /** `remove(jobId)`. */
  method Remove(db: Store.Store, jobId: string) returns (r: Result<JsValue>)
    modifies db
    ensures Store.Found(old(db.docs), Store.IdCriteria(jobId)) == [] ==>
      r == Err(Store.NotFoundGet) && db.docs == old(db.docs)
    ensures Store.Found(old(db.docs), Store.IdCriteria(jobId)) != [] ==>
      (r == Ok(Obj(map["id" := Str(jobId)])) && db.docs == Store.Deleted(old(db.docs), jobId))
  {
    r := db.Remove(jobId);
  }

  // ---------------------------------------------------------------------
  // Properties of the validator loop

  /**
   * With distinct names, a successful loop keeps the keys, replaces each
   * named field that has a validator by that validator's output, and leaves
   * every other field as it was.
   */
  lemma {:induction false} ApplyValidatorsOk(job: Job, names: seq<string>, k: string)
    requires Distinct(names)
    requires ApplyValidators(job, names).Ok?
    requires k in job
    ensures k in names && JobValidator.Validator(k, job[k]).Some? ==>
      JobValidator.Validator(k, job[k]) == Some(Ok(ApplyValidators(job, names).value[k]))
    ensures !(k in names && JobValidator.Validator(k, job[k]).Some?) ==>
      ApplyValidators(job, names).value[k] == job[k]
    decreases |names|
  {
    if |names| > 0 {
      var n := names[0];
      assert forall i, j :: 0 <= i < j < |names[1..]| ==> names[1..][i] == names[i + 1] && names[1..][j] == names[j + 1];
      assert k in names <==> k == n || k in names[1..];
      if n in job && JobValidator.Validator(n, job[n]).Some? {
        var v := JobValidator.Validator(n, job[n]).value;
        var job' := job[n := v.value];
        assert n !in names[1..];
        ApplyValidatorsOk(job', names[1..], k);
        if k == n {
          ApplyValidatorsSkips(job', names[1..], k);
        }
      } else {
        ApplyValidatorsOk(job, names[1..], k);
        if k == n {
          ApplyValidatorsSkips(job, names[1..], k);
        }
      }
    }
  }

  /** A field the loop does not visit keeps its value. */
  lemma {:induction false} ApplyValidatorsSkips(job: Job, names: seq<string>, k: string)
    requires ApplyValidators(job, names).Ok?
    requires k in job && k !in names
    ensures ApplyValidators(job, names).value[k] == job[k]
    decreases |names|
  {
    if |names| > 0 {
      var n := names[0];
      if n in job && JobValidator.Validator(n, job[n]).Some? {
        ApplyValidatorsSkips(job[n := JobValidator.Validator(n, job[n]).value.value], names[1..], k);
      } else {
        ApplyValidatorsSkips(job, names[1..], k);
      }
    }
  }

  /**
   * A named field whose validator rejects makes the whole loop reject, so no
   * invalid value gets through.
   */
  lemma {:induction false} ApplyValidatorsFails(job: Job, names: seq<string>, k: string)
    requires k in names && k in job
    requires JobValidator.Validator(k, job[k]).Some? && JobValidator.Validator(k, job[k]).value.Err?
    ensures ApplyValidators(job, names).Err?
    decreases |names|
  {
    var n := names[0];
    if n != k {
      assert k in names[1..];
      if n in job && JobValidator.Validator(n, job[n]).Some? {
        var v := JobValidator.Validator(n, job[n]).value;
        if v.Ok? {
          ApplyValidatorsFails(job[n := v.value], names[1..], k);
        }
      } else {
        ApplyValidatorsFails(job, names[1..], k);
      }
    }
  }

  lemma CreateDistinct()
    ensures Distinct(CreateFields)
  {
  }

  lemma UpdateDistinct()
    ensures Distinct(UpdateFields)
  {
  }

  // ---------------------------------------------------------------------
  // Properties of sanitize

  /** An accepted job passed the guard chain, and is its stripped draft after the validators. */
  lemma SanitizeUnfold(src: Job, now: int, todayAt: int, freshCode: string)
    requires SanitizeProps(src, now, todayAt, freshCode).Ok?
    ensures Truthy(Field(src, "run")) && Truthy(Field(src, "type")) && Truthy(Field(src, "name"))
      && SanitizeProps(src, now, todayAt, freshCode) == ApplyValidators(KeptDraft(src, now, todayAt, freshCode), CreateFields)
  {
  }

  /** A listed field survives `strip` exactly when its draft value is kept, and keeps that value. */
  lemma KeptDraftAt(src: Job, k: string, now: int, todayAt: int, freshCode: string)
    requires k in CreateFields
    ensures var kept := KeptDraft(src, now, todayAt, freshCode);
      && (k in kept <==> Strip.Kept(DraftField(src, k, now, todayAt, freshCode)))
      && (k in kept ==> kept[k] == DraftField(src, k, now, todayAt, freshCode))
  {
    var d := Draft(src, now, todayAt, freshCode);
    assert k in d && d[k] == DraftField(src, k, now, todayAt, freshCode);
    Strip.KeptMapAt(d, k);
  }

  /** Only listed fields are in an accepted record. */
  lemma SanitizeKeys(src: Job, now: int, todayAt: int, freshCode: string, k: string)
    requires SanitizeProps(src, now, todayAt, freshCode).Ok?
    requires k in SanitizeProps(src, now, todayAt, freshCode).value
    ensures k in CreateFields
  {
    SanitizeUnfold(src, now, todayAt, freshCode);
    KeptDraftIn(src, now, todayAt, freshCode, k);
  }

  lemma KeptDraftIn(src: Job, now: int, todayAt: int, freshCode: string, k: string)
    requires k in KeptDraft(src, now, todayAt, freshCode)
    ensures k in CreateFields
  {
    Strip.KeptMapAt(Draft(src, now, todayAt, freshCode), k);
  }

  /** The names a new record never carries. */
  lemma NotCreateFields()
    ensures "_uuid" !in CreateFields && "claim" !in CreateFields && "claim_expire" !in CreateFields
    ensures "error" !in CreateFields
  {
  }

  /** The sanitised record carries no `_uuid`, so the store always assigns the fresh one. */
  lemma SanitizedHasNoId(src: Job, now: int, todayAt: int, freshCode: string)
    requires SanitizeProps(src, now, todayAt, freshCode).Ok?
    ensures "_uuid" !in SanitizeProps(src, now, todayAt, freshCode).value
  {
    NotCreateFields();
    if "_uuid" in SanitizeProps(src, now, todayAt, freshCode).value {
      SanitizeKeys(src, now, todayAt, freshCode, "_uuid");
    }
  }

  /**
   * A created record holds only the listed fields: `claim`, `claim_expire`,
   * `error` and unknown fields of the input are dropped.
   */
  lemma SanitizeFields(src: Job, now: int, todayAt: int, freshCode: string)
    requires SanitizeProps(src, now, todayAt, freshCode).Ok?
    ensures var job := SanitizeProps(src, now, todayAt, freshCode).value;
      && (forall k :: k in job ==> k in CreateFields)
      && "claim" !in job && "claim_expire" !in job && "error" !in job
  {
    var job := SanitizeProps(src, now, todayAt, freshCode).value;
    forall k | k in job
      ensures k in CreateFields
    {
      SanitizeKeys(src, now, todayAt, freshCode, k);
    }
    NotCreateFields();
  }

  /** A listed field is in the record exactly when `strip` keeps its draft value. */
  lemma SanitizedHas(src: Job, now: int, todayAt: int, freshCode: string, k: string)
    requires SanitizeProps(src, now, todayAt, freshCode).Ok?
    requires k in CreateFields
    ensures k in SanitizeProps(src, now, todayAt, freshCode).value <==>
      Strip.Kept(DraftField(src, k, now, todayAt, freshCode))
  {
    SanitizeUnfold(src, now, todayAt, freshCode);
    KeptDraftAt(src, k, now, todayAt, freshCode);
  }

  /** The value of a field of an accepted job, from its draft value. */
  lemma SanitizedField(src: Job, now: int, todayAt: int, freshCode: string, k: string)
    requires SanitizeProps(src, now, todayAt, freshCode).Ok?
    requires k in SanitizeProps(src, now, todayAt, freshCode).value
    ensures var d := DraftField(src, k, now, todayAt, freshCode);
      && (JobValidator.Validator(k, d).Some? ==> JobValidator.Validator(k, d) == Some(Ok(SanitizeProps(src, now, todayAt, freshCode).value[k])))
      && (JobValidator.Validator(k, d).None? ==> SanitizeProps(src, now, todayAt, freshCode).value[k] == d)
  {
    SanitizeUnfold(src, now, todayAt, freshCode);
    SanitizeKeys(src, now, todayAt, freshCode, k);
    KeptDraftAt(src, k, now, todayAt, freshCode);
    CreateDistinct();
    ApplyValidatorsOk(KeptDraft(src, now, todayAt, freshCode), CreateFields, k);
  }

  lemma CreateListed(k: string)
    requires k in {"version", "code", "group", "status", "run", "type", "name", "description", "params", "meta", "state", "activate"}
    ensures k in CreateFields
  {
  }

  /** The draft values of the computed fields. */
  lemma DraftComputed(src: Job, now: int, todayAt: int, freshCode: string)
    ensures DraftField(src, "version", now, todayAt, freshCode) == Int(DefaultVersion(Field(src, "version")))
    ensures DraftField(src, "code", now, todayAt, freshCode) == Or(Field(src, "code"), Str(freshCode))
    ensures DraftField(src, "group", now, todayAt, freshCode) == Or(Field(src, "group"), Str("default"))
    ensures DraftField(src, "status", now, todayAt, freshCode) == DraftStatus(src, now, todayAt)
    ensures DraftField(src, "activate", now, todayAt, freshCode) == Int(Activation(src, now, todayAt))
  {
  }

  /** The draft values of the copied fields. */
  lemma DraftCopied(src: Job, now: int, todayAt: int, freshCode: string, k: string)
    requires k in {"run", "type", "name", "description", "params", "meta", "state"}
    ensures DraftField(src, k, now, todayAt, freshCode) == Field(src, k)
  {
  }

  /** Once the guards have passed, the fields `sanitize` always fills in survive `strip`. */
  lemma DraftRequiredKept(src: Job, now: int, todayAt: int, freshCode: string, k: string)
    requires Truthy(Field(src, "run")) && Truthy(Field(src, "type")) && Truthy(Field(src, "name"))
    requires k in {"version", "group", "status", "run", "type", "name", "activate"}
    ensures Strip.Kept(DraftField(src, k, now, todayAt, freshCode))
  {
    DraftComputed(src, now, todayAt, freshCode);
    if k in {"run", "type", "name"} {
      DraftCopied(src, now, todayAt, freshCode, k);
    }
  }

  /** The fields `sanitize` always fills in are present in an accepted record. */
  lemma SanitizeRequired(src: Job, now: int, todayAt: int, freshCode: string, k: string)
    requires SanitizeProps(src, now, todayAt, freshCode).Ok?
    requires k in {"version", "group", "status", "run", "type", "name", "activate"}
    ensures k in SanitizeProps(src, now, todayAt, freshCode).value
  {
    SanitizeUnfold(src, now, todayAt, freshCode);
    DraftRequiredKept(src, now, todayAt, freshCode, k);
    CreateListed(k);
    SanitizedHas(src, now, todayAt, freshCode, k);
  }

  /** The optional fields are copied exactly when `strip` keeps the given value. */
  lemma SanitizeOptional(src: Job, now: int, todayAt: int, freshCode: string, k: string)
    requires SanitizeProps(src, now, todayAt, freshCode).Ok?
    requires k in {"description", "params", "meta", "state"}
    ensures k in SanitizeProps(src, now, todayAt, freshCode).value <==> Strip.Kept(Field(src, k))
    ensures k in SanitizeProps(src, now, todayAt, freshCode).value ==>
      SanitizeProps(src, now, todayAt, freshCode).value[k] == Field(src, k)
  {
    DraftCopied(src, now, todayAt, freshCode, k);
    CreateListed(k);
    SanitizedHas(src, now, todayAt, freshCode, k);
    if k in SanitizeProps(src, now, todayAt, freshCode).value {
      SanitizedField(src, now, todayAt, freshCode, k);
      if k == "state" {
        JobValidator.Identities(k, Field(src, k));
      } else {
        JobValidator.NoValidator(k, Field(src, k));
      }
    }
  }

  /** `version`: `parseInt(version) || 1`, which the version check accepts unchanged. */
  lemma SanitizeVersion(src: Job, now: int, todayAt: int, freshCode: string)
    requires SanitizeProps(src, now, todayAt, freshCode).Ok?
    ensures "version" in SanitizeProps(src, now, todayAt, freshCode).value
    ensures SanitizeProps(src, now, todayAt, freshCode).value["version"] == Int(DefaultVersion(Field(src, "version")))
  {
    var d := Int(DefaultVersion(Field(src, "version")));
    SanitizeRequired(src, now, todayAt, freshCode, "version");
    SanitizedField(src, now, todayAt, freshCode, "version");
    DraftComputed(src, now, todayAt, freshCode);
    JobValidator.Checked(d);
    JobValidator.VersionOfInteger(DefaultVersion(Field(src, "version")));
  }

  /** `parseInt(version) || 1`: the parsed version unless it is NaN or 0. */
  lemma DefaultVersionRule(v: JsValue)
    ensures ParseIntValue(v).Some? && ParseIntValue(v).value != 0 ==> DefaultVersion(v) == ParseIntValue(v).value
    ensures ParseIntValue(v).None? || ParseIntValue(v).value == 0 ==> DefaultVersion(v) == 1
  {
  }

  /**
   * `code`: the given code or the fresh one; it is present unless neither is
   * there, and an accepted code is a non-empty string.
   */
  lemma SanitizeCode(src: Job, now: int, todayAt: int, freshCode: string)
    requires SanitizeProps(src, now, todayAt, freshCode).Ok?
    ensures "code" in SanitizeProps(src, now, todayAt, freshCode).value <==> Truthy(Field(src, "code")) || freshCode != ""
    ensures "code" in SanitizeProps(src, now, todayAt, freshCode).value ==>
      var c := SanitizeProps(src, now, todayAt, freshCode).value["code"];
      c == Or(Field(src, "code"), Str(freshCode)) && c.Str? && c.s != ""
  {
    DraftComputed(src, now, todayAt, freshCode);
    CreateListed("code");
    SanitizedHas(src, now, todayAt, freshCode, "code");
    if "code" in SanitizeProps(src, now, todayAt, freshCode).value {
      SanitizedField(src, now, todayAt, freshCode, "code");
      JobValidator.Checked(Or(Field(src, "code"), Str(freshCode)));
    }
  }

  /** `group`: the given group or "default", always a non-empty string. */
  lemma SanitizeGroup(src: Job, now: int, todayAt: int, freshCode: string)
    requires SanitizeProps(src, now, todayAt, freshCode).Ok?
    ensures "group" in SanitizeProps(src, now, todayAt, freshCode).value
    ensures var g := SanitizeProps(src, now, todayAt, freshCode).value["group"];
      g == Or(Field(src, "group"), Str("default")) && g.Str? && g.s != ""
  {
    SanitizeRequired(src, now, todayAt, freshCode, "group");
    SanitizedField(src, now, todayAt, freshCode, "group");
    DraftComputed(src, now, todayAt, freshCode);
    JobValidator.Checked(Or(Field(src, "group"), Str("default")));
  }

  /** `run` is the given run spec after normalisation. */
  lemma SanitizeRun(src: Job, now: int, todayAt: int, freshCode: string)
    requires SanitizeProps(src, now, todayAt, freshCode).Ok?
    ensures "run" in SanitizeProps(src, now, todayAt, freshCode).value
    ensures JobValidator.Run(Field(src, "run")) == Ok(SanitizeProps(src, now, todayAt, freshCode).value["run"])
  {
    SanitizeRequired(src, now, todayAt, freshCode, "run");
    SanitizedField(src, now, todayAt, freshCode, "run");
    DraftCopied(src, now, todayAt, freshCode, "run");
    JobValidator.Checked(Field(src, "run"));
  }

  /** `type` and `name` are copied unchanged. */
  lemma SanitizeCopies(src: Job, now: int, todayAt: int, freshCode: string, k: string)
    requires SanitizeProps(src, now, todayAt, freshCode).Ok?
    requires k in {"type", "name"}
    ensures k in SanitizeProps(src, now, todayAt, freshCode).value
    ensures SanitizeProps(src, now, todayAt, freshCode).value[k] == Field(src, k)
  {
    SanitizeRequired(src, now, todayAt, freshCode, k);
    SanitizedField(src, now, todayAt, freshCode, k);
    DraftCopied(src, now, todayAt, freshCode, k);
    JobValidator.NoValidator(k, Field(src, k));
  }

  /** `activate` is `nextRun` of the given run spec. */
  lemma SanitizeActivate(src: Job, now: int, todayAt: int, freshCode: string)
    requires SanitizeProps(src, now, todayAt, freshCode).Ok?
    ensures "activate" in SanitizeProps(src, now, todayAt, freshCode).value
    ensures SanitizeProps(src, now, todayAt, freshCode).value["activate"] == Int(NextRun.NextRun(Field(src, "run"), now, todayAt))
  {
    SanitizeRequired(src, now, todayAt, freshCode, "activate");
    SanitizedField(src, now, todayAt, freshCode, "activate");
    DraftComputed(src, now, todayAt, freshCode);
    JobValidator.Identities("activate", Int(Activation(src, now, todayAt)));
  }

  /**
   * The status is "ready" whenever the activation instant has been reached,
   * whatever status was given; otherwise it is the given one or "waiting".
   */
  lemma SanitizeStatus(src: Job, now: int, todayAt: int, freshCode: string)
    requires SanitizeProps(src, now, todayAt, freshCode).Ok?
    ensures var job := SanitizeProps(src, now, todayAt, freshCode).value;
      && "status" in job
      && (now >= NextRun.NextRun(Field(src, "run"), now, todayAt) ==> job["status"] == Str("ready"))
      && (now < NextRun.NextRun(Field(src, "run"), now, todayAt) ==> job["status"] == Or(Field(src, "status"), Str("waiting")))
  {
    SanitizeRequired(src, now, todayAt, freshCode, "status");
    SanitizedField(src, now, todayAt, freshCode, "status");
    DraftComputed(src, now, todayAt, freshCode);
    JobValidator.Checked(DraftStatus(src, now, todayAt));
  }

  /** A weekday-list job activates at 0, so it is ready as soon as it is created. */
  lemma WeekdayJobReady(src: Job, now: int, todayAt: int, freshCode: string)
    requires Get(Field(src, "run"), "model").Arr?
    requires now >= 0
    requires SanitizeProps(src, now, todayAt, freshCode).Ok?
    ensures var job := SanitizeProps(src, now, todayAt, freshCode).value;
      "status" in job && "activate" in job && job["status"] == Str("ready") && job["activate"] == Int(0)
  {
    NextRun.OtherModels(Field(src, "run"), now, todayAt);
    SanitizeStatus(src, now, todayAt, freshCode);
    SanitizeActivate(src, now, todayAt, freshCode);
  }

  /** A given status that is not a status code is rejected unless the job is already due. */
  lemma SanitizeBadStatus(src: Job, now: int, todayAt: int, freshCode: string)
    requires Truthy(Field(src, "run")) && Truthy(Field(src, "type")) && Truthy(Field(src, "name"))
    requires now < NextRun.NextRun(Field(src, "run"), now, todayAt)
    requires Truthy(Field(src, "status")) && !(Field(src, "status").Str? && Field(src, "status").s in JobValidator.StatusCodes)
    ensures SanitizeProps(src, now, todayAt, freshCode).Err?
  {
    var kept := KeptDraft(src, now, todayAt, freshCode);
    assert "status" in CreateFields;
    KeptDraftAt(src, "status", now, todayAt, freshCode);
    ApplyValidatorsFails(kept, CreateFields, "status");
  }

  // ---------------------------------------------------------------------
  // Properties of sanitizeUpdate

  /** A listed patch field survives `strip` exactly when its draft value is kept, and keeps that value. */
  lemma KeptPatchAt(src: Job, k: string)
    requires k in UpdateFields
    ensures var kept := KeptPatch(src);
      && (k in kept <==> Strip.Kept(PatchDraftField(src, k)))
      && (k in kept ==> kept[k] == PatchDraftField(src, k))
  {
    var d := UpdateDraft(src);
    assert k in d && d[k] == PatchDraftField(src, k);
    Strip.KeptMapAt(d, k);
  }

  /** Only listed fields survive into the patch draft, each with a kept value. */
  lemma KeptPatchKeys(src: Job, k: string)
    requires k in KeptPatch(src)
    ensures k in UpdateFields
    ensures Strip.Kept(KeptPatch(src)[k])
  {
    Strip.KeptMapAt(UpdateDraft(src), k);
  }

  /** Every validator maps a value `strip` keeps to a value it keeps. */
  lemma ValidatorKeeps(name: string, v: JsValue)
    requires Strip.Kept(v)
    requires JobValidator.Validator(name, v).Some? && JobValidator.Validator(name, v).value.Ok?
    ensures Strip.Kept(JobValidator.Validator(name, v).value.value)
  {
    if name == "run" {
      RunOkObject(v);
    }
  }

  /** An accepted run spec is normalised to an object. */
  lemma RunOkObject(run: JsValue)
    requires JobValidator.Run(run).Ok?
    ensures JobValidator.Run(run).value.Obj?
  {
  }

  /** The value of a field of an accepted patch, from its kept draft value. */
  lemma PatchField(src: Job, k: string)
    requires SanitizePatch(src).Ok?
    requires k in SanitizePatch(src).value
    ensures var kept := KeptPatch(src);
      && k in kept
      && (JobValidator.Validator(k, kept[k]).Some? ==> JobValidator.Validator(k, kept[k]) == Some(Ok(SanitizePatch(src).value[k])))
      && (JobValidator.Validator(k, kept[k]).None? ==> SanitizePatch(src).value[k] == kept[k])
  {
    UpdateDistinct();
    ApplyValidatorsOk(KeptPatch(src), UpdateFields, k);
  }

  /**
   * A patch holds only the listed fields and never carries null, undefined,
   * "" or NaN: `claim: null` and `claim_expire: null` never reach the store.
   */
  lemma PatchHasNoNulls(src: Job, k: string)
    requires SanitizePatch(src).Ok?
    requires k in SanitizePatch(src).value
    ensures k in UpdateFields
    ensures Strip.Kept(SanitizePatch(src).value[k])
    ensures SanitizePatch(src).value[k] != Null && SanitizePatch(src).value[k] != Undefined
  {
    PatchField(src, k);
    KeptPatchKeys(src, k);
    var v := KeptPatch(src)[k];
    if JobValidator.Validator(k, v).Some? {
      ValidatorKeeps(k, v);
    }
  }

  /** The patch carries `error` only when its status is "failed", and then it is the given error. */
  lemma PatchErrorOnlyWhenFailed(src: Job)
    requires SanitizePatch(src).Ok?
    ensures "error" in SanitizePatch(src).value ==>
      Field(src, "status") == Str("failed") && SanitizePatch(src).value["error"] == Field(src, "error")
  {
    if "error" in SanitizePatch(src).value {
      UpdateListed("error");
      PatchField(src, "error");
      KeptPatchAt(src, "error");
      JobValidator.NoValidator("error", KeptPatch(src)["error"]);
    }
  }

  lemma UpdateListed(k: string)
    requires k in {"version", "code", "group", "status", "run", "activate", "type", "name", "description", "params", "meta",
                   "claim", "claim_expire", "state", "error"}
    ensures k in UpdateFields
  {
  }

  /** A patch field without a check and with a kept value passes through unchanged. */
  lemma PatchCopies(src: Job, k: string)
    requires SanitizePatch(src).Ok?
    requires k in {"type", "name", "description", "params", "meta", "claim", "claim_expire", "state", "activate"}
    ensures k in SanitizePatch(src).value <==> Strip.Kept(Field(src, k))
    ensures k in SanitizePatch(src).value ==> SanitizePatch(src).value[k] == Field(src, k)
  {
    UpdateListed(k);
    assert PatchDraftField(src, k) == Field(src, k);
    KeptPatchAt(src, k);
    if k in SanitizePatch(src).value {
      PatchField(src, k);
      if k in {"claim", "claim_expire", "state", "activate"} {
        JobValidator.Identities(k, Field(src, k));
      } else {
        JobValidator.NoValidator(k, Field(src, k));
      }
    }
  }

  /** A patch with an invalid status is rejected, so the update writes nothing. */
  lemma PatchBadStatus(src: Job)
    requires Truthy(Field(src, "status")) && !(Field(src, "status").Str? && Field(src, "status").s in JobValidator.StatusCodes)
    ensures SanitizePatch(src).Err?
  {
    KeptPatchAt(src, "status");
    ApplyValidatorsFails(KeptPatch(src), UpdateFields, "status");
  }

  /** With distinct names, the loop accepts when every named field with a validator passes it. */
  lemma {:induction false} ApplyValidatorsPass(job: Job, names: seq<string>)
    requires Distinct(names)
    requires forall n :: n in names && n in job && JobValidator.Validator(n, job[n]).Some? ==>
      JobValidator.Validator(n, job[n]).value.Ok?
    ensures ApplyValidators(job, names).Ok?
    decreases |names|
  {
    if |names| > 0 {
      var n := names[0];
      assert forall i, j :: 0 <= i < j < |names[1..]| ==> names[1..][i] == names[i + 1] && names[1..][j] == names[j + 1];
      assert forall m :: m in names[1..] ==> m in names && m != n;
      if n in job && JobValidator.Validator(n, job[n]).Some? {
        var job' := job[n := JobValidator.Validator(n, job[n]).value.value];
        ApplyValidatorsPass(job', names[1..]);
      } else {
        ApplyValidatorsPass(job, names[1..]);
      }
    }
  }

  /** The patch from `src` passes the check of field `k`, given no version, code, group or run and a valid or empty status. */
  lemma PatchNamePasses(src: Job, k: string)
    requires k in UpdateFields
    requires Field(src, "version") == Undefined && Field(src, "code") == Undefined
    requires Field(src, "group") == Undefined && Field(src, "run") == Undefined
    requires !Strip.Kept(Field(src, "status")) || (Field(src, "status").Str? && Field(src, "status").s in JobValidator.StatusCodes)
    ensures var kept := KeptPatch(src);
      k in kept && JobValidator.Validator(k, kept[k]).Some? ==> JobValidator.Validator(k, kept[k]).value.Ok?
  {
    KeptPatchAt(src, k);
    var kept := KeptPatch(src);
    if k in kept {
      if k == "status" {
        JobValidator.Checked(kept[k]);
      } else if k in {"claim", "claim_expire", "state", "activate"} {
        JobValidator.Identities(k, kept[k]);
      } else if k in {"error", "type", "name", "description", "params", "meta"} {
        JobValidator.NoValidator(k, kept[k]);
      }
    }
  }

  /**
   * A patch without version, code, group or run, whose status is empty or a
   * valid code, is accepted.
   */
  lemma PatchAccepted(src: Job)
    requires Field(src, "version") == Undefined && Field(src, "code") == Undefined
    requires Field(src, "group") == Undefined && Field(src, "run") == Undefined
    requires !Strip.Kept(Field(src, "status")) || (Field(src, "status").Str? && Field(src, "status").s in JobValidator.StatusCodes)
    ensures SanitizePatch(src).Ok?
  {
    var kept := KeptPatch(src);
    forall n | n in UpdateFields && n in kept && JobValidator.Validator(n, kept[n]).Some?
      ensures JobValidator.Validator(n, kept[n]).value.Ok?
    {
      PatchNamePasses(src, n);
    }
    UpdateDistinct();
    ApplyValidatorsPass(kept, UpdateFields);
  }

  /** The fields of a patch that the scheduler itself writes; none of them is rewritten by its check. */
  predicate RunnerPatch(src: Job) {
    && (forall k :: k in src ==> k in {"status", "error", "claim", "claim_expire", "state"})
    && Field(src, "status").Str? && Field(src, "status").s in JobValidator.StatusCodes
    && (Field(src, "status") == Str("failed") || !Strip.Kept(Field(src, "error")))
  }

  /** Such a patch is accepted as `strip` leaves it. */
  lemma PatchIsKept(src: Job)
    requires RunnerPatch(src)
    ensures SanitizePatch(src) == Ok(Strip.KeptMap(src))
  {
    KeptRunnerPatch(src);
    RunnerPatchUnchecked(src);
    PatchAccepted(src);
    var value := SanitizePatch(src).value;
    forall k | k in value ensures value[k] == KeptPatch(src)[k] {
      PatchValueKept(src, k);
    }
    assert value == KeptPatch(src);
  }

  /** The same for the object that holds the patch. */
  lemma ObjPatchIsKept(src: Job)
    requires RunnerPatch(src)
    ensures SanitizeUpdate(Obj(src)) == Ok(Strip.KeptMap(src))
  {
    assert OwnProps(Obj(src)) == src;
    PatchIsKept(src);
  }

  lemma RunnerPatchUnchecked(src: Job)
    requires RunnerPatch(src)
    ensures Field(src, "version") == Undefined && Field(src, "code") == Undefined
    ensures Field(src, "group") == Undefined && Field(src, "run") == Undefined
    ensures Field(src, "status").Str? && Field(src, "status").s in JobValidator.StatusCodes
  {
  }

  /** `strip` of such a patch's draft is `strip` of the patch. */
  lemma KeptRunnerPatch(src: Job)
    requires RunnerPatch(src)
    ensures KeptPatch(src) == Strip.KeptMap(src)
  {
    forall k ensures (k in KeptPatch(src) <==> k in Strip.KeptMap(src)) && (k in KeptPatch(src) ==> KeptPatch(src)[k] == Strip.KeptMap(src)[k]) {
      PatchDraftKept(src, k);
    }
  }

  lemma PatchDraftKept(src: Job, k: string)
    requires RunnerPatch(src)
    ensures k in KeptPatch(src) <==> k in Strip.KeptMap(src)
    ensures k in KeptPatch(src) ==> KeptPatch(src)[k] == Strip.KeptMap(src)[k]
  {
    Strip.KeptMapAt(src, k);
    if k in UpdateFields {
      KeptPatchAt(src, k);
    } else {
      if k in KeptPatch(src) {
        KeptPatchKeys(src, k);
      }
      if k in src {
        UpdateListed(k);
      }
    }
  }

  lemma PatchValueKept(src: Job, k: string)
    requires RunnerPatch(src)
    requires KeptPatch(src) == Strip.KeptMap(src)
    requires SanitizePatch(src).Ok? && k in SanitizePatch(src).value
    ensures SanitizePatch(src).value[k] == KeptPatch(src)[k]
  {
    PatchField(src, k);
    Strip.KeptMapAt(src, k);
    var v := KeptPatch(src)[k];
    if k == "status" {
      JobValidator.Checked(v);
    } else if k == "error" {
      JobValidator.NoValidator(k, v);
    } else {
      JobValidator.Identities(k, v);
    }
  }

  /** A kept status reaches the patch unchanged. */
  lemma PatchStatus(src: Job)
    requires SanitizePatch(src).Ok?
    requires Strip.Kept(Field(src, "status"))
    ensures "status" in SanitizePatch(src).value && SanitizePatch(src).value["status"] == Field(src, "status")
  {
    UpdateListed("status");
    KeptPatchAt(src, "status");
    PatchField(src, "status");
    JobValidator.Checked(Field(src, "status"));
  }

  /** With status "failed", the patch carries `error` exactly when the error value is kept. */
  lemma PatchError(src: Job)
    requires SanitizePatch(src).Ok?
    requires Field(src, "status") == Str("failed")
    ensures "error" in SanitizePatch(src).value <==> Strip.Kept(Field(src, "error"))
    ensures "error" in SanitizePatch(src).value ==> SanitizePatch(src).value["error"] == Field(src, "error")
  {
    UpdateListed("error");
    KeptPatchAt(src, "error");
    if "error" in SanitizePatch(src).value {
      PatchField(src, "error");
      JobValidator.NoValidator("error", Field(src, "error"));
    }
  }

  /** A patch never writes `_uuid`. */
  lemma PatchHasNoId(src: Job)
    requires SanitizePatch(src).Ok?
    ensures "_uuid" !in SanitizePatch(src).value
  {
    IdNotPatched();
    if "_uuid" in SanitizePatch(src).value {
      KeptPatchKeys(src, "_uuid");
    }
  }

  lemma IdNotPatched()
    ensures "_uuid" !in UpdateFields
  {
  }

  /** Neither `update` nor `create` through this class writes a non-string id into the store. */
  lemma UpdateKeepsIds(docs: seq<Job>, target: Store.Target, data: JsValue, now: int)
    requires Store.StringIds(docs)
    ensures Store.StringIds(UpdateEffect(docs, target, data, now).0)
  {
    var patch := SanitizeUpdate(data);
    if patch.Ok? {
      PatchHasNoId(OwnProps(data));
      Store.WrittenKeepsIds(docs, target, patch.value, now);
    }
  }

  lemma CreateKeepsIds(docs: seq<Job>, owner: JsValue, data: JsValue, now: int, todayAt: int, freshCode: string, freshId: string)
    requires Store.StringIds(docs)
    ensures Store.StringIds(CreateEffect(docs, owner, data, now, todayAt, freshCode, freshId).0)
  {
    var job := Sanitize(data, now, todayAt, freshCode);
    if job.Ok? {
      SanitizedHasNoId(OwnProps(data), now, todayAt, freshCode);
      Store.InsertedKeepsIds(docs, owner, Obj(job.value), freshId, now);
    }
  }

  /** A successful create appends one record, which keeps the given (truthy) code. */
  lemma CreatedCode(docs: seq<Job>, owner: JsValue, src: Job, now: int, todayAt: int, freshCode: string, freshId: string)
    requires Truthy(Field(src, "code"))
    requires CreateEffect(docs, owner, Obj(src), now, todayAt, freshCode, freshId).1.Ok?
    ensures var after := CreateEffect(docs, owner, Obj(src), now, todayAt, freshCode, freshId).0;
      |after| == |docs| + 1 && after[..|docs|] == docs && Field(after[|docs|], "code") == Field(src, "code")
  {
    CreateEffectOk(docs, owner, Obj(src), now, todayAt, freshCode, freshId);
    SanitizeObj(src, now, todayAt, freshCode);
    SanitizeCode(src, now, todayAt, freshCode);
    var stored := SanitizeProps(src, now, todayAt, freshCode).value;
    Store.StampedFields(stored, owner, freshId, now);
    var after := docs + [Store.Stamped(stored, owner, freshId, now)];
    assert after[..|docs|] == docs && after[|docs|] == Store.Stamped(stored, owner, freshId, now);
  }

  /** A successful create appends the sanitised job, stamped. */
  lemma CreateEffectOk(docs: seq<Job>, owner: JsValue, data: JsValue, now: int, todayAt: int, freshCode: string, freshId: string)
    requires CreateEffect(docs, owner, data, now, todayAt, freshCode, freshId).1.Ok?
    ensures Sanitize(data, now, todayAt, freshCode).Ok?
    ensures CreateEffect(docs, owner, data, now, todayAt, freshCode, freshId).0 ==
      docs + [Store.Stamped(Sanitize(data, now, todayAt, freshCode).value, owner, freshId, now)]
  {
    var job := Sanitize(data, now, todayAt, freshCode);
    Store.InsertedAppends(docs, owner, job.value, freshId, now);
  }

  /** An object is sanitised by its properties. */
  lemma SanitizeObj(src: Job, now: int, todayAt: int, freshCode: string)
    ensures Sanitize(Obj(src), now, todayAt, freshCode) == SanitizeProps(src, now, todayAt, freshCode)
  {
    assert Truthy(Obj(src)) && OwnProps(Obj(src)) == src;
  }

  // ---------------------------------------------------------------------
  // find

  /**
   * `skip` and `limit` go into the criteria object itself, which the store
   * treats as a filter on fields of those names: every record found with a
   * truthy `skip` carries that value in its own `skip` field.
   */
  lemma SkipFilters(docs: seq<Job>, criteria: Option<map<string, JsValue>>, skip: JsValue, limit: JsValue, d: Job)
    requires Truthy(skip)
    requires d in Store.Found(docs, FindCriteria(criteria, skip, limit))
    ensures Field(d, "skip") == skip
  {
    var c := FindCriteria(criteria, skip, limit);
    assert Store.FieldMatches(Field(d, "skip"), c["skip"]);
  }
}
