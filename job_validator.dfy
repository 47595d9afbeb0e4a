/**
 * `SyntacticJobValidator` (src/component/scheduler/syntactic-validator.ts):
 * one check per job field, each returning the (possibly normalised) value or
 * throwing a `validation_error`, and the normalisation of a job's run spec.
 */
module JobValidator {
  import opened Js
  import opened Errors
  import Strip

  /** The job status codes a job may carry. */
  const StatusCodes: seq<string> := ["ready", "scheduled", "claimed", "running", "failed", "completed", "locked", "waiting"]

  /** The weekday tokens of a weekly run model, Monday first. */
  const Week: seq<JsValue> := [Str("mon"), Str("tue"), Str("wed"), Str("thu"), Str("fri"), Str("sat"), Str("sun")]

  /** A `validation_error` rejection (status 400). */
  function Invalid<T>(description: string, trace: string): (r: Result<T>)
    ensures r == Err(Fail("validation_error", description, trace))
  {
    Err(App(ApplicationError("validation_error", 400, description, trace)))
  }

  /** `version`: a truthy value that parses as an integer; the parsed integer is returned. */
  function Version(data: JsValue): (r: Result<JsValue>)
    ensures !Truthy(data) ==> Rejected(r, "engine_scheduler_val_ver1")
    ensures Truthy(data) && ParseIntValue(data).None? ==> Rejected(r, "engine_scheduler_val_ver2")
    ensures r.Ok? <==> Truthy(data) && ParseIntValue(data).Some?
    ensures r.Ok? ==> r.value == Int(ParseIntValue(data).value)
  {
    if !Truthy(data) then Invalid("Job must have version", "engine_scheduler_val_ver1")
    else if ParseIntValue(data).None? then Invalid("Job version must be numeric", "engine_scheduler_val_ver2")
    else Ok(Int(ParseIntValue(data).value))
  }

  /** The rejection carries this trace tag. */
  predicate Rejected<T>(r: Result<T>, trace: string) {
    r.Err? && IsError(r.ex, "validation_error") && HasTrace(r.ex, trace)
  }

  /** `code`: a non-empty string, returned unchanged. */
  function Code(data: JsValue): (r: Result<JsValue>)
    ensures r.Ok? <==> data.Str? && data.s != ""
    ensures r.Ok? ==> r.value == data
    ensures r.Err? ==> Rejected(r, "engine_scheduler_val_code1")
  {
    if !data.Str? || |data.s| == 0 then Invalid("Job must have a code", "engine_scheduler_val_code1")
    else Ok(data)
  }

  /** `group`: a non-empty string, returned unchanged. */
  function Group(data: JsValue): (r: Result<JsValue>)
    ensures r.Ok? <==> data.Str? && data.s != ""
    ensures r.Ok? ==> r.value == data
    ensures r.Err? ==> Rejected(r, "engine_scheduler_val_group1")
  {
    if !data.Str? || |data.s| == 0 then Invalid("Job must have a group", "engine_scheduler_val_group1")
    else Ok(data)
  }

  /** `status`: one of the status codes, returned unchanged. */
  function Status(data: JsValue): (r: Result<JsValue>)
    ensures r.Ok? <==> data.Str? && data.s in StatusCodes
    ensures r.Ok? ==> r.value == data
    ensures !Truthy(data) ==> Rejected(r, "engine_scheduler_val_status1")
    ensures Truthy(data) && r.Err? ==> Rejected(r, "engine_scheduler_val_status2")
  {
    if !Truthy(data) then Invalid("Job must have a status code", "engine_scheduler_val_status1")
    else if !(data.Str? && data.s in StatusCodes) then
      Invalid("Invalid status code " + ToStr(data), "engine_scheduler_val_status2")
    else Ok(data)
  }

  // ---------------------------------------------------------------------
  // run

  /**
   * The date-array, monthly and day-of-month forms of an array model, tried
   * on its first element `first` in that order; none matching is run15.
   */
  function OtherForms(first: string, at: JsValue, shown: string): Result<()> {
    if ' ' in first then
      var split := Split(first, ' ');
      if |split| != 2 then Invalid("Invalid run model " + shown + " format, expected date and time", "engine_scheduler_val_run8")
      else if '/' !in split[0] then Invalid("Invalid run model " + shown + " format, expected date and time", "engine_scheduler_val_run9")
      else if ':' !in split[0] then Invalid("Invalid run model " + shown + " format, expected date and time", "engine_scheduler_val_run10")
      else Ok(())
    else if '/' in first then
      if |Split(first, ' ')| != 2 then Invalid("Invalid run model " + shown + " format, expected day and month", "engine_scheduler_val_run11")
      else if !Truthy(at) then Invalid("Run model " + shown + " requires at to be specified", "engine_scheduler_val_run12")
      else Ok(())
    else if ParseInt(first).Some? then
      if ParseInt(first).value > 31 then Invalid("Invalid run model " + shown + " format, expected day of month", "engine_scheduler_val_run13")
      else if !Truthy(at) then Invalid("Run model " + shown + " requires at to be specified", "engine_scheduler_val_run14")
      else Ok(())
    else Invalid("Invalid run model " + shown, "engine_scheduler_val_run15")
  }

  /** Every element is a weekday token. */
  predicate AllWeekdays(items: seq<JsValue>) {
    forall i :: 0 <= i < |items| ==> Contains(Week, items[i])
  }

  /**
   * The checks of an array model.  The weekday branch is entered when
   * `WEEK.indexOf(items[0])` is truthy, that is when it is not 0: for every
   * first element except "mon".
   */
  function ArrayModel(items: seq<JsValue>, at: JsValue): Result<()> {
    var shown := ToStr(Arr(items));
    if |items| == 0 then Invalid("Run model " + shown + " must not be empty", "engine_scheduler_val_run5")
    else if IndexOf(Week, items[0]) != 0 then
      if !AllWeekdays(items) then
        Invalid("Inconsistent run model " + shown, "engine_scheduler_val_run6")
      else if !Truthy(at) then Invalid("Run model " + shown + " requires at to be specified", "engine_scheduler_val_run7")
      else Ok(())
    else OtherForms(ToStr(items[0]), at, shown)
  }

  /** `res.repeat === 'forever' || parseInt(res.repeat) > 1`. */
  predicate Repeats(repeat: JsValue) {
    repeat == Str("forever") || (ParseIntValue(repeat).Some? && ParseIntValue(repeat).value > 1)
  }

  /** The stripped `{model, at, delay}`, with `repeat` (default "1") for a daily model. */
  function SpecProps(model: JsValue, at: JsValue, delay: JsValue, repeat: JsValue): map<string, JsValue> {
    var base := Strip.KeptProps(Obj(map["model" := model, "at" := at, "delay" := delay]));
    if model == Str("daily") then base["repeat" := if Truthy(repeat) then repeat else Str("1")] else base
  }

  /** The checks of `run` on the model and `at`, before the spec is normalised. */
  function Checks(model: JsValue, at: JsValue): Result<()> {
    if !Truthy(model) then Invalid("Job run spec must have a model", "engine_scheduler_val_run1")
    else if model.Str? && model.s != "now" && model.s != "daily" then
      Invalid("Invalid run model " + model.s, "engine_scheduler_val_run3")
    else if model == Str("daily") && !Truthy(at) then
      Invalid("Run model daily requires at to be specified", "engine_scheduler_val_run4")
    else
      var arrayCheck := if model.Arr? then ArrayModel(model.items, at) else Ok(());
      if arrayCheck.Err? then arrayCheck
      else if model == Str("daily") && !Truthy(at) then
        Invalid("Daily run requires at to be specified", "engine_scheduler_val_run16")
      else Ok(())
  }

  /** The normalised spec, or the missing-delay rejection. */
  function Normalise(model: JsValue, at: JsValue, delay: JsValue, repeat: JsValue): Result<JsValue> {
    var res := SpecProps(model, at, delay, repeat);
    if Repeats(Field(res, "repeat")) && !Truthy(Field(res, "delay")) then
      Invalid("Delay in minutes must be specified when repeat is set", "engine_scheduler_val_run17")
    else Ok(Obj(res))
  }

  /** `run(spec)`: the guard chain, then the normalised spec. */
  function Run(run: JsValue): Result<JsValue> {
    if !Truthy(run) then Invalid("Job must have a run spec", "engine_scheduler_val_run0")
    else
      var check := Checks(Get(run, "model"), Get(run, "at"));
      if check.Err? then Err(check.ex)
      else Normalise(Get(run, "model"), Get(run, "at"), Get(run, "delay"), Get(run, "repeat"))
  }

  /**
   * The validator `this._validator[name]` names, if any: `claim`,
   * `claim_expire`, `state` and `activate` are identities.
   */
  function Validator(name: string, data: JsValue): Option<Result<JsValue>> {
    match name
    case "version" => Some(Version(data))
    case "code" => Some(Code(data))
    case "group" => Some(Group(data))
    case "status" => Some(Status(data))
    case "run" => Some(Run(data))
    case "claim" => Some(Ok(data))
    case "claim_expire" => Some(Ok(data))
    case "state" => Some(Ok(data))
    case "activate" => Some(Ok(data))
    case _ => None
  }

  // ---------------------------------------------------------------------
  // Properties

  /** A non-zero integer is its own version. */
  lemma VersionOfInteger(i: int)
    requires i != 0
    ensures Version(Int(i)) == Ok(Int(i))
  {
    ParseIntStr(i);
  }

  /** The validators without a check return their input. */
  lemma Identities(name: string, data: JsValue)
    requires name in {"claim", "claim_expire", "state", "activate"}
    ensures Validator(name, data) == Some(Ok(data))
  {
  }

  /** The fields without a validator. */
  lemma NoValidator(name: string, data: JsValue)
    requires name in {"error", "name", "type", "description", "params", "meta"}
    ensures Validator(name, data).None?
  {
  }

  /** The fields with a check. */
  lemma Checked(data: JsValue)
    ensures Validator("version", data) == Some(Version(data))
    ensures Validator("code", data) == Some(Code(data))
    ensures Validator("group", data) == Some(Group(data))
    ensures Validator("status", data) == Some(Status(data))
    ensures Validator("run", data) == Some(Run(data))
  {
    CheckedScalar(data);
    CheckedRun(data);
  }

  lemma CheckedScalar(data: JsValue)
    ensures Validator("version", data) == Some(Version(data))
    ensures Validator("code", data) == Some(Code(data))
    ensures Validator("group", data) == Some(Group(data))
    ensures Validator("status", data) == Some(Status(data))
  {
  }

  lemma CheckedRun(data: JsValue)
    ensures Validator("run", data) == Some(Run(data))
  {
  }

  /** The rejections that precede any model-specific check. */
  lemma RunRejects(run: JsValue)
    ensures !Truthy(run) ==> Rejected(Run(run), "engine_scheduler_val_run0")
    ensures Truthy(run) && !Truthy(Get(run, "model")) ==> Rejected(Run(run), "engine_scheduler_val_run1")
    ensures Truthy(run) && Get(run, "model").Str? && Get(run, "model").s !in {"", "now", "daily"} ==>
      Rejected(Run(run), "engine_scheduler_val_run3")
    ensures Truthy(run) && Get(run, "model") == Str("daily") && !Truthy(Get(run, "at")) ==>
      Rejected(Run(run), "engine_scheduler_val_run4")
  {
    if Truthy(run) {
      var check := Checks(Get(run, "model"), Get(run, "at"));
      if check.Err? {
        RunChecked(run);
      }
    }
  }

  /** A failed model check is what `run` rejects with. */
  lemma RunChecked(run: JsValue)
    requires Truthy(run) && Checks(Get(run, "model"), Get(run, "at")).Err?
    ensures Run(run) == Err(Checks(Get(run, "model"), Get(run, "at")).ex)
  {
  }

  lemma MonNotANumber()
    ensures ParseInt("mon") == None
  {
    assert !IsJsSpace('m');
    assert TrimStart("mon") == "mon";
    assert DigitRun("mon", 10) == 0;
  }

  lemma OtherFormsMon(at: JsValue, shown: string)
    ensures Rejected(OtherForms("mon", at, shown), "engine_scheduler_val_run15")
  {
    MonNotANumber();
    assert ' ' !in "mon" && '/' !in "mon";
  }

  /** A first element "mon" makes every later form fail with run15. */
  lemma MondayFirst(items: seq<JsValue>, at: JsValue)
    requires |items| > 0 && items[0] == Str("mon")
    ensures Rejected(ArrayModel(items, at), "engine_scheduler_val_run15")
  {
    OtherFormsMon(at, ToStr(Arr(items)));
    assert IndexOf(Week, items[0]) == 0;
    assert ToStr(items[0]) == "mon";
  }

  lemma UndefinedNotANumber()
    ensures ParseIntValue(Undefined) == None
  {
    var u := "undefined";
    assert ToStr(Undefined) == u;
    assert !IsJsSpace(u[0]);
    assert TrimStart(u) == u;
    assert DigitValue(u[0]) == 30;
    assert DigitRun(u, 10) == 0;
    assert ParseUnsigned(u) == None;
  }

  /** Only a daily spec carries a `repeat`, so only a daily spec repeats. */
  lemma NoRepeatUnlessDaily(model: JsValue, at: JsValue, delay: JsValue, repeat: JsValue)
    requires model != Str("daily")
    ensures !Repeats(Field(SpecProps(model, at, delay, repeat), "repeat"))
  {
    assert "repeat" !in SpecProps(model, at, delay, repeat);
    UndefinedNotANumber();
  }

  /** The array-model checks in closed form. */
  lemma ArrayModelAccepts(items: seq<JsValue>, at: JsValue)
    ensures ArrayModel(items, at).Ok? <==>
      |items| > 0 && items[0] != Str("mon") && AllWeekdays(items) && Truthy(at)
  {
    if |items| > 0 {
      WeekIndexMon(items[0]);
      if items[0] == Str("mon") {
        MondayFirst(items, at);
      }
    }
  }

  /** `WEEK.indexOf(x)` is 0 exactly for "mon". */
  lemma WeekIndexMon(x: JsValue)
    ensures IndexOf(Week, x) == 0 <==> x == Str("mon")
  {
  }

  /**
   * As written, an array model is accepted exactly when it is non-empty, its
   * first element is not "mon", every element is a weekday token and `at`
   * is set.
   */
  lemma ArrayModelRule(run: JsValue, items: seq<JsValue>)
    requires Truthy(run) && Get(run, "model") == Arr(items)
    ensures Run(run).Ok? <==>
      |items| > 0 && items[0] != Str("mon") && AllWeekdays(items) &&
      Truthy(Get(run, "at"))
    ensures |items| > 0 && items[0] == Str("mon") ==> Rejected(Run(run), "engine_scheduler_val_run15")
  {
    var at := Get(run, "at");
    ArrayModelAccepts(items, at);
    if |items| > 0 && items[0] == Str("mon") {
      MondayFirst(items, at);
    }
    NoRepeatUnlessDaily(Arr(items), at, Get(run, "delay"), Get(run, "repeat"));
    var check := ArrayModel(items, at);
    assert Run(run) == if check.Err? then Err(check.ex) else Normalise(Arr(items), at, Get(run, "delay"), Get(run, "repeat"));
  }

  /**
   * An accepted spec holds only the kept `model`, `at` and `delay` of the
   * input, and `repeat` exactly when the model is "daily".
   */
  lemma RunOutput(run: JsValue)
    requires Run(run).Ok?
    ensures Run(run).value.Obj?
    ensures Run(run).value.props.Keys <= {"model", "at", "delay", "repeat"}
    ensures "model" in Run(run).value.props && Run(run).value.props["model"] == Get(run, "model")
    ensures forall k :: k in {"at", "delay"} ==>
      (k in Run(run).value.props <==> Strip.Kept(Get(run, k))) &&
      (k in Run(run).value.props ==> Run(run).value.props[k] == Get(run, k))
    ensures "repeat" in Run(run).value.props <==> Get(run, "model") == Str("daily")
    ensures Get(run, "model") == Str("daily") ==>
      Run(run).value.props["repeat"] == (if Truthy(Get(run, "repeat")) then Get(run, "repeat") else Str("1"))
  {
    var model, at, delay, repeat := Get(run, "model"), Get(run, "at"), Get(run, "delay"), Get(run, "repeat");
    assert Run(run) == Normalise(model, at, delay, repeat);
    SpecPropsShape(model, at, delay, repeat);
  }

  /** The keys and values of a normalised spec. */
  lemma SpecPropsShape(model: JsValue, at: JsValue, delay: JsValue, repeat: JsValue)
    requires Truthy(model)
    ensures var p := SpecProps(model, at, delay, repeat);
      && p.Keys <= {"model", "at", "delay", "repeat"}
      && "model" in p && p["model"] == model
      && ("at" in p <==> Strip.Kept(at)) && ("at" in p ==> p["at"] == at)
      && ("delay" in p <==> Strip.Kept(delay)) && ("delay" in p ==> p["delay"] == delay)
      && ("repeat" in p <==> model == Str("daily"))
      && (model == Str("daily") ==> p["repeat"] == if Truthy(repeat) then repeat else Str("1"))
  {
  }

  /** The missing-delay rejection can only be raised for a daily model. */
  lemma RepeatNeedsDaily(run: JsValue)
    requires Rejected(Run(run), "engine_scheduler_val_run17")
    ensures Get(run, "model") == Str("daily")
  {
    var model := Get(run, "model");
    if model != Str("daily") {
      NoRepeatUnlessDaily(model, Get(run, "at"), Get(run, "delay"), Get(run, "repeat"));
      ChecksTraces(model, Get(run, "at"));
    }
  }

  /** None of the model checks uses the missing-delay trace. */
  lemma ChecksTraces(model: JsValue, at: JsValue)
    ensures !Rejected(Checks(model, at), "engine_scheduler_val_run17")
  {
    if model.Arr? {
      ArrayModelTraces(model.items, at);
    }
  }

  lemma ArrayModelTraces(items: seq<JsValue>, at: JsValue)
    ensures !Rejected(ArrayModel(items, at), "engine_scheduler_val_run17")
  {
    ArrayTracesFresh();
    ArrayModelAvoids(items, at, "engine_scheduler_val_run17");
  }

  /** The traces an array model can be rejected with. */
  const ArrayTraces: set<string> := {
    "engine_scheduler_val_run5", "engine_scheduler_val_run6", "engine_scheduler_val_run7",
    "engine_scheduler_val_run8", "engine_scheduler_val_run9", "engine_scheduler_val_run10",
    "engine_scheduler_val_run11", "engine_scheduler_val_run12", "engine_scheduler_val_run13",
    "engine_scheduler_val_run14", "engine_scheduler_val_run15"}

  lemma ArrayTracesFresh()
    ensures "engine_scheduler_val_run17" !in ArrayTraces
  {
  }

  /** An array model is rejected only with one of its own traces. */
  lemma ArrayModelAvoids(items: seq<JsValue>, at: JsValue, trace: string)
    requires trace !in ArrayTraces
    ensures !Rejected(ArrayModel(items, at), trace)
  {
    var shown := ToStr(Arr(items));
    var r := ArrayModel(items, at);
    if |items| == 0 {
      assert r == Invalid("Run model " + shown + " must not be empty", "engine_scheduler_val_run5");
    } else if IndexOf(Week, items[0]) != 0 {
      assert r.Err? ==> r.ex.err.trace == "engine_scheduler_val_run6" || r.ex.err.trace == "engine_scheduler_val_run7";
    } else {
      assert r == OtherForms(ToStr(items[0]), at, shown);
      OtherFormsAvoids(ToStr(items[0]), at, shown, trace);
    }
  }

  lemma OtherFormsAvoids(first: string, at: JsValue, shown: string, trace: string)
    requires trace !in ArrayTraces
    ensures !Rejected(OtherForms(first, at, shown), trace)
  {
  }

  /** The model checks look at `at` only through its truthiness. */
  lemma ChecksTruthy(model: JsValue, a: JsValue, b: JsValue)
    requires Truthy(a) == Truthy(b)
    ensures Checks(model, a) == Checks(model, b)
  {
    if model.Arr? {
      ArrayModelTruthy(model.items, a, b);
    }
  }

  lemma ArrayModelTruthy(items: seq<JsValue>, a: JsValue, b: JsValue)
    requires Truthy(a) == Truthy(b)
    ensures ArrayModel(items, a) == ArrayModel(items, b)
  {
    if |items| > 0 {
      OtherFormsTruthy(ToStr(items[0]), a, b, ToStr(Arr(items)));
    }
  }

  lemma OtherFormsTruthy(first: string, a: JsValue, b: JsValue, shown: string)
    requires Truthy(a) == Truthy(b)
    ensures OtherForms(first, a, shown) == OtherForms(first, b, shown)
  {
  }

  /** Normalising a normalised spec gives it back. */
  lemma NormaliseIdempotent(model: JsValue, at: JsValue, delay: JsValue, repeat: JsValue)
    requires Truthy(model) && Normalise(model, at, delay, repeat).Ok?
    ensures var out := Normalise(model, at, delay, repeat).value.props;
      Normalise(model, Field(out, "at"), Field(out, "delay"), Field(out, "repeat")) == Ok(Obj(out))
  {
    var out := SpecProps(model, at, delay, repeat);
    SpecPropsFixed(model, at, delay, repeat);
    assert Normalise(model, at, delay, repeat) == Ok(Obj(out));
  }

  /** The spec built from a normalised spec's own fields is that spec. */
  lemma SpecPropsFixed(model: JsValue, at: JsValue, delay: JsValue, repeat: JsValue)
    requires Truthy(model)
    ensures var out := SpecProps(model, at, delay, repeat);
      SpecProps(model, Field(out, "at"), Field(out, "delay"), Field(out, "repeat")) == out
  {
    var out := SpecProps(model, at, delay, repeat);
    var at', delay', repeat' := Field(out, "at"), Field(out, "delay"), Field(out, "repeat");
    SpecPropsShape(model, at, delay, repeat);
    SpecPropsShape(model, at', delay', repeat');
    var again := SpecProps(model, at', delay', repeat');
    SpecMapsEqual(again, out);
  }

  /** Two specs that agree on the four spec keys are equal. */
  lemma SpecMapsEqual(p: map<string, JsValue>, q: map<string, JsValue>)
    requires p.Keys <= {"model", "at", "delay", "repeat"} && q.Keys <= {"model", "at", "delay", "repeat"}
    requires forall k | k in {"model", "at", "delay", "repeat"} :: (k in p <==> k in q) && (k in p ==> p[k] == q[k])
    ensures p == q
  {
    assert p.Keys == q.Keys;
  }

  /** Once the checks pass, `run` is the normalisation of the spec's fields. */
  lemma RunOfFields(run: JsValue, model: JsValue, at: JsValue, delay: JsValue, repeat: JsValue)
    requires Truthy(run) && Get(run, "model") == model && Get(run, "at") == at
    requires Get(run, "delay") == delay && Get(run, "repeat") == repeat
    requires Checks(model, at).Ok?
    ensures Run(run) == Normalise(model, at, delay, repeat)
  {
  }

  /** Validating an accepted, normalised run spec again returns it unchanged. */
  lemma RunIdempotent(run: JsValue)
    requires Run(run).Ok?
    ensures Run(Run(run).value) == Run(run)
  {
    var model, at, delay, repeat := Get(run, "model"), Get(run, "at"), Get(run, "delay"), Get(run, "repeat");
    assert Checks(model, at).Ok?;
    assert Truthy(model);
    RunOfFields(run, model, at, delay, repeat);
    var out := Run(run).value;
    var p := out.props;
    NormaliseIdempotent(model, at, delay, repeat);
    SpecPropsShape(model, at, delay, repeat);
    assert Get(out, "model") == model;
    ChecksTruthy(model, at, Field(p, "at"));
    RunOfFields(out, model, Field(p, "at"), Field(p, "delay"), Field(p, "repeat"));
  }
}
