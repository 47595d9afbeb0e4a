/**
 * `nextRun` (src/component/scheduler/util.ts): the instant, in milliseconds,
 * at which a job first becomes eligible to run.  The clock reading `now` and
 * `todayAt` are inputs.  `todayAt` stands for `start.toMillis()` as the code
 * computes it, where `start` is `new DateTime(text)` and the text spells
 * today's date at the job's `at` time.  The date library is not part of this
 * model.  Its `DateTime` constructor is not its text parser (that is
 * `DateTime.fromISO`), so `start` need not be today's slot: it may be a
 * second clock reading.  The model therefore leaves `todayAt` open.
 */
module NextRun {
  import opened Js

  /** One day in milliseconds. */
  const Day: int := 86400000

  function NextRun(run: JsValue, now: int, todayAt: int): int {
    var model := Get(run, "model");
    if model == Str("now") then now
    else if model == Str("daily") then
      if todayAt > now then todayAt + Day else todayAt
    else 0
  }

  /** Model "now" runs at the current instant. */
  lemma NowModel(run: JsValue, now: int, todayAt: int)
    requires Get(run, "model") == Str("now")
    ensures NextRun(run, now, todayAt) == now
  {
  }

  /** Every model other than "now" and "daily" (weekday lists included) gives 0. */
  lemma OtherModels(run: JsValue, now: int, todayAt: int)
    requires Get(run, "model") != Str("now") && Get(run, "model") != Str("daily")
    ensures NextRun(run, now, todayAt) == 0
  {
  }

  /**
   * As written, a daily job is due now exactly when `start` is not after the
   * clock reading, and a `start` still to come is pushed a day later.
   */
  lemma DailyRule(run: JsValue, now: int, todayAt: int)
    requires Get(run, "model") == Str("daily")
    ensures NextRun(run, now, todayAt) <= now <==> todayAt <= now
    ensures todayAt > now ==> NextRun(run, now, todayAt) == todayAt + Day
    ensures todayAt <= now ==> NextRun(run, now, todayAt) == todayAt
  {
  }
}
