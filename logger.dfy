/**
 * `Logger` and `Log` (src/component/logger.ts): the bounded trace buffer of
 * the engine and the line format of a component's log.  Writing a line to
 * the `debug` stream is output and is not modelled; the model computes the
 * line.
 */
module Logger {
  import opened Js
  import opened Errors

  const TraceMaxCount: nat := 20

  /** The trace after the setter: push, then shift once when over the bound. */
  function Pushed(lines: seq<string>, value: string): (r: seq<string>) {
    var grown := lines + [value];
    if |grown| > TraceMaxCount then grown[1..] else grown
  }

  /** The trace after a series of setter calls. */
  function PushedAll(lines: seq<string>, values: seq<string>): seq<string>
    decreases |values|
  {
    if |values| == 0 then lines else PushedAll(Pushed(lines, values[0]), values[1..])
  }

  /** The trace getter: every line followed by a newline, oldest first. */
  function TraceText(lines: seq<string>): string {
    if |lines| == 0 then "" else TraceText(lines[..|lines| - 1]) + lines[|lines| - 1] + "\n"
  }

  /** The most recent `TraceMaxCount` of `s`. */
  function LastLines(s: seq<string>): seq<string> {
    if |s| <= TraceMaxCount then s else s[|s| - TraceMaxCount..]
  }

  class Logger {
    var trace: seq<string>

    ghost predicate Valid()
      reads this
    {
      |trace| <= TraceMaxCount
    }

    constructor()
      ensures Valid() && trace == []
    {
      trace := [];
    }

    /** The `trace` setter. */
    method SetTrace(value: string)
      requires Valid()
      modifies this
      ensures Valid()
      ensures trace == Pushed(old(trace), value)
    {
      trace := trace + [value];
      if |trace| > TraceMaxCount {
        trace := trace[1..];
      }
    }

    /** The `trace` getter: a loop appending each line and a newline. */
    method Trace() returns (ret: string)
      ensures ret == TraceText(trace)
    {
      ret := "";
      var i := 0;
      while i < |trace|
        invariant 0 <= i <= |trace|
        invariant ret == TraceText(trace[..i])
      {
        assert trace[..i + 1][..i] == trace[..i];
        ret := ret + trace[i] + "\n";
        i := i + 1;
      }
      assert trace[..i] == trace;
    }
  }

  /** A component's log: its lower-cased context and the engine configuration. */
  datatype Log = Log(context: string, conf: JsValue)

  /**
   * `logger.log(context)`: the context defaults to "global" when falsy; the
   * constructor stores it as `component` of the configuration (a primitive
   * configuration takes no property and throws) and lower-cases it (a
   * context that is no string has no `toLowerCase` and throws).
   */
  function NewLog(context: JsValue, conf: JsValue): (r: Result<Log>)
    ensures var ctx := if Truthy(context) then context else Str("global");
      var c := if Truthy(conf) then conf else Obj(map[]);
      && (r.Ok? <==> ctx.Str? && (c.Obj? || c.Arr?))
      && (r.Err? ==> r == Err(TypeError))
      && (r.Ok? ==> r.value.context == Lower(ctx.s))
      && (r.Ok? && c.Obj? ==> r.value.conf == Obj(c.props["component" := ctx]))
  {
    var ctx := if Truthy(context) then context else Str("global");
    var c := if Truthy(conf) then conf else Obj(map[]);
    if !c.Obj? && !c.Arr? then Err(TypeError)
    else if !ctx.Str? then Err(TypeError)
    else if c.Arr? then Ok(Log(Lower(ctx.s), c))
    else Ok(Log(Lower(ctx.s), Obj(c.props["component" := ctx])))
  }

  /** A falsy context logs as "global". */
  lemma NewLogDefault(context: JsValue)
    requires !Truthy(context)
    ensures NewLog(context, Undefined) == Ok(Log("global", Obj(map["component" := Str("global")])))
  {
    assert Lower("global") == "global";
  }

  /** A configuration field rendered after `prefix` when it is truthy, else nothing. */
  function Part(conf: JsValue, name: string, prefix: string): string {
    if Truthy(Get(conf, name)) then prefix + ToStr(Get(conf, name)) else ""
  }

  /** `contextify(text)`: "+ " when live, env, " tenant", " app", " @tag", a space if anything precedes, then "[context] text". */
  function Contextify(log: Log, text: string): (r: string)
    ensures |r| >= |text| + |log.context| + 3
    ensures r[|r| - |text| - |log.context| - 3..] == "[" + log.context + "] " + text
  {
    var live := if Truthy(Get(log.conf, "live")) then "+ " else "";
    var msg := live + Part(log.conf, "env", "") + Part(log.conf, "tenant", " ") + Part(log.conf, "app", " ") + Part(log.conf, "tag", " @");
    var sep := if |msg| > 0 then " " else "";
    msg + sep + "[" + log.context + "] " + text
  }

  /**
   * The line `debug`, `info` and `warn` write: a message with a truthy
   * `error_description` is shown as "description (trace)", any other as
   * itself.  Reading a property of null or undefined throws.
   */
  function Line(log: Log, message: JsValue): (r: Result<string>)
    ensures Nullish(message) <==> r == Err(TypeError)
  {
    if Nullish(message) then Err(TypeError)
    else
      var description := Get(message, "error_description");
      var text := if Truthy(description) then ToStr(description) + " (" + ToStr(Get(message, "trace")) + ")" else ToStr(message);
      Ok(Contextify(log, text))
  }

  // ---------------------------------------------------------------------
  // Properties

  /** However many lines are pushed, the trace holds the most recent `TraceMaxCount` of them. */
  lemma {:induction false} PushedKeepsLast(lines: seq<string>, values: seq<string>)
    requires |lines| <= TraceMaxCount
    ensures PushedAll(lines, values) == LastLines(lines + values)
    decreases |values|
  {
    if |values| > 0 {
      var next := Pushed(lines, values[0]);
      assert |next| <= TraceMaxCount;
      PushedKeepsLast(next, values[1..]);
      assert lines + values == (lines + [values[0]]) + values[1..];
      if |lines + [values[0]]| > TraceMaxCount {
        assert next + values[1..] == (lines + values)[1..];
      }
    } else {
      assert lines + values == lines;
    }
  }

  /** A push onto a full trace evicts the oldest line. */
  lemma PushEvictsOldest(lines: seq<string>, value: string)
    requires |lines| == TraceMaxCount
    ensures Pushed(lines, value) == lines[1..] + [value]
  {
  }

  /** The text of two runs of lines is the text of the first followed by the text of the second. */
  lemma {:induction false} TraceTextAppend(a: seq<string>, b: seq<string>)
    ensures TraceText(a + b) == TraceText(a) + TraceText(b)
    decreases |b|
  {
    if |b| == 0 {
      assert a + b == a;
    } else {
      var b' := b[..|b| - 1];
      assert (a + b)[..|a + b| - 1] == a + b';
      assert (a + b)[|a + b| - 1] == b[|b| - 1];
      TraceTextAppend(a, b');
    }
  }

  /** Each line contributes itself and one newline. */
  lemma {:induction false} TraceTextLength(lines: seq<string>)
    ensures |TraceText(lines)| == |lines| + SumLengths(lines)
  {
    if |lines| > 0 {
      TraceTextLength(lines[..|lines| - 1]);
    }
  }

  /** The total length of the lines. */
  function SumLengths(lines: seq<string>): nat {
    if |lines| == 0 then 0 else SumLengths(lines[..|lines| - 1]) + |lines[|lines| - 1]|
  }

  /** With no live flag, env, tenant, app or tag the line is just "[context] text". */
  lemma ContextifyBare(log: Log, text: string)
    requires forall n :: n in ["live", "env", "tenant", "app", "tag"] ==> !Truthy(Get(log.conf, n))
    ensures Contextify(log, text) == "[" + log.context + "] " + text
  {
    assert !Truthy(Get(log.conf, "live")) && !Truthy(Get(log.conf, "env")) && !Truthy(Get(log.conf, "tenant"));
    assert !Truthy(Get(log.conf, "app")) && !Truthy(Get(log.conf, "tag"));
  }

  /** A live engine's lines start with "+ ". */
  lemma ContextifyLive(log: Log, text: string)
    requires Truthy(Get(log.conf, "live"))
    ensures Contextify(log, text)[..2] == "+ "
  {
  }

  /** An error message is rendered as "description (trace)". */
  lemma LineOfError(log: Log, description: string, trace: string)
    requires description != ""
    ensures Line(log, Obj(map["error_description" := Str(description), "trace" := Str(trace)])) ==
      Ok(Contextify(log, description + " (" + trace + ")"))
  {
    var m := Obj(map["error_description" := Str(description), "trace" := Str(trace)]);
    assert Get(m, "error_description") == Str(description);
    assert Get(m, "trace") == Str(trace);
  }
}
