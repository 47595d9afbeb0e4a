/**
 * `Configuration` (src/component/configuration.ts): the engine
 * configuration.  `init` takes the loaded YAML document, lets environment
 * variables override its sections (`environment`), applies the override
 * object given to the constructor and makes `system.root` absolute.
 *
 * The YAML file, `process.env` and `__dirname` are parameters: `loaded` is
 * the parsed document, `env` lists the environment's variables in the order
 * `Object.getOwnPropertyNames` yields them and `dirname` is the directory of
 * the compiled module.  The module is compiled in strict mode, so writing a
 * property of a primitive throws a TypeError.
 */
module Configuration {
  import opened Js
  import opened Errors
  import Merge

  /** The environment: (name, value) pairs in enumeration order. */
  type Env = seq<(string, string)>

  /** `process.env[name]`: the value of the first variable of that name, undefined when there is none. */
  function EnvVar(env: Env, name: string): (r: JsValue)
    ensures r.Str? || r == Undefined
  {
    if |env| == 0 then Undefined
    else if env[0].0 == name then Str(env[0].1)
    else EnvVar(env[1..], name)
  }

  /** A variable reads as the value of its first binding, and as undefined exactly when it has none. */
  lemma {:induction false} EnvVarFirst(env: Env, name: string)
    ensures EnvVar(env, name) == Undefined <==> forall i :: 0 <= i < |env| ==> env[i].0 != name
    ensures EnvVar(env, name).Str? ==>
      exists i :: 0 <= i < |env| && env[i] == (name, EnvVar(env, name).s) && (forall j :: 0 <= j < i ==> env[j].0 != name)
  {
    if |env| > 0 && env[0].0 != name {
      EnvVarFirst(env[1..], name);
      if EnvVar(env, name).Str? {
        var i :| 0 <= i < |env| - 1 && env[1..][i] == (name, EnvVar(env, name).s) &&
          forall j :: 0 <= j < i ==> env[1..][j].0 != name;
        assert env[i + 1] == (name, EnvVar(env, name).s);
        assert forall j :: 0 <= j < i + 1 ==> env[j].0 != name by {
          forall j | 0 <= j < i + 1 ensures env[j].0 != name {
            if j > 0 {
              assert env[j] == env[1..][j - 1];
            }
          }
        }
      }
      if forall i :: 1 <= i < |env| ==> env[i].0 != name {
        forall i | 0 <= i < |env| - 1 ensures env[1..][i].0 != name {
          assert env[1..][i] == env[i + 1];
        }
      }
    }
  }

  /** `process.env.V ? process.env.V : current`: a set, non-empty variable wins. */
  function EnvOr(env: Env, name: string, current: JsValue): JsValue {
    if Truthy(EnvVar(env, name)) then EnvVar(env, name) else current
  }

  /** `process.env.V ? parseInt(process.env.V) : current`. */
  function EnvInt(env: Env, name: string, current: JsValue): JsValue {
    var v := EnvVar(env, name);
    if Truthy(v) && v.Str? then NumberValue(ParseInt(v.s)) else current
  }

  // ---------------------------------------------------------------------
  // Field overrides

  /** A section's (field, variable) pairs, overridden in this order. */
  type Table = seq<(string, string)>

  const SystemVars: Table := [
    ("id", "ENGINE_SYSTEM_ID"), ("listen", "ENGINE_SYSTEM_LISTEN"), ("root", "ENGINE_SYSTEM_ROOT"),
    ("env", "ENGINE_SYSTEM_ENV"), ("tenant", "ENGINE_SYSTEM_TENANT"), ("app", "ENGINE_SYSTEM_APP"),
    ("tag", "ENGINE_SYSTEM_TAG"), ("live", "ENGINE_SYSTEM_LIVE")]

  const MemoryVars: Table := [
    ("segment", "ENGINE_MEMORY_SEGMENT"), ("name", "ENGINE_MEMORY_NAME"), ("password", "ENGINE_MEMORY_PASSWORD")]

  const DbVars: Table := [
    ("name", "ENGINE_DB_NAME"), ("replicaset", "ENGINE_DB_REPLICA_SET"), ("user", "ENGINE_DB_USER"),
    ("password", "ENGINE_DB_PASSWORD")]

  /** `k` is none of the table's fields. */
  predicate Unlisted(table: Table, k: string) {
    forall i :: 0 <= i < |table| ==> table[i].0 != k
  }

  /** No field is listed twice. */
  predicate DistinctFields(table: Table) {
    forall i, j :: 0 <= i < j < |table| ==> table[i].0 != table[j].0
  }

  /** `section.f = process.env.V ? process.env.V : section.f` for each pair, in order. */
  function Overlay(section: map<string, JsValue>, env: Env, table: Table): map<string, JsValue>
    decreases |table|
  {
    if |table| == 0 then section
    else
      var f := table[0].0;
      Overlay(section[f := EnvOr(env, table[0].1, Field(section, f))], env, table[1..])
  }

  /** Each listed field takes its variable when that is set, and keeps its value otherwise; nothing else changes. */
  lemma {:induction false} OverlayFields(section: map<string, JsValue>, env: Env, table: Table)
    requires DistinctFields(table)
    ensures var r := Overlay(section, env, table);
      forall i :: 0 <= i < |table| ==> Field(r, table[i].0) == EnvOr(env, table[i].1, Field(section, table[i].0))
    ensures forall k :: Unlisted(table, k) ==> Field(Overlay(section, env, table), k) == Field(section, k)
    decreases |table|
  {
    if |table| > 0 {
      var f := table[0].0;
      var next := section[f := EnvOr(env, table[0].1, Field(section, f))];
      var rest := table[1..];
      assert DistinctFields(rest) by {
        forall i, j | 0 <= i < j < |rest| ensures rest[i].0 != rest[j].0 {
          assert rest[i] == table[i + 1] && rest[j] == table[j + 1];
        }
      }
      OverlayFields(next, env, rest);
      var r := Overlay(section, env, table);
      assert r == Overlay(next, env, rest);
      assert Unlisted(rest, f) by {
        forall i | 0 <= i < |rest| ensures rest[i].0 != f {
          assert rest[i] == table[i + 1];
        }
      }
      forall i | 0 <= i < |table| ensures Field(r, table[i].0) == EnvOr(env, table[i].1, Field(section, table[i].0)) {
        if i > 0 {
          assert rest[i - 1] == table[i];
        }
      }
      forall k | Unlisted(table, k) ensures Field(r, k) == Field(section, k) {
        assert k != f;
        assert Unlisted(rest, k) by {
          forall i | 0 <= i < |rest| ensures rest[i].0 != k {
            assert rest[i] == table[i + 1];
          }
        }
      }
    }
  }

  /** The system table lists each field once, and neither the prefix nor the port. */
  lemma SystemTable()
    ensures DistinctFields(SystemVars) && Unlisted(SystemVars, "service_prefix") && Unlisted(SystemVars, "port")
  {
  }

  lemma MemoryTable()
    ensures DistinctFields(MemoryVars)
  {
  }

  /** The db table lists each field once, and none of `host`, `port`, `hosts`, `model`. */
  lemma DbTable()
    ensures DistinctFields(DbVars)
    ensures Unlisted(DbVars, "host") && Unlisted(DbVars, "port") && Unlisted(DbVars, "hosts") && Unlisted(DbVars, "model")
  {
  }

  // ---------------------------------------------------------------------
  // Host lists

  /** `parseInt(parts[1])`: NaN when there is no second part. */
  function PortPart(parts: seq<string>): JsValue {
    NumberValue(if |parts| > 1 then ParseInt(parts[1]) else None)
  }

  /** `{host: parts[0], port: parseInt(parts[1])}` for `parts = item.split(':')`. */
  function HostEntry(item: string): JsValue {
    var parts := Split(item, ':');
    Obj(map["host" := Str(parts[0]), "port" := PortPart(parts)])
  }

  /** One entry per comma-separated item. */
  function HostList(hosts: string): (r: seq<JsValue>)
    ensures |r| == |Split(hosts, ',')|
  {
    var items := Split(hosts, ',');
    seq(|items|, i requires 0 <= i < |items| => HostEntry(items[i]))
  }

  /** The `for (const host of hosts)` loop pushing one entry per item. */
  method Hosts(hosts: string) returns (list: seq<JsValue>)
    ensures list == HostList(hosts)
  {
    var items := Split(hosts, ',');
    list := [];
    var i := 0;
    while i < |items|
      invariant 0 <= i <= |items|
      invariant |list| == i
      invariant forall k :: 0 <= k < i ==> list[k] == HostEntry(items[k])
    {
      list := list + [HostEntry(items[i])];
      i := i + 1;
    }
  }

  /** The section's hosts variable, when it is set and non-empty. */
  predicate HostsSet(env: Env, name: string) {
    Truthy(EnvVar(env, name))
  }

  /** `process.env.ENGINE_MEMORY_HOSTS` and friends, once known to be set. */
  function HostsOf(env: Env, name: string): string
    requires HostsSet(env, name)
  {
    EnvVar(env, name).s
  }

  /** The `memory` section after the overrides (lines 100-132). */
  function MemorySection(memory: map<string, JsValue>, env: Env): map<string, JsValue> {
    var m := Overlay(memory, env, MemoryVars);
    if !HostsSet(env, "ENGINE_MEMORY_HOSTS") then m
    else
      var hosts := HostsOf(env, "ENGINE_MEMORY_HOSTS");
      if ',' in hosts then ((m - {"host"}) - {"port"})["model" := Str("sentinel")]["hosts" := Arr(HostList(hosts))]
      else
        var parts := Split(hosts, ':');
        (m - {"hosts"})["model" := Str("direct")]["host" := Str(parts[0])]["port" := PortPart(parts)]
  }

  /** The `db` section after the overrides (lines 134-159): no model, and the list keeps `port`. */
  function DbSection(db: map<string, JsValue>, env: Env): map<string, JsValue> {
    var d := Overlay(db, env, DbVars);
    if !HostsSet(env, "ENGINE_DB_HOSTS") then d
    else
      var hosts := HostsOf(env, "ENGINE_DB_HOSTS");
      if ',' in hosts then (d - {"host"})["hosts" := Arr(HostList(hosts))]
      else
        var parts := Split(hosts, ':');
        (d - {"hosts"})["host" := Str(parts[0])]["port" := PortPart(parts)]
  }

  /** The `system` section after the overrides (lines 75-94). */
  function SystemSection(system: map<string, JsValue>, env: Env): map<string, JsValue> {
    var s := system["service_prefix" := EnvOr(env, "SERVICE_PREFIX", Str(""))];
    Overlay(s, env, SystemVars)["port" := EnvInt(env, "ENGINE_SYSTEM_PORT", Field(system, "port"))]
  }

  /** Lines 100-132, step by step. */
  method MemoryOverrides(memory: map<string, JsValue>, env: Env) returns (m: map<string, JsValue>)
    ensures m == MemorySection(memory, env)
  {
    m := Overlay(memory, env, MemoryVars);
    if HostsSet(env, "ENGINE_MEMORY_HOSTS") {
      var hosts := HostsOf(env, "ENGINE_MEMORY_HOSTS");
      if ',' in hosts {
        m := m - {"host"};
        m := m - {"port"};
        m := m["model" := Str("sentinel")];
        var list := Hosts(hosts);
        m := m["hosts" := Arr(list)];
      } else {
        var parts := Split(hosts, ':');
        m := m - {"hosts"};
        m := m["model" := Str("direct")];
        m := m["host" := Str(parts[0])];
        m := m["port" := PortPart(parts)];
      }
    }
  }

  /** Lines 134-159, step by step. */
  method DbOverrides(db: map<string, JsValue>, env: Env) returns (d: map<string, JsValue>)
    ensures d == DbSection(db, env)
  {
    d := Overlay(db, env, DbVars);
    if HostsSet(env, "ENGINE_DB_HOSTS") {
      var hosts := HostsOf(env, "ENGINE_DB_HOSTS");
      if ',' in hosts {
        d := d - {"host"};
        var list := Hosts(hosts);
        d := d["hosts" := Arr(list)];
      } else {
        d := d - {"hosts"};
        var parts := Split(hosts, ':');
        d := d["host" := Str(parts[0])];
        d := d["port" := PortPart(parts)];
      }
    }
  }

  // ---------------------------------------------------------------------
  // File configuration variables

  const FilePrefix: string := "engine_file_"

  /** `name.toLowerCase().indexOf('engine_file_') === 0`. */
  predicate IsFileVar(name: string) {
    |name| >= |FilePrefix| && Lower(name)[..|FilePrefix|] == FilePrefix
  }

  /** The segments after `engine_file_` of a file variable. */
  lemma FileVarSplit(name: string)
    requires IsFileVar(name)
    ensures Split(Lower(name), '_') == ["engine", "file"] + Split(Lower(name)[|FilePrefix|..], '_')
  {
    var l := Lower(name);
    var rest := l[|FilePrefix|..];
    assert l == FilePrefix + rest by {
      assert l == l[..|FilePrefix|] + rest;
    }
    PrefixSplit(rest);
  }

  lemma PrefixSplit(rest: string)
    ensures Split(FilePrefix + rest, '_') == ["engine", "file"] + Split(rest, '_')
  {
    PrefixShape(rest);
    SplitTwo("engine", "file", '_', rest);
  }

  lemma SplitTwo(a: string, b: string, c: char, rest: string)
    requires c !in a && c !in b
    ensures Split(a + [c] + (b + [c] + rest), c) == [a, b] + Split(rest, c)
  {
    SplitAt(a, c, b + [c] + rest);
    SplitAt(b, c, rest);
  }

  lemma PrefixShape(rest: string)
    ensures FilePrefix + rest == "engine" + ['_'] + ("file" + ['_'] + rest)
  {
  }

  /** `parts = name.toLowerCase().split('_').splice(2)`; the slot is `[parts[0]][parts[1]]`. */
  function FileSlot(name: string): (slot: (string, string))
    requires IsFileVar(name)
  {
    FileVarSplit(name);
    var parts := Split(Lower(name), '_')[2..];
    (parts[0], if |parts| > 1 then parts[1] else "undefined")
  }

  /** `fileconf` after the loop has seen the first `n` variables. */
  function FileConfOf(env: Env, n: nat): map<string, map<string, JsValue>>
    requires n <= |env|
  {
    if n == 0 then map[]
    else
      var fc := FileConfOf(env, n - 1);
      var name := env[n - 1].0;
      if !IsFileVar(name) then fc
      else
        var slot := FileSlot(name);
        var inner := if slot.0 in fc then fc[slot.0] else map[];
        fc[slot.0 := inner[slot.1 := EnvVar(env, name)]]
  }

  /** `fileconf` as an object of objects. */
  function FileValue(fc: map<string, map<string, JsValue>>): JsValue {
    Obj(map s | s in fc :: Obj(fc[s]))
  }

  /** Lines 162-174: the loop filling `fileconf`. */
  method FileConf(env: Env) returns (fc: map<string, map<string, JsValue>>)
    ensures fc == FileConfOf(env, |env|)
  {
    fc := map[];
    var i := 0;
    while i < |env|
      invariant 0 <= i <= |env|
      invariant fc == FileConfOf(env, i)
    {
      var name := env[i].0;
      if IsFileVar(name) {
        var slot := FileSlot(name);
        if slot.0 !in fc {
          fc := fc[slot.0 := map[]];
        }
        fc := fc[slot.0 := fc[slot.0][slot.1 := EnvVar(env, name)]];
      }
      i := i + 1;
    }
  }

  // ---------------------------------------------------------------------
  // environment(conf)

  /** Lines 75-94: the system section must be an object. */
  function SystemStage(c: map<string, JsValue>, env: Env): (r: Result<map<string, JsValue>>)
    ensures r.Err? <==> !Field(c, "system").Obj?
    ensures r.Err? ==> r.ex == TypeError
    ensures r.Ok? ==> Field(r.value, "system") == Obj(SystemSection(c["system"].props, env))
    ensures r.Ok? ==> forall k :: k != "system" ==> Field(r.value, k) == Field(c, k)
  {
    if !Field(c, "system").Obj? then Err(TypeError)
    else Ok(c["system" := Obj(SystemSection(c["system"].props, env))])
  }

  /** Lines 96-98: with `ENGINE_SYSTEM_DEBUG` set the log section must be an object. */
  function DebugStage(c: map<string, JsValue>, env: Env): (r: Result<map<string, JsValue>>)
    ensures r.Err? <==> Truthy(EnvVar(env, "ENGINE_SYSTEM_DEBUG")) && !Field(c, "log").Obj?
    ensures r.Err? ==> r.ex == TypeError
    ensures r.Ok? && Truthy(EnvVar(env, "ENGINE_SYSTEM_DEBUG")) ==>
      Field(r.value, "log") == Obj(c["log"].props["level" := Str("debug")])
    ensures r.Ok? && !Truthy(EnvVar(env, "ENGINE_SYSTEM_DEBUG")) ==> r.value == c
    ensures r.Ok? ==> forall k :: k != "log" ==> Field(r.value, k) == Field(c, k)
  {
    if !Truthy(EnvVar(env, "ENGINE_SYSTEM_DEBUG")) then Ok(c)
    else if !Field(c, "log").Obj? then Err(TypeError)
    else Ok(c["log" := Obj(c["log"].props["level" := Str("debug")])])
  }

  /** Lines 100-132: a truthy memory section must be an object. */
  function MemoryStage(c: map<string, JsValue>, env: Env): (r: Result<map<string, JsValue>>)
    ensures r.Err? <==> Truthy(Field(c, "memory")) && !Field(c, "memory").Obj?
    ensures r.Err? ==> r.ex == TypeError
    ensures r.Ok? && Truthy(Field(c, "memory")) ==> Field(r.value, "memory") == Obj(MemorySection(c["memory"].props, env))
    ensures r.Ok? && !Truthy(Field(c, "memory")) ==> r.value == c
    ensures r.Ok? ==> forall k :: k != "memory" ==> Field(r.value, k) == Field(c, k)
  {
    if !Truthy(Field(c, "memory")) then Ok(c)
    else if !Field(c, "memory").Obj? then Err(TypeError)
    else Ok(c["memory" := Obj(MemorySection(c["memory"].props, env))])
  }

  /** Lines 134-159: a truthy db section must be an object. */
  function DbStage(c: map<string, JsValue>, env: Env): (r: Result<map<string, JsValue>>)
    ensures r.Err? <==> Truthy(Field(c, "db")) && !Field(c, "db").Obj?
    ensures r.Err? ==> r.ex == TypeError
    ensures r.Ok? && Truthy(Field(c, "db")) ==> Field(r.value, "db") == Obj(DbSection(c["db"].props, env))
    ensures r.Ok? && !Truthy(Field(c, "db")) ==> r.value == c
    ensures r.Ok? ==> forall k :: k != "db" ==> Field(r.value, k) == Field(c, k)
  {
    if !Truthy(Field(c, "db")) then Ok(c)
    else if !Field(c, "db").Obj? then Err(TypeError)
    else Ok(c["db" := Obj(DbSection(c["db"].props, env))])
  }

  /** Line 176: `conf.file = merge(conf.file, fileconf)`. */
  function FileStage(c: map<string, JsValue>, fc: map<string, map<string, JsValue>>): (r: Result<map<string, JsValue>>)
    requires Merge.Modelled(Field(c, "file"), FileValue(fc))
    ensures r.Err? <==> Merge.Merged(Field(c, "file"), FileValue(fc)).None?
    ensures r.Err? ==> r.ex == TypeError
    ensures r.Ok? ==> Field(r.value, "file") == Merge.Merged(Field(c, "file"), FileValue(fc)).value
    ensures r.Ok? ==> forall k :: k != "file" ==> Field(r.value, k) == Field(c, k)
  {
    var file := Merge.Merged(Field(c, "file"), FileValue(fc));
    if file.None? then Err(TypeError) else Ok(c["file" := file.value])
  }

  /** Lines 75-159: the sections rewritten in order, or the TypeError one of them throws. */
  function Sections(loaded: JsValue, env: Env): Result<map<string, JsValue>> {
    if !loaded.Obj? then Err(TypeError)
    else
      var s := SystemStage(loaded.props, env);
      if s.Err? then s
      else
        var d := DebugStage(s.value, env);
        if d.Err? then d
        else StoresStage(d.value, env)
  }

  /** Lines 100-159: the memory section, then the db section. */
  function StoresStage(c: map<string, JsValue>, env: Env): Result<map<string, JsValue>> {
    var m := MemoryStage(c, env);
    if m.Err? then m else DbStage(m.value, env)
  }

  /** None of the section rewrites touches `file`. */
  lemma SectionsKeepFile(loaded: JsValue, env: Env)
    requires Sections(loaded, env).Ok?
    ensures loaded.Obj? && Field(Sections(loaded, env).value, "file") == Field(loaded.props, "file")
  {
    var s := SystemStage(loaded.props, env);
    var d := DebugStage(s.value, env);
    var m := MemoryStage(d.value, env);
    assert "file" != "system" && "file" != "log" && "file" != "memory" && "file" != "db";
    assert Sections(loaded, env) == DbStage(m.value, env);
  }

  /** What `environment(loaded)` returns, or the TypeError it throws. */
  function EnvironmentOf(loaded: JsValue, env: Env): Result<map<string, JsValue>>
    requires loaded.Obj? ==> Merge.Modelled(Field(loaded.props, "file"), FileValue(FileConfOf(env, |env|)))
  {
    var c := Sections(loaded, env);
    if c.Err? then c
    else
      SectionsKeepFile(loaded, env);
      FileStage(c.value, FileConfOf(env, |env|))
  }

  /** Lines 75-159, step by step. */
  method RewriteSections(loaded: JsValue, env: Env) returns (r: Result<map<string, JsValue>>)
    ensures r == Sections(loaded, env)
  {
    if !loaded.Obj? || !Field(loaded.props, "system").Obj? {
      return Err(TypeError);
    }
    var conf := loaded.props;
    conf := conf["system" := Obj(SystemSection(conf["system"].props, env))];
    ghost var c1 := conf;
    assert Ok(c1) == SystemStage(loaded.props, env);
    if Truthy(EnvVar(env, "ENGINE_SYSTEM_DEBUG")) {
      var log := Field(conf, "log");
      if !log.Obj? {
        return Err(TypeError);
      }
      conf := conf["log" := Obj(log.props["level" := Str("debug")])];
    }
    assert Ok(conf) == DebugStage(c1, env);
    r := RewriteStores(conf, env);
  }

  /** Lines 100-159, step by step. */
  method RewriteStores(c: map<string, JsValue>, env: Env) returns (r: Result<map<string, JsValue>>)
    ensures r == StoresStage(c, env)
  {
    var conf := c;
    var memory := Field(conf, "memory");
    if Truthy(memory) {
      if !memory.Obj? {
        return Err(TypeError);
      }
      var m := MemoryOverrides(memory.props, env);
      conf := conf["memory" := Obj(m)];
    }
    assert Ok(conf) == MemoryStage(c, env);
    ghost var c2 := conf;
    var db := Field(conf, "db");
    if Truthy(db) {
      if !db.Obj? {
        return Err(TypeError);
      }
      var d := DbOverrides(db.props, env);
      conf := conf["db" := Obj(d)];
    }
    return Ok(conf);
  }

  /** `environment(conf)`: the sections, then the file variables merged into `file`. */
  method Environment(loaded: JsValue, env: Env) returns (r: Result<map<string, JsValue>>)
    requires loaded.Obj? ==> Merge.Modelled(Field(loaded.props, "file"), FileValue(FileConfOf(env, |env|)))
    ensures r == EnvironmentOf(loaded, env)
  {
    r := RewriteSections(loaded, env);
    if r.Err? {
      return r;
    }
    var conf := r.value;
    SectionsKeepFile(loaded, env);
    var fileconf := FileConf(env);
    var file := Merge.Merge(Field(conf, "file"), FileValue(fileconf));
    if file.None? {
      return Err(TypeError);
    }
    return Ok(conf["file" := file.value]);
  }

  // ---------------------------------------------------------------------
  // init: overrides and root

  /** Lines 26-42: the override object's fields; the system section is an object after `environment`. */
  function Overridden(conf: map<string, JsValue>, override: JsValue): (map<string, JsValue>, Result<()>) {
    if !Truthy(override) then (conf, Ok(()))
    else if !Field(conf, "system").Obj? then (conf, Err(TypeError))
    else
      var s0 := conf["system"].props;
      var s1 := if Truthy(Get(override, "root")) then s0["root" := Get(override, "root")] else s0;
      var s2 := if Truthy(Get(override, "run")) then s1["run" := Get(override, "run")] else s1;
      var s3 := s2["env" := Get(override, "env")]["tenant" := Get(override, "tenant")]["app" := Get(override, "app")]
                  ["tag" := Get(override, "tag")]["live" := Get(override, "live")];
      var c := conf["system" := Obj(s3)];
      if !Truthy(Get(override, "debug")) then (c, Ok(()))
      else if !Field(c, "log").Obj? then (c, Err(TypeError))
      else (c["log" := Obj(c["log"].props["level" := Str("debug")])], Ok(()))
  }

  /** `root()`: `__dirname` without its last segment. */
  function RootOf(dirname: string): string {
    var parts := Split(dirname, '/');
    Join(parts[..|parts| - 1], '/')
  }

  /** Lines 45-51: an absent root becomes `base`, a relative one is put under it; a root that is no string has no `charAt`. */
  function RootAdjusted(conf: map<string, JsValue>, base: string): (map<string, JsValue>, Result<()>) {
    if !Field(conf, "system").Obj? then (conf, Err(TypeError))
    else
      var system := conf["system"].props;
      var root := Field(system, "root");
      if !Truthy(root) then (conf["system" := Obj(system["root" := Str(base)])], Ok(()))
      else if !root.Str? then (conf, Err(TypeError))
      else if root.s[0] != '/' then (conf["system" := Obj(system["root" := Str(base + "/" + root.s)])], Ok(()))
      else (conf, Ok(()))
  }

  /** The configuration and the outcome of `init` once `environment` has returned `conf`. */
  function Initialised(conf: map<string, JsValue>, override: JsValue, base: string): (map<string, JsValue>, Result<()>) {
    var (c, r) := Overridden(conf, override);
    if r.Err? then (c, r) else RootAdjusted(c, base)
  }

  /** `get(name)` on the configuration `conf`: the section, or `{}` when it is missing or falsy. */
  function SectionOf(conf: map<string, JsValue>, name: string): (r: JsValue)
    ensures Truthy(r)
    ensures Truthy(Field(conf, name)) ==> r == conf[name]
    ensures !Truthy(Field(conf, name)) ==> r == Obj(map[])
  {
    if Truthy(Field(conf, name)) then conf[name] else Obj(map[])
  }

  class Configuration {
    var conf: map<string, JsValue>

    constructor()
      ensures conf == map[]
    {
      conf := map[];
    }

    /** `get(name)`: never falsy. */
    method Get(name: string) returns (r: JsValue)
      ensures r == SectionOf(conf, name)
    {
      r := if Truthy(Field(conf, name)) then conf[name] else Obj(map[]);
    }

    /** `set(name, value)`. */
    method Set(name: string, value: JsValue)
      modifies this
      ensures conf == old(conf)[name := value]
    {
      conf := conf[name := value];
    }

    /**
     * `init()` with the loaded document, the override object, the
     * environment and `__dirname`.  When `environment` throws the
     * configuration is untouched; a later throw leaves what was written
     * before it.
     */
    method Init(loaded: JsValue, override: JsValue, env: Env, dirname: string) returns (r: Result<()>)
      requires loaded.Obj? ==> Merge.Modelled(Field(loaded.props, "file"), FileValue(FileConfOf(env, |env|)))
      modifies this
      ensures EnvironmentOf(loaded, env).Err? ==> r == Err(EnvironmentOf(loaded, env).ex) && conf == old(conf)
      ensures EnvironmentOf(loaded, env).Ok? ==> (conf, r) == Initialised(EnvironmentOf(loaded, env).value, override, RootOf(dirname))
    {
      var e := Environment(loaded, env);
      if e.Err? {
        return Err(e.ex);
      }
      conf := e.value;
      var (c, o) := Overridden(conf, override);
      conf := c;
      if o.Err? {
        return o;
      }
      var (c', a) := RootAdjusted(conf, RootOf(dirname));
      conf := c';
      return a;
    }
  }

  // ---------------------------------------------------------------------
  // Properties

  /** A section set to a truthy value is read back; a falsy one reads as `{}`. */
  lemma SetThenGet(conf: map<string, JsValue>, name: string, value: JsValue)
    ensures Truthy(value) ==> SectionOf(conf[name := value], name) == value
    ensures !Truthy(value) ==> SectionOf(conf[name := value], name) == Obj(map[])
  {
  }

  /** Splitting at the first separator, read the other way. */
  lemma SplitFirst(p: string, c: char)
    requires c in p
    ensures Split(p, c) == [p[..FirstIndex(p, c)]] + Split(p[FirstIndex(p, c) + 1..], c)
  {
  }

  /** Splitting at the last separator. */
  lemma {:induction false} SplitLast(p: string, c: char, last: string)
    requires c !in last
    ensures Split(p + [c] + last, c) == Split(p, c) + [last]
    decreases |p|
  {
    if c !in p {
      SplitAt(p, c, last);
      assert Split(p, c) == [p];
    } else {
      var i := FirstIndex(p, c);
      var head := p[..i];
      var tail := p[i + 1..];
      SplitFirst(p, c);
      assert p + [c] + last == head + [c] + (tail + [c] + last) by {
        assert p == head + [c] + tail;
      }
      SplitAt(head, c, tail + [c] + last);
      SplitLast(tail, c, last);
      assert [head] + (Split(tail, c) + [last]) == ([head] + Split(tail, c)) + [last];
    }
  }

  /** The root is the parent of `__dirname`. */
  lemma RootIsParent(parent: string, last: string)
    requires '/' !in last
    ensures RootOf(parent + "/" + last) == parent
  {
    SplitLast(parent, '/', last);
    var parts := Split(parent + "/" + last, '/');
    assert parts[..|parts| - 1] == Split(parent, '/');
    JoinSplit(parent, '/');
  }

  /** The three root cases: absent, relative and absolute. */
  lemma RootCases(conf: map<string, JsValue>, system: map<string, JsValue>, base: string)
    requires Field(conf, "system") == Obj(system)
    ensures var (c, r) := RootAdjusted(conf, base);
      var root := Field(system, "root");
      && (!Truthy(root) ==> r.Ok? && Field(c, "system") == Obj(system["root" := Str(base)]))
      && (root.Str? && root.s != "" && root.s[0] != '/' ==> r.Ok? && Field(c, "system") == Obj(system["root" := Str(base + "/" + root.s)]))
      && (root.Str? && root.s != "" && root.s[0] == '/' ==> (c, r) == (conf, Ok(())))
      && (Truthy(root) && !root.Str? ==> (c, r) == (conf, Err(TypeError)))
  {
  }

  /** The override writes `env`, `tenant`, `app`, `tag` and `live` unconditionally, erasing them when it has none. */
  lemma OverrideErases(conf: map<string, JsValue>, override: JsValue)
    requires Truthy(override) && Field(conf, "system").Obj?
    requires !Truthy(Get(override, "debug"))
    ensures var (c, r) := Overridden(conf, override);
      r.Ok? && c["system"].Obj? &&
      forall f :: f in ["env", "tenant", "app", "tag", "live"] ==> Field(c["system"].props, f) == Get(override, f)
  {
  }

  /** A falsy `root` or `run` in the override keeps the configured one. */
  lemma OverrideKeepsRoot(conf: map<string, JsValue>, override: JsValue)
    requires Truthy(override) && Field(conf, "system").Obj?
    requires !Truthy(Get(override, "root")) && !Truthy(Get(override, "debug"))
    ensures var (c, r) := Overridden(conf, override);
      r.Ok? && Field(c["system"].props, "root") == Field(conf["system"].props, "root")
  {
  }

  /** System variables override their fields, the port is parsed, the prefix defaults to "". */
  lemma SystemOverrides(system: map<string, JsValue>, env: Env)
    ensures var s := SystemSection(system, env);
      && Field(s, "service_prefix") == EnvOr(env, "SERVICE_PREFIX", Str(""))
      && Field(s, "port") == EnvInt(env, "ENGINE_SYSTEM_PORT", Field(system, "port"))
      && (forall i :: 0 <= i < |SystemVars| ==> Field(s, SystemVars[i].0) == EnvOr(env, SystemVars[i].1, Field(system, SystemVars[i].0)))
      && (forall k :: Unlisted(SystemVars, k) && k != "service_prefix" && k != "port" ==> Field(s, k) == Field(system, k))
  {
    SystemTable();
    SectionOverrides(system, env, SystemVars, EnvOr(env, "SERVICE_PREFIX", Str("")), EnvInt(env, "ENGINE_SYSTEM_PORT", Field(system, "port")));
  }

  lemma SectionOverrides(system: map<string, JsValue>, env: Env, table: Table, prefix: JsValue, port: JsValue)
    requires DistinctFields(table) && Unlisted(table, "service_prefix") && Unlisted(table, "port")
    ensures var s := Overlay(system["service_prefix" := prefix], env, table)["port" := port];
      && Field(s, "service_prefix") == prefix
      && Field(s, "port") == port
      && (forall i :: 0 <= i < |table| ==> Field(s, table[i].0) == EnvOr(env, table[i].1, Field(system, table[i].0)))
      && (forall k :: Unlisted(table, k) && k != "service_prefix" && k != "port" ==> Field(s, k) == Field(system, k))
  {
    var s0 := system["service_prefix" := prefix];
    OverlayFields(s0, env, table);
    forall i | 0 <= i < |table| ensures Field(s0, table[i].0) == Field(system, table[i].0) {
      assert table[i].0 != "service_prefix";
    }
  }

  /** A comma in `ENGINE_MEMORY_HOSTS` selects the sentinel model with one entry per item. */
  lemma MemorySentinel(memory: map<string, JsValue>, env: Env)
    requires HostsSet(env, "ENGINE_MEMORY_HOSTS") && ',' in HostsOf(env, "ENGINE_MEMORY_HOSTS")
    ensures var m := MemorySection(memory, env);
      && "host" !in m && "port" !in m
      && m["model"] == Str("sentinel")
      && m["hosts"] == Arr(HostList(HostsOf(env, "ENGINE_MEMORY_HOSTS")))
  {
  }

  /** Without a comma the direct model takes the single host and port, and any list goes. */
  lemma MemoryDirect(memory: map<string, JsValue>, env: Env)
    requires HostsSet(env, "ENGINE_MEMORY_HOSTS") && ',' !in HostsOf(env, "ENGINE_MEMORY_HOSTS")
    ensures var m := MemorySection(memory, env);
      && "hosts" !in m
      && m["model"] == Str("direct")
      && Obj(map["host" := m["host"], "port" := m["port"]]) == HostEntry(HostsOf(env, "ENGINE_MEMORY_HOSTS"))
  {
  }

  /** The db list deletes `host` but keeps a configured `port`, unlike the memory list. */
  lemma DbSentinelKeepsPort(db: map<string, JsValue>, env: Env)
    requires HostsSet(env, "ENGINE_DB_HOSTS") && ',' in HostsOf(env, "ENGINE_DB_HOSTS")
    ensures var d := DbSection(db, env);
      && "host" !in d
      && Field(d, "port") == Field(db, "port")
      && d["hosts"] == Arr(HostList(HostsOf(env, "ENGINE_DB_HOSTS")))
      && Field(d, "model") == Field(db, "model")
  {
    DbTable();
    OverlayFields(db, env, DbVars);
  }

  /** Without a hosts variable only the listed fields change. */
  lemma NoHostsVariable(memory: map<string, JsValue>, env: Env, k: string)
    requires !HostsSet(env, "ENGINE_MEMORY_HOSTS") && Unlisted(MemoryVars, k)
    ensures Field(MemorySection(memory, env), k) == Field(memory, k)
  {
    MemoryTable();
    OverlayFields(memory, env, MemoryVars);
  }

  /** An "h:p" item gives `{host: h, port: parseInt(p)}`; a bare host gives port NaN. */
  lemma HostPair(h: string, p: string)
    requires ':' !in h && ':' !in p
    ensures HostEntry(h + ":" + p) == Obj(map["host" := Str(h), "port" := NumberValue(ParseInt(p))])
    ensures HostEntry(h) == Obj(map["host" := Str(h), "port" := NaN])
  {
    SplitAt(h, ':', p);
    assert h + ":" + p == h + [':'] + p;
  }

  /** A list of items joined by commas gives one entry per item, in order. */
  lemma HostListOfItems(items: seq<string>)
    requires |items| >= 1 && forall k :: 0 <= k < |items| ==> ',' !in items[k]
    ensures HostList(Join(items, ',')) == seq(|items|, i requires 0 <= i < |items| => HostEntry(items[i]))
  {
    SplitJoin(items, ',');
  }

  /** Store and key are the two segments after the prefix; further segments are ignored. */
  lemma FileSlotSegments(name: string, store: string, key: string, more: string)
    requires IsFileVar(name)
    requires Lower(name) == FilePrefix + store + "_" + key + more
    requires '_' !in store && '_' !in key && (more == [] || more[0] == '_')
    ensures FileSlot(name) == (store, key)
  {
    var rest := Lower(name)[|FilePrefix|..];
    assert rest == store + "_" + key + more;
    FileVarSplit(name);
    SegmentsOf(rest, store, key, more);
  }

  lemma SegmentsOf(rest: string, store: string, key: string, more: string)
    requires rest == store + "_" + key + more
    requires '_' !in store && '_' !in key && (more == [] || more[0] == '_')
    ensures |Split(rest, '_')| >= 2 && Split(rest, '_')[0] == store && Split(rest, '_')[1] == key
  {
    assert rest == store + ['_'] + (key + more);
    SplitAt(store, '_', key + more);
    if more == [] {
      assert key + more == key;
    } else {
      assert more == ['_'] + more[1..];
      assert key + more == key + ['_'] + more[1..];
      SplitAt(key, '_', more[1..]);
    }
  }

  /** A variable with no key segment lands under the key "undefined". */
  lemma FileSlotNoKey(name: string, store: string)
    requires IsFileVar(name) && Lower(name) == FilePrefix + store && '_' !in store
    ensures FileSlot(name) == (store, "undefined")
  {
    FileVarSplit(name);
    assert Lower(name)[|FilePrefix|..] == store;
  }

  /** A file variable's value lands at its slot unless a later variable takes the same slot. */
  lemma {:induction false} FileConfLands(env: Env, n: nat, i: nat)
    requires i < n <= |env| && IsFileVar(env[i].0)
    requires forall j :: i < j < n && IsFileVar(env[j].0) ==> FileSlot(env[j].0) != FileSlot(env[i].0)
    ensures var slot := FileSlot(env[i].0);
      var fc := FileConfOf(env, n);
      slot.0 in fc && slot.1 in fc[slot.0] && fc[slot.0][slot.1] == EnvVar(env, env[i].0)
    decreases n
  {
    if n - 1 > i {
      FileConfLands(env, n - 1, i);
    }
  }

  /** Whether variable `name` is a file variable of store `s`. */
  predicate NamesStore(name: string, s: string) {
    IsFileVar(name) && FileSlot(name).0 == s
  }

  /** The stores of `fileconf` are exactly the stores named by file variables. */
  lemma {:induction false} FileConfStores(env: Env, n: nat, s: string)
    requires n <= |env|
    ensures s in FileConfOf(env, n) <==> exists i :: 0 <= i < n && NamesStore(env[i].0, s)
    decreases n
  {
    if n > 0 {
      FileConfStores(env, n - 1, s);
      FileConfStep(env, n, s);
      if s in FileConfOf(env, n) {
        if s in FileConfOf(env, n - 1) {
          var i :| 0 <= i < n - 1 && NamesStore(env[i].0, s);
          assert 0 <= i < n && NamesStore(env[i].0, s);
        } else {
          assert NamesStore(env[n - 1].0, s);
        }
      } else {
        forall i | 0 <= i < n
          ensures !NamesStore(env[i].0, s)
        {
        }
      }
    }
  }

  /** One step of the loop adds the variable's store, if it is a file variable. */
  lemma FileConfStep(env: Env, n: nat, s: string)
    requires 0 < n <= |env|
    ensures s in FileConfOf(env, n) <==> s in FileConfOf(env, n - 1) || NamesStore(env[n - 1].0, s)
  {
  }

  /** The sections `environment` rewrites, and the TypeErrors it throws on the way. */
  lemma SectionsOutcome(loaded: JsValue, env: Env)
    ensures !loaded.Obj? || !Field(loaded.props, "system").Obj? ==> Sections(loaded, env) == Err(TypeError)
    ensures (loaded.Obj? && Field(loaded.props, "system").Obj? && Truthy(EnvVar(env, "ENGINE_SYSTEM_DEBUG")) &&
             !Field(loaded.props, "log").Obj?) ==> Sections(loaded, env) == Err(TypeError)
    ensures Sections(loaded, env).Ok? ==>
      (loaded.Obj? && Field(loaded.props, "system").Obj? &&
       Field(Sections(loaded, env).value, "system") == Obj(SystemSection(loaded.props["system"].props, env)))
  {
    if loaded.Obj? && Field(loaded.props, "system").Obj? {
      var s := SystemStage(loaded.props, env);
      assert Field(s.value, "log") == Field(loaded.props, "log") by {
        assert "log" != "system";
      }
      var d := DebugStage(s.value, env);
      if d.Ok? {
        assert Field(d.value, "system") == Field(s.value, "system") by {
          assert "system" != "log";
        }
        StoresKeepSystem(d.value, env);
      }
    }
  }

  lemma StoresKeepSystem(c: map<string, JsValue>, env: Env)
    ensures StoresStage(c, env).Ok? ==> Field(StoresStage(c, env).value, "system") == Field(c, "system")
  {
    assert "system" != "memory" && "system" != "db";
  }
}
