/**
 * `Services` (src/component/services.ts): the same routing trie as the
 * registry, built from the `services` list of the configuration.  Each
 * service description is checked by the OpenAPI validator first; the
 * validator's verdict is an input here (`None` for a description it
 * refused).  Routes, load paths and method tables are derived as the
 * registry derives them.  The handler directories are not handed over by a
 * caller: `loadHandler` walks whatever `get('handlers')` returns, which is
 * `{}` when the configuration has no `handlers` entry (`LoadFrom`).  Where
 * the registry throws, this component rejects, with the same outcome.
 */
module Services {
  import opened Js
  import opened Errors
  import Tree
  import opened Registry
  import Configuration

  /** `init()` over the listed descriptions in order, stopping at the first rejection. */
  function Initialised(t: Tree.Node<Route>, load: string -> Result<JsValue>,
                       described: seq<(string, Option<Service>)>): (Tree.Node<Route>, Result<()>)
    decreases |described|
  {
    if |described| == 0 then (t, Ok(()))
    else
      var (path, service) := described[0];
      if service.None? then (t, Err(Fail("system_error", "Service validation error for " + path, "sys_srv_inval")))
      else
        var (t1, r) := Installed(t, load, service.value, service.value.paths);
        if r.Err? then (t1, r) else Initialised(t1, load, described[1..])
  }

  /**
   * The `services` list, each entry paired with the text it reads as and the
   * OpenAPI validator's verdict on `root + path` (`None` for a refused
   * description).
   */
  function Described(paths: seq<JsValue>, root: string, validate: string -> Option<Service>): seq<(string, Option<Service>)> {
    seq(|paths|, i requires 0 <= i < |paths| => (ToStr(paths[i]), validate(root + ToStr(paths[i]))))
  }

  /**
   * `loadHandler(sources, resource)` on any value `sources`: null for a
   * falsy value or one whose `length` is 0; otherwise the outcome of
   * `root + sources[0] + resource` unless that throws MODULE_NOT_FOUND, then
   * null when `length` is 1, and otherwise the same on `sources.slice(1)`,
   * which only arrays and strings have: anything else throws a TypeError.
   */
  function LoadFrom(files: Files, root: string, sources: JsValue, resource: string): Result<JsValue>
    decreases if sources.Arr? then |sources.items| else if sources.Str? then |sources.s| else 0
  {
    if !Truthy(sources) || Get(sources, "length") == Int(0) then Ok(Null)
    else
      var file := root + ToStr(Get(sources, "0")) + resource;
      if Found(files, file) then Outcome(files[file])
      else if Get(sources, "length") == Int(1) then Ok(Null)
      else match sources
        case Arr(items) => LoadFrom(files, root, Arr(items[1..]), resource)
        case Str(s) => LoadFrom(files, root, Str(s[1..]), resource)
        case _ => Err(TypeError)
  }

  /** The handler loader of `initService`, over the `handlers` section `sources`. */
  function HandlerLoader(files: Files, root: string, sources: JsValue): string -> Result<JsValue> {
    resource => LoadFrom(files, root, sources, resource)
  }

  class Services {
    /** The `system.root` directory and the engine's configuration. */
    const root: string
    const conf: map<string, JsValue>
    const files: Files
    var services: Tree.Node<Route>

    constructor(root: string, conf: map<string, JsValue>, files: Files)
      ensures this.root == root && this.conf == conf && this.files == files
      ensures services == Tree.Root()
    {
      this.root := root;
      this.conf := conf;
      this.files := files;
      services := Tree.Root();
    }

    /** `resolve(request)`: the route of a request path. */
    method Resolve(request: seq<string>) returns (r: Option<Route>)
      ensures r == Tree.Resolve(services, request)
    {
      r := Tree.Resolve(services, request);
    }

    /**
     * `initService(service)`: every path in order, each handler loaded from
     * the `handlers` section as `get` returns it; a rejection leaves the
     * routes added so far.
     */
    method InitService(service: Service) returns (r: Result<()>)
      modifies this
      ensures (services, r) ==
        Installed(old(services), HandlerLoader(files, root, Configuration.SectionOf(conf, "handlers")), service, service.paths)
    {
      var load := HandlerLoader(files, root, Configuration.SectionOf(conf, "handlers"));
      hide LoadFrom, Tree.Add, LoadPathOf, MethodsOf;
      var entries := service.paths;
      var j := 0;
      while j < |entries|
        invariant 0 <= j <= |entries|
        invariant Installed(services, load, service, entries[j..]) == Installed(old(services), load, service, entries)
      {
        assert entries[j..][0] == entries[j] && entries[j..][1..] == entries[j + 1..];
        var parts := Segments(RoutePath(service.basePath, entries[j].0));
        var loadpath := LoadPath(parts);
        var methods := MethodsOf(entries[j].1);
        if methods.Err? {
          return Err(methods.ex);
        }
        var handler := load(loadpath);
        if handler.Err? {
          return Err(handler.ex);
        }
        if !Truthy(handler.value) {
          return Err(Fail("system_error", "Handler for path " + loadpath + " not found", "sys_srv_lh"));
        }
        var (t, added) := Tree.Add(services, parts, Route(methods.value, handler.value, Obj(map["security" := service.securityDefinitions])));
        services := t;
        if added.Err? {
          return added;
        }
        j := j + 1;
      }
      assert entries[j..] == [];
      return Ok(());
    }

    /**
     * `init()`, with the validator's verdicts as `validate`.
     * `get('services')` never yields a falsy value, so the guard for a
     * missing entry is never taken: a section that is not a list has no
     * `reduce` to call and `init()` throws a TypeError.  A list is
     * validated and installed entry by entry.
     */
    method Init(validate: string -> Option<Service>) returns (r: Result<()>)
      modifies this
      ensures !Configuration.SectionOf(conf, "services").Arr? ==> r == Err(TypeError) && services == old(services)
      ensures Configuration.SectionOf(conf, "services").Arr? ==>
        (services, r) == Initialised(old(services), HandlerLoader(files, root, Configuration.SectionOf(conf, "handlers")),
                                     Described(Configuration.SectionOf(conf, "services").items, root, validate))
    {
      var section := Configuration.SectionOf(conf, "services");
      if !section.Arr? {
        return Err(TypeError);
      }
      ghost var load := HandlerLoader(files, root, Configuration.SectionOf(conf, "handlers"));
      var described := Described(section.items, root, validate);
      var j := 0;
      while j < |described|
        invariant 0 <= j <= |described|
        invariant Initialised(services, load, described[j..]) == Initialised(old(services), load, described)
      {
        assert described[j..][0] == described[j] && described[j..][1..] == described[j + 1..];
        var (path, service) := described[j];
        if service.None? {
          return Err(Fail("system_error", "Service validation error for " + path, "sys_srv_inval"));
        }
        r := InitService(service.value);
        if r.Err? {
          return r;
        }
        j := j + 1;
      }
      assert described[j..] == [];
      return Ok(());
    }
  }

  // ---------------------------------------------------------------------
  // Properties

  /** A refused description rejects `system_error` and adds nothing; the earlier ones stay installed. */
  lemma {:induction false} RefusedKeepsEarlier(t: Tree.Node<Route>, load: string -> Result<JsValue>,
                                               described: seq<(string, Option<Service>)>, j: nat)
    requires j < |described| && described[j].1.None?
    requires Initialised(t, load, described[..j]).1.Ok?
    ensures var (after, r) := Initialised(t, load, described);
      after == Initialised(t, load, described[..j]).0 &&
      r.Err? && IsError(r.ex, "system_error") && HasTrace(r.ex, "sys_srv_inval")
    decreases j
  {
    if j > 0 {
      assert described[..j][0] == described[0] && described[..j][1..] == described[1..][..j - 1];
      var t1 := Installed(t, load, described[0].1.value, described[0].1.value.paths).0;
      RefusedKeepsEarlier(t1, load, described[1..], j - 1);
    }
  }

  /** Once every description is installed, the routes of each resolve as the registry's would. */
  lemma {:induction false} InitialisedResolves(t: Tree.Node<Route>, load: string -> Result<JsValue>,
                                               described: seq<(string, Option<Service>)>, i: nat, k: nat)
    requires Initialised(t, load, described).1.Ok? && i < |described|
    ensures described[i].1.Some? && k < |described[i].1.value.paths| ==>
      var service := described[i].1.value;
      RouteFor(load, service, service.paths[k]).Ok? &&
      Tree.Resolve(Initialised(t, load, described).0, Segments(RoutePath(service.basePath, service.paths[k].0))) ==
        Some(RouteFor(load, service, service.paths[k]).value)
    decreases |described|
  {
    if i == 0 {
      FirstInitialisedResolves(t, load, described, k);
    } else {
      var service := described[0].1.value;
      var t1 := Installed(t, load, service, service.paths).0;
      var tail := described[1..];
      TailIndex(described, i);
      InitialisedResolves(t1, load, tail, i - 1, k);
      assert Initialised(t, load, described) == Initialised(t1, load, tail);
    }
  }

  /** The routes of the first description survive the install of the later ones. */
  lemma FirstInitialisedResolves(t: Tree.Node<Route>, load: string -> Result<JsValue>,
                                 described: seq<(string, Option<Service>)>, k: nat)
    requires Initialised(t, load, described).1.Ok? && 0 < |described|
    ensures described[0].1.Some? && k < |described[0].1.value.paths| ==>
      var service := described[0].1.value;
      RouteFor(load, service, service.paths[k]).Ok? &&
      Tree.Resolve(Initialised(t, load, described).0, Segments(RoutePath(service.basePath, service.paths[k].0))) ==
        Some(RouteFor(load, service, service.paths[k]).value)
  {
    var service := described[0].1.value;
    var t1 := Installed(t, load, service, service.paths).0;
    if k < |service.paths| {
      InstalledResolves(t, load, service, service.paths, k);
      InstalledExact(t, load, service, service.paths, k);
      InitialisedKeeps(t1, load, described[1..], Segments(RoutePath(service.basePath, service.paths[k].0)));
    }
  }

  /** Installing later descriptions keeps what an exact path resolves to. */
  lemma {:induction false} InitialisedKeeps(t: Tree.Node<Route>, load: string -> Result<JsValue>,
                                            described: seq<(string, Option<Service>)>, path: seq<string>)
    requires Initialised(t, load, described).1.Ok? && Tree.Exact(t, path)
    ensures Tree.Resolve(Initialised(t, load, described).0, path) == Tree.Resolve(t, path)
    decreases |described|
  {
    if |described| > 0 {
      var service := described[0].1.value;
      var t1 := Installed(t, load, service, service.paths).0;
      InstalledKeeps(t, load, service, service.paths, path);
      InstalledKeepsExact(t, load, service, service.paths, path);
      InitialisedKeeps(t1, load, described[1..], path);
    }
  }

  /** The text of each entry of a list, as `root + entry` reads it. */
  function Texts(items: seq<JsValue>): (r: seq<string>)
    ensures |r| == |items| && forall i :: 0 <= i < |items| ==> r[i] == ToStr(items[i])
  {
    seq(|items|, i requires 0 <= i < |items| => ToStr(items[i]))
  }

  /** The one-character strings of a string, in order. */
  function Chars(s: string): (r: seq<string>)
    ensures |r| == |s| && forall i :: 0 <= i < |s| ==> r[i] == [s[i]]
  {
    seq(|s|, i requires 0 <= i < |s| => [s[i]])
  }

  /** A `handlers` list is walked as the registry walks its directories: entry by entry, each as its text. */
  lemma {:induction false} LoadFromList(files: Files, root: string, items: seq<JsValue>, resource: string)
    ensures LoadFrom(files, root, Arr(items), resource) == LoadHandler(files, root, Texts(items), resource)
    decreases |items|
  {
    if |items| > 0 {
      FirstProp(Arr(items));
      if |items| > 1 {
        LoadFromList(files, root, items[1..], resource);
        assert Texts(items)[1..] == Texts(items[1..]);
      }
    }
  }

  /** A `handlers` string is walked character by character, each character a directory. */
  lemma {:induction false} LoadFromString(files: Files, root: string, s: string, resource: string)
    ensures LoadFrom(files, root, Str(s), resource) == LoadHandler(files, root, Chars(s), resource)
    decreases |s|
  {
    if |s| > 0 {
      FirstProp(Str(s));
      if |s| > 1 {
        LoadFromString(files, root, s[1..], resource);
        assert Chars(s)[1..] == Chars(s[1..]);
      }
    }
  }

  /**
   * Without a `handlers` entry `get` returns `{}`, which passes the guard:
   * the handler is loaded from `root + "undefined" + resource`, and when that
   * throws MODULE_NOT_FOUND the `slice` call throws a TypeError.
   */
  lemma MissingHandlersThrow(files: Files, root: string, conf: map<string, JsValue>, resource: string)
    requires !Truthy(Field(conf, "handlers"))
    ensures var file := root + "undefined" + resource;
      LoadFrom(files, root, Configuration.SectionOf(conf, "handlers"), resource) ==
        if Found(files, file) then Outcome(files[file]) else Err(TypeError)
  {
  }

  /**
   * So without a `handlers` entry, a path whose handler module is not found
   * rejects with a TypeError, not with "sys_srv_lh"; the routes added before
   * it stay.
   */
  lemma NoHandlersEntry(t: Tree.Node<Route>, files: Files, root: string, conf: map<string, JsValue>,
                        service: Service, entries: seq<(string, JsValue)>, j: nat)
    requires !Truthy(Field(conf, "handlers"))
    requires j < |entries| && MethodsOf(entries[j].1).Ok?
    requires !Found(files, root + "undefined" + LoadPathOf(Segments(RoutePath(service.basePath, entries[j].0))))
    requires Installed(t, HandlerLoader(files, root, Configuration.SectionOf(conf, "handlers")), service, entries[..j]).1.Ok?
    ensures var load := HandlerLoader(files, root, Configuration.SectionOf(conf, "handlers"));
      var (after, r) := Installed(t, load, service, entries);
      after == Installed(t, load, service, entries[..j]).0 && r == Err(TypeError)
  {
    var load := HandlerLoader(files, root, Configuration.SectionOf(conf, "handlers"));
    var lp := LoadPathOf(Segments(RoutePath(service.basePath, entries[j].0)));
    MissingHandlersThrow(files, root, conf, lp);
    assert load(lp) == Err(TypeError);
    LoadErrorKeepsEarlier(t, load, service, entries, j);
  }
}
