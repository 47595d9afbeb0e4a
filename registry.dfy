/**
 * `Registry` (src/component/registry.ts): the routes of the configured
 * services.  For every path of a service description the route path, its
 * trie segments and the handler's load path are derived, the declared
 * methods are reduced to their security requirements, the handler module
 * is loaded from the first handler directory that has it, and the route is
 * added to the routing trie.
 *
 * Loading a module is a lookup in `files`.  A file that is absent throws an
 * exception whose `code` is MODULE_NOT_FOUND, and so does a present one that
 * requires a module that cannot be found.  Any other file either loads,
 * giving its default export, or throws the exception it holds, whose `code`
 * is not MODULE_NOT_FOUND.
 */
module Registry {
  import opened Js
  import opened Errors
  import Tree

  /** What `require` does with a file that exists. */
  datatype Loaded =
    | Module(default: JsValue)
    | Failed(ex: Exception)
    | ModuleNotFound

  type Files = map<string, Loaded>

  /** What the trie holds for a route: its method table, its handler and its security definitions. */
  datatype Route = Route(methods: map<string, JsValue>, handler: JsValue, definitions: JsValue)

  /** A service description: its base path, its paths in declaration order, and its security definitions. */
  datatype Service = Service(basePath: JsValue, paths: seq<(string, JsValue)>, securityDefinitions: JsValue)

  // ---------------------------------------------------------------------
  // Derivation of a route

  /** The route path: the base path is prefixed unless it is "/". */
  function RoutePath(basePath: JsValue, p: string): string {
    if StrictEquals(basePath, Str("/")) then p else ToStr(basePath) + p
  }

  /** `path.split('/').splice(1)`: the segments after the leading '/'. */
  function Segments(path: string): seq<string> {
    Split(path, '/')[1..]
  }

  /** One part's contribution to the load path: "/" + part, nothing for a variable. */
  function LoadSegment(part: string): string {
    if Tree.IsVariable(part) then "" else "/" + part
  }

  /** The load path of a handler: the parts that are no variables, each after a "/". */
  function LoadPathOf(parts: seq<string>): string {
    if |parts| == 0 then "" else LoadSegment(parts[0]) + LoadPathOf(parts[1..])
  }

  /** The loop building `loadpath` by `+=`. */
  method LoadPath(parts: seq<string>) returns (loadpath: string)
    ensures loadpath == LoadPathOf(parts)
  {
    loadpath := "";
    assert LoadPathOf(parts[..0]) == "";
    hide LoadPathOf, Tree.IsVariable;
    var n := 0;
    while n < |parts|
      invariant 0 <= n <= |parts|
      invariant loadpath == LoadPathOf(parts[..n])
    {
      LoadPathSnoc(parts, n);
      if !Tree.IsVariable(parts[n]) {
        loadpath := loadpath + "/" + parts[n];
      }
      n := n + 1;
    }
    assert parts[..n] == parts;
  }

  lemma LoadPathSnoc(parts: seq<string>, n: nat)
    requires n < |parts|
    ensures LoadPathOf(parts[..n + 1]) == LoadPathOf(parts[..n]) + LoadSegment(parts[n])
  {
    assert parts[..n + 1] == parts[..n] + [parts[n]];
    LoadPathAppend(parts[..n], [parts[n]]);
    assert [parts[n]][1..] == [];
  }

  /**
   * The method table: each declared method keeps only its `security`.
   * Enumerating the methods of null or undefined, or reading `security` of
   * a null or undefined method, throws.
   */
  function MethodsOf(item: JsValue): Result<map<string, JsValue>> {
    if Nullish(item) then Err(TypeError)
    else
      var ms := OwnProps(item);
      if AnyNullish(ms) then Err(TypeError)
      else Ok(SecurityOnly(ms))
  }

  /** The table is built unless the item or one of its methods is null or undefined; it has one entry per method. */
  lemma MethodsOfRule(item: JsValue)
    ensures MethodsOf(item).Ok? <==> !Nullish(item) && forall k :: k in OwnProps(item) ==> !Nullish(OwnProps(item)[k])
    ensures MethodsOf(item).Err? ==> MethodsOf(item).ex == TypeError
    ensures MethodsOf(item).Ok? ==> MethodsOf(item).value.Keys == OwnProps(item).Keys
  {
  }

  predicate AnyNullish(ms: map<string, JsValue>) {
    exists k :: k in ms && Nullish(ms[k])
  }

  /** Each method reduced to its `security`. */
  function SecurityOnly(ms: map<string, JsValue>): (r: map<string, JsValue>)
    ensures r.Keys == ms.Keys
  {
    map k | k in ms :: Obj(map["security" := Get(ms[k], "security")])
  }

  /** Loading `file` does not throw MODULE_NOT_FOUND: it loads or throws something else. */
  predicate Found(files: Files, file: string) {
    file in files && !files[file].ModuleNotFound?
  }

  /**
   * `loadHandler(sources, resource)`: the outcome of the first of
   * `root + source + resource` whose load does not throw MODULE_NOT_FOUND,
   * and null when there are no sources or every load throws it.
   */
  function LoadHandler(files: Files, root: string, sources: seq<string>, resource: string): Result<JsValue>
    decreases |sources|
  {
    if |sources| == 0 then Ok(Null)
    else
      var file := root + sources[0] + resource;
      if Found(files, file) then Outcome(files[file])
      else if |sources| == 1 then Ok(Null)
      else LoadHandler(files, root, sources[1..], resource)
  }

  /**
   * The outcome is that of the first source whose load does not throw
   * MODULE_NOT_FOUND, and null when every load throws it.
   */
  lemma {:induction false} LoadHandlerRule(files: Files, root: string, sources: seq<string>, resource: string)
    ensures (forall k :: 0 <= k < |sources| ==> !Found(files, root + sources[k] + resource)) ==>
      LoadHandler(files, root, sources, resource) == Ok(Null)
    ensures forall i :: (0 <= i < |sources| && Found(files, root + sources[i] + resource) &&
                         (forall k :: 0 <= k < i ==> !Found(files, root + sources[k] + resource))) ==>
      LoadHandler(files, root, sources, resource) == Outcome(files[root + sources[i] + resource])
    decreases |sources|
  {
    if |sources| > 1 && !Found(files, root + sources[0] + resource) {
      LoadHandlerRule(files, root, sources[1..], resource);
      assert forall k :: 1 <= k < |sources| ==> sources[k] == sources[1..][k - 1];
    }
  }

  /** What `require` gives when it does not throw MODULE_NOT_FOUND: the default export, or the thrown exception. */
  function Outcome(l: Loaded): Result<JsValue>
    requires !l.ModuleNotFound?
  {
    match l
    case Module(d) => Ok(d)
    case Failed(ex) => Err(ex)
  }

  /** `loadHandler(handlers, resource)` as a function of the load path: the registry's handler loader. */
  function Loader(files: Files, root: string, handlers: seq<string>): string -> Result<JsValue> {
    resource => LoadHandler(files, root, handlers, resource)
  }

  /**
   * The route one path entry of a service gives, or why there is none.
   * `load` gives the handler, or the exception, for a load path.
   */
  function RouteFor(load: string -> Result<JsValue>, service: Service, entry: (string, JsValue)): Result<Route> {
    var parts := Segments(RoutePath(service.basePath, entry.0));
    var loadpath := LoadPathOf(parts);
    var methods := MethodsOf(entry.1);
    if methods.Err? then Err(methods.ex)
    else
      var handler := load(loadpath);
      if handler.Err? then Err(handler.ex)
      else if !Truthy(handler.value) then Err(Fail("system_error", "Handler for path " + loadpath + " not found", "sys_srv_lh"))
      else Ok(Route(methods.value, handler.value, Obj(map["security" := service.securityDefinitions])))
  }

  /** The trie after one path entry, and whether it threw. */
  function Step(t: Tree.Node<Route>, load: string -> Result<JsValue>, service: Service,
                entry: (string, JsValue)): (Tree.Node<Route>, Result<()>) {
    var route := RouteFor(load, service, entry);
    if route.Err? then (t, Err(route.ex))
    else Tree.Add(t, Segments(RoutePath(service.basePath, entry.0)), route.value)
  }

  /** The trie after the path entries in order, stopping at the first that throws. */
  function Installed(t: Tree.Node<Route>, load: string -> Result<JsValue>, service: Service,
                     entries: seq<(string, JsValue)>): (Tree.Node<Route>, Result<()>)
    decreases |entries|
  {
    if |entries| == 0 then (t, Ok(()))
    else
      var (t1, r) := Step(t, load, service, entries[0]);
      if r.Err? then (t1, r) else Installed(t1, load, service, entries[1..])
  }

  class Registry {
    /** The `system.root` directory, prefixed to every module file. */
    const root: string
    const files: Files
    var routes: Tree.Node<Route>

    constructor(root: string, files: Files)
      ensures this.root == root && this.files == files && routes == Tree.Root()
    {
      this.root := root;
      this.files := files;
      routes := Tree.Root();
    }

    /** `resolve(request)`: the route of a request path. */
    method Resolve(request: seq<string>) returns (r: Option<Route>)
      ensures r == Tree.Resolve(routes, request)
    {
      r := Tree.Resolve(routes, request);
    }

    /** `initService(service, handlers)`: every path in order; a throw leaves the routes added so far. */
    method InitService(service: Service, handlers: seq<string>) returns (r: Result<()>)
      modifies this
      ensures (routes, r) == Installed(old(routes), Loader(files, root, handlers), service, service.paths)
    {
      var load := Loader(files, root, handlers);
      var entries := service.paths;
      var j := 0;
      while j < |entries|
        invariant 0 <= j <= |entries|
        invariant Installed(routes, load, service, entries[j..]) ==
          Installed(old(routes), load, service, entries)
      {
        assert entries[j..][0] == entries[j] && entries[j..][1..] == entries[j + 1..];
        var path := RoutePath(service.basePath, entries[j].0);
        var parts := Segments(path);
        var loadpath := LoadPath(parts);
        var methods := MethodsOf(entries[j].1);
        if methods.Err? {
          return Err(methods.ex);
        }
        var handler := load(loadpath);
        if handler.Err? {
          return Err(handler.ex);
        }
        if !Truthy(handler.value) {
          return Err(Fail("system_error", "Handler for path " + loadpath + " not found", "sys_srv_lh"));
        }
        var (t, added) := Tree.Add(routes, parts, Route(methods.value, handler.value, Obj(map["security" := service.securityDefinitions])));
        routes := t;
        if added.Err? {
          return added;
        }
        j := j + 1;
      }
      assert entries[j..] == [];
      return Ok(());
    }
  }

  // ---------------------------------------------------------------------
  // Properties

  /** The load path of two runs of parts is the load path of the first followed by that of the second. */
  lemma {:induction false} LoadPathAppend(a: seq<string>, b: seq<string>)
    ensures LoadPathOf(a + b) == LoadPathOf(a) + LoadPathOf(b)
  {
    if |a| > 0 {
      assert (a + b)[1..] == a[1..] + b;
      LoadPathAppend(a[1..], b);
    } else {
      assert a + b == b;
    }
  }

  /** Variable parts contribute nothing to the load path. */
  lemma LoadPathSkipsVariable(a: seq<string>, v: string, b: seq<string>)
    requires Tree.IsVariable(v)
    ensures LoadPathOf(a + [v] + b) == LoadPathOf(a + b)
  {
    var vb := [v] + b;
    assert a + [v] + b == a + vb;
    assert LoadPathOf(vb) == LoadPathOf(b) by {
      assert vb[0] == v && vb[1..] == b;
      assert LoadSegment(v) == "";
    }
    LoadPathAppend(a, vb);
    LoadPathAppend(a, b);
  }

  /** Without variable parts the load path is the parts joined by '/' after a leading '/'. */
  lemma {:induction false} LoadPathJoin(parts: seq<string>)
    requires |parts| >= 1 && forall k :: 0 <= k < |parts| ==> !Tree.IsVariable(parts[k])
    ensures LoadPathOf(parts) == "/" + Join(parts, '/')
  {
    if |parts| > 1 {
      LoadPathJoin(parts[1..]);
    } else {
      assert parts[1..] == [];
    }
  }

  /** A route path that starts with '/' and has no variable segment is its own load path. */
  lemma LoadPathOfPlainPath(path: string)
    requires |path| >= 1 && path[0] == '/'
    requires forall k :: 0 <= k < |Segments(path)| ==> !Tree.IsVariable(Segments(path)[k])
    ensures LoadPathOf(Segments(path)) == path
  {
    var rest := path[1..];
    assert '/' in path && FirstIndex(path, '/') == 0;
    assert path[1..] == rest;
    assert Split(path, '/') == [""] + Split(rest, '/');
    assert Segments(path) == Split(rest, '/');
    LoadPathJoin(Split(rest, '/'));
    JoinSplit(rest, '/');
  }

  /** The base path "/" is not prefixed; any other base path is. */
  lemma RoutePathBase(basePath: string, p: string)
    ensures RoutePath(Str("/"), p) == p
    ensures basePath != "/" ==> RoutePath(Str(basePath), p) == basePath + p
  {
  }

  /** A method of the route is supported exactly when the path declares it, and it keeps its `security`. */
  lemma MethodsKeepSecurity(item: JsValue, m: string)
    requires MethodsOf(item).Ok?
    ensures Truthy(Field(MethodsOf(item).value, m)) <==> m in OwnProps(item)
    ensures m in OwnProps(item) ==>
      Get(Field(MethodsOf(item).value, m), "security") == Get(OwnProps(item)[m], "security") &&
      OwnProps(Field(MethodsOf(item).value, m)).Keys == {"security"}
  {
    MethodsOfRule(item);
    SecurityKept(OwnProps(item), m);
  }

  lemma SecurityKept(ms: map<string, JsValue>, m: string)
    ensures Truthy(Field(SecurityOnly(ms), m)) <==> m in ms
    ensures m in ms ==>
      Get(Field(SecurityOnly(ms), m), "security") == Get(ms[m], "security") &&
      OwnProps(Field(SecurityOnly(ms), m)).Keys == {"security"}
  {
    if m in ms {
      var v := Obj(map["security" := Get(ms[m], "security")]);
      assert Field(SecurityOnly(ms), m) == v;
    }
  }

  /** With no handler directories there is no handler. */
  lemma NoSourcesNoHandler(files: Files, root: string, resource: string)
    ensures LoadHandler(files, root, [], resource) == Ok(Null)
  {
  }

  /** A directory that has the module wins over the later ones: the fallback goes in order. */
  lemma FirstSourceWins(files: Files, root: string, a: string, b: string, resource: string, d: JsValue)
    requires root + a + resource in files && files[root + a + resource] == Module(d)
    ensures LoadHandler(files, root, [a, b], resource) == Ok(d)
  {
  }

  /**
   * A module that exists but throws MODULE_NOT_FOUND when loaded (one of its
   * own imports is missing) is skipped like an absent one: the next
   * directory is tried, and after the last one the handler is null.
   */
  lemma NotFoundFallsThrough(files: Files, root: string, a: string, rest: seq<string>, resource: string)
    requires root + a + resource in files && files[root + a + resource] == ModuleNotFound
    ensures rest == [] ==> LoadHandler(files, root, [a] + rest, resource) == Ok(Null)
    ensures rest != [] ==> LoadHandler(files, root, [a] + rest, resource) == LoadHandler(files, root, rest, resource)
  {
    assert ([a] + rest)[0] == a && ([a] + rest)[1..] == rest;
  }

  /** A path whose handler is missing throws `system_error`, and the routes added before it stay. */
  lemma {:induction false} MissingHandlerKeepsEarlier(t: Tree.Node<Route>, load: string -> Result<JsValue>,
                                                    service: Service, entries: seq<(string, JsValue)>, j: nat)
    requires j < |entries| && Installed(t, load, service, entries[..j]).1.Ok?
    requires MethodsOf(entries[j].1).Ok?
    requires var lp := LoadPathOf(Segments(RoutePath(service.basePath, entries[j].0)));
      load(lp).Ok? && !Truthy(load(lp).value)
    ensures var lp := LoadPathOf(Segments(RoutePath(service.basePath, entries[j].0)));
      var (after, r) := Installed(t, load, service, entries);
      after == Installed(t, load, service, entries[..j]).0 &&
      r == Err(Fail("system_error", "Handler for path " + lp + " not found", "sys_srv_lh")) &&
      IsError(r.ex, "system_error")
    decreases j
  {
    if j > 0 {
      assert entries[..j][0] == entries[0] && entries[..j][1..] == entries[1..][..j - 1];
      var t1 := Step(t, load, service, entries[0]).0;
      MissingHandlerKeepsEarlier(t1, load, service, entries[1..], j - 1);
    }
  }

  /** A path whose handler load throws rethrows that exception, and the routes added before it stay. */
  lemma {:induction false} LoadErrorKeepsEarlier(t: Tree.Node<Route>, load: string -> Result<JsValue>,
                                                 service: Service, entries: seq<(string, JsValue)>, j: nat)
    requires j < |entries| && Installed(t, load, service, entries[..j]).1.Ok?
    requires MethodsOf(entries[j].1).Ok?
    requires load(LoadPathOf(Segments(RoutePath(service.basePath, entries[j].0)))).Err?
    ensures var lp := LoadPathOf(Segments(RoutePath(service.basePath, entries[j].0)));
      var (after, r) := Installed(t, load, service, entries);
      after == Installed(t, load, service, entries[..j]).0 && r == Err(load(lp).ex)
    decreases j
  {
    if j > 0 {
      assert entries[..j][0] == entries[0] && entries[..j][1..] == entries[1..][..j - 1];
      var t1 := Step(t, load, service, entries[0]).0;
      LoadErrorKeepsEarlier(t1, load, service, entries[1..], j - 1);
    }
  }

  /** Once every path is installed, each of them resolves to its route. */
  lemma {:induction false} InstalledResolves(t: Tree.Node<Route>, load: string -> Result<JsValue>,
                                             service: Service, entries: seq<(string, JsValue)>, k: nat)
    requires Installed(t, load, service, entries).1.Ok? && k < |entries|
    ensures RouteFor(load, service, entries[k]).Ok?
    ensures Tree.Resolve(Installed(t, load, service, entries).0,
                         Segments(RoutePath(service.basePath, entries[k].0))) ==
      Some(RouteFor(load, service, entries[k]).value)
    decreases |entries|
  {
    var t1 := Step(t, load, service, entries[0]).0;
    InstalledUnfold(t, load, service, entries);
    if k == 0 {
      FirstResolves(t, load, service, entries);
    } else {
      var e := entries[k];
      var tail := entries[1..];
      TailIndex(entries, k);
      InstalledResolves(t1, load, service, tail, k - 1);
      var rest := Installed(t1, load, service, tail);
      assert Tree.Resolve(rest.0, Segments(RoutePath(service.basePath, e.0))) ==
        Some(RouteFor(load, service, e).value);
      assert Installed(t, load, service, entries) == rest;
    }
  }

  lemma TailIndex<T>(s: seq<T>, k: nat)
    requires 0 < k < |s|
    ensures s[1..][k - 1] == s[k]
  {
  }

  /** The route of the first entry survives the install of the rest. */
  lemma FirstResolves(t: Tree.Node<Route>, load: string -> Result<JsValue>,
                      service: Service, entries: seq<(string, JsValue)>)
    requires Installed(t, load, service, entries).1.Ok? && |entries| > 0
    ensures RouteFor(load, service, entries[0]).Ok?
    ensures Tree.Resolve(Installed(t, load, service, entries).0,
                         Segments(RoutePath(service.basePath, entries[0].0))) ==
      Some(RouteFor(load, service, entries[0]).value)
  {
    InstalledUnfold(t, load, service, entries);
    StepOk(t, load, service, entries[0]);
    var route := RouteFor(load, service, entries[0]).value;
    var parts := Segments(RoutePath(service.basePath, entries[0].0));
    var t1 := Tree.Add(t, parts, route).0;
    Tree.AddThenResolve(t, parts, route);
    Tree.AddMakesExact(t, parts, route);
    InstalledKeeps(t1, load, service, entries[1..], parts);
  }

  /** A step that does not throw adds the entry's route at its segments. */
  lemma StepOk(t: Tree.Node<Route>, load: string -> Result<JsValue>, service: Service,
               entry: (string, JsValue))
    requires Step(t, load, service, entry).1.Ok?
    ensures RouteFor(load, service, entry).Ok?
    ensures Step(t, load, service, entry) ==
      Tree.Add(t, Segments(RoutePath(service.basePath, entry.0)), RouteFor(load, service, entry).value)
  {
  }

  /** A normal install is a normal first step followed by a normal install of the rest. */
  lemma InstalledUnfold(t: Tree.Node<Route>, load: string -> Result<JsValue>,
                        service: Service, entries: seq<(string, JsValue)>)
    requires Installed(t, load, service, entries).1.Ok? && |entries| > 0
    ensures Step(t, load, service, entries[0]).1.Ok?
    ensures Installed(t, load, service, entries) ==
      Installed(Step(t, load, service, entries[0]).0, load, service, entries[1..])
  {
  }

  /** Installing more paths keeps every exact path and what it resolves to. */
  lemma {:induction false} InstalledKeeps(t: Tree.Node<Route>, load: string -> Result<JsValue>,
                                          service: Service, entries: seq<(string, JsValue)>, path: seq<string>)
    requires Installed(t, load, service, entries).1.Ok? && Tree.Exact(t, path)
    ensures Tree.Resolve(Installed(t, load, service, entries).0, path) == Tree.Resolve(t, path)
    decreases |entries|
  {
    if |entries| > 0 {
      InstalledUnfold(t, load, service, entries);
      StepOk(t, load, service, entries[0]);
      var route := RouteFor(load, service, entries[0]);
      var parts := Segments(RoutePath(service.basePath, entries[0].0));
      var t1 := Step(t, load, service, entries[0]).0;
      Tree.AddKeepsExact(t, path, parts, route.value);
      InstalledKeeps(t1, load, service, entries[1..], path);
    }
  }

  /** After a normal install every installed path is exact in the trie. */
  lemma {:induction false} InstalledExact(t: Tree.Node<Route>, load: string -> Result<JsValue>,
                                          service: Service, entries: seq<(string, JsValue)>, k: nat)
    requires Installed(t, load, service, entries).1.Ok? && k < |entries|
    ensures Tree.Exact(Installed(t, load, service, entries).0, Segments(RoutePath(service.basePath, entries[k].0)))
    decreases |entries|
  {
    var route := RouteFor(load, service, entries[0]);
    var parts := Segments(RoutePath(service.basePath, entries[0].0));
    var t1 := Step(t, load, service, entries[0]).0;
    InstalledUnfold(t, load, service, entries);
    StepOk(t, load, service, entries[0]);
    if k == 0 {
      Tree.AddMakesExact(t, parts, route.value);
      InstalledKeepsExact(t1, load, service, entries[1..], parts);
    } else {
      assert entries[1..][k - 1] == entries[k];
      InstalledExact(t1, load, service, entries[1..], k - 1);
    }
  }

  lemma {:induction false} InstalledKeepsExact(t: Tree.Node<Route>, load: string -> Result<JsValue>,
                                               service: Service, entries: seq<(string, JsValue)>, path: seq<string>)
    requires Installed(t, load, service, entries).1.Ok? && Tree.Exact(t, path)
    ensures Tree.Exact(Installed(t, load, service, entries).0, path)
    decreases |entries|
  {
    if |entries| > 0 {
      InstalledUnfold(t, load, service, entries);
      StepOk(t, load, service, entries[0]);
      var route := RouteFor(load, service, entries[0]);
      var parts := Segments(RoutePath(service.basePath, entries[0].0));
      Tree.AddKeepsExact(t, path, parts, route.value);
      InstalledKeepsExact(Step(t, load, service, entries[0]).0, load, service, entries[1..], path);
    }
  }
}
