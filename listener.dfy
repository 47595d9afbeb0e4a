/**
 * `Listener` (src/component/listener.ts): the HTTP front of the engine.  A
 * request path loses the configured service prefix, is resolved in the
 * routing trie of the services or the registry, and its method must be one
 * the route declares; each failure answers `invalid_request` before any
 * authorisation is tried.
 */
module Listener {
  import opened Js
  import opened Errors
  import Tree
  import opened Registry

  /** `(prefix ? prefix.split('/') : []).splice(1)`. */
  function PrefixParts(prefix: string): seq<string> {
    if prefix == "" then [] else Segments(prefix)
  }

  /** The request segments after a matched prefix, or null when a prefix segment differs or is missing. */
  function Strip(pfx: seq<string>, fp: seq<string>): (r: Option<seq<string>>)
    ensures r.Some? <==> |pfx| <= |fp| && fp[..|pfx|] == pfx
    ensures r.Some? ==> r.value == fp[|pfx|..]
  {
    if |pfx| == 0 then Some(fp)
    else if |fp| > 0 && fp[0] == pfx[0] then
      var r := Strip(pfx[1..], fp[1..]);
      assert |pfx| <= |fp| && fp[..|pfx|] == pfx ==> fp[1..][..|pfx| - 1] == pfx[1..];
      assert |pfx[1..]| <= |fp[1..]| && fp[1..][..|pfx[1..]|] == pfx[1..] ==> fp[..|pfx|] == [fp[0]] + fp[1..][..|pfx| - 1];
      assert |pfx| <= |fp| ==> fp[1..][|pfx| - 1..] == fp[|pfx|..];
      r
    else
      assert |pfx| <= |fp| ==> fp[..|pfx|][0] == fp[0];
      None
  }

  /** Why a request is refused before authorisation. */
  function Refusal(reqMethod: string, reqPath: string, why: nat): Exception
    requires why < 3
  {
    if why == 0 then Fail("invalid_request", "Service path with invalid prefix " + reqMethod + ": " + reqPath, "sys_en_rspfx")
    else if why == 1 then Fail("invalid_request", "Service not found " + reqMethod + ": " + reqPath, "sys_en_rs1")
    else Fail("invalid_request", "Unsupported method " + reqMethod + " for service " + reqPath, "sys_en_rs2")
  }

  /**
   * The checks of the request middleware: the prefix, the route, then the
   * lower-cased method; the route is handed on to authorisation.
   */
  function Dispatched(prefix: string, routes: Tree.Node<Route>, reqMethod: string, reqPath: string): (r: Result<Route>)
    ensures Strip(PrefixParts(prefix), Segments(reqPath)).None? ==> r == Err(Refusal(reqMethod, reqPath, 0))
    ensures r.Ok? <==>
      (var p := Strip(PrefixParts(prefix), Segments(reqPath));
       p.Some? && Tree.Resolve(routes, p.value).Some? &&
       Lower(reqMethod) in Tree.Resolve(routes, p.value).value.methods &&
       Truthy(Tree.Resolve(routes, p.value).value.methods[Lower(reqMethod)]))
    ensures r.Ok? ==> Some(r.value) == Tree.Resolve(routes, Strip(PrefixParts(prefix), Segments(reqPath)).value)
    ensures r.Err? ==> IsError(r.ex, "invalid_request") && r.ex.err.code == 400
  {
    var path := Strip(PrefixParts(prefix), Segments(reqPath));
    if path.None? then Err(Refusal(reqMethod, reqPath, 0))
    else
      var route := Tree.Resolve(routes, path.value);
      if route.None? then Err(Refusal(reqMethod, reqPath, 1))
      else if !Truthy(Field(route.value.methods, Lower(reqMethod))) then Err(Refusal(reqMethod, reqPath, 2))
      else Ok(route.value)
  }

  class Listener {
    const address: JsValue
    const port: JsValue
    /** `service_prefix`, which the configuration always sets to a string. */
    const prefix: string

    /** The `system` section gives the address, the port and the prefix; address and port have defaults. */
    constructor(conf: JsValue, servicePrefix: string)
      ensures address == (if Truthy(Get(conf, "listen")) then Get(conf, "listen") else Str("127.0.0.1"))
      ensures port == (if Truthy(Get(conf, "port")) then Get(conf, "port") else Str("80"))
      ensures prefix == servicePrefix
    {
      address := if Truthy(Get(conf, "listen")) then Get(conf, "listen") else Str("127.0.0.1");
      port := if Truthy(Get(conf, "port")) then Get(conf, "port") else Str("80");
      prefix := servicePrefix;
    }

    /** `path(path)`: walk the prefix segments with a `matched` counter, then drop that many. */
    method Path(path: string) returns (r: Option<seq<string>>)
      ensures r == Strip(PrefixParts(prefix), Segments(path))
      ensures prefix == "" ==> r == Some(Segments(path))
    {
      var matched := 0;
      var pfx := PrefixParts(prefix);
      var finalPath := Segments(path);
      var i := 0;
      while i < |pfx|
        invariant 0 <= i <= |pfx| && i <= |finalPath|
        invariant matched == i
        invariant finalPath[..i] == pfx[..i]
      {
        if i < |finalPath| && pfx[i] == finalPath[i] {
          assert finalPath[..i + 1] == finalPath[..i] + [finalPath[i]];
          assert pfx[..i + 1] == pfx[..i] + [pfx[i]];
          matched := matched + 1;
        } else {
          assert |pfx| <= |finalPath| ==> finalPath[..|pfx|][i] == finalPath[i] && pfx[i] == pfx[..|pfx|][i];
          return None;
        }
        i := i + 1;
      }
      assert pfx[..i] == pfx;
      return Some(finalPath[matched..]);
    }

    /** The middleware up to authorisation, over the routes of the services or the registry. */
    method Handle(routes: Tree.Node<Route>, reqMethod: string, reqPath: string) returns (r: Result<Route>)
      ensures r == Dispatched(prefix, routes, reqMethod, reqPath)
    {
      var m := Lower(reqMethod);
      var path := Path(reqPath);
      if path.None? {
        return Err(Refusal(reqMethod, reqPath, 0));
      }
      var route := Tree.Resolve(routes, path.value);
      if route.None? {
        return Err(Refusal(reqMethod, reqPath, 1));
      }
      if !Truthy(Field(route.value.methods, m)) {
        return Err(Refusal(reqMethod, reqPath, 2));
      }
      return Ok(route.value);
    }
  }

  // ---------------------------------------------------------------------
  // Properties

  /** Without a prefix every segment after the leading '/' is kept. */
  lemma NoPrefixKeepsAll(reqPath: string)
    ensures Strip(PrefixParts(""), Segments(reqPath)) == Some(Segments(reqPath))
  {
  }

  /** A request with fewer segments than the prefix is refused. */
  lemma ShortRequestRefused(prefix: string, reqPath: string)
    requires |Segments(reqPath)| < |PrefixParts(prefix)|
    ensures Strip(PrefixParts(prefix), Segments(reqPath)).None?
  {
  }

  /** A one-segment prefix "/p" is stripped from "/p/rest", leaving the segments of "/rest". */
  lemma PrefixStripped(p: string, rest: string)
    requires '/' !in p
    ensures PrefixParts("/" + p) == [p]
    ensures Strip(PrefixParts("/" + p), Segments("/" + p + "/" + rest)) == Some(Segments("/" + rest))
  {
    SlashSegments(p);
    var tail := Split(rest, '/');
    assert "/" + p + "/" + rest == "/" + (p + "/" + rest);
    SlashSegments(p + "/" + rest);
    SplitHead(p, rest);
    SlashSegments(rest);
    var fp := [p] + tail;
    assert fp[..1] == [p] && fp[1..] == tail;
  }

  /** A prefix without a leading '/' loses its first segment, so it strips nothing. */
  lemma RelativePrefixIgnored(p: string, reqPath: string)
    requires p != "" && '/' !in p
    ensures PrefixParts(p) == []
    ensures Strip(PrefixParts(p), Segments(reqPath)) == Some(Segments(reqPath))
  {
  }

  /** A prefix "/p/" with a trailing '/' demands an empty segment after "p", so it refuses "/p/q". */
  lemma TrailingSlashPrefix(p: string, q: string)
    requires '/' !in p && '/' !in q && q != ""
    ensures PrefixParts("/" + p + "/") == [p, ""]
    ensures Strip(PrefixParts("/" + p + "/"), Segments("/" + p + "/" + q)).None?
  {
    TrailingPrefixParts(p);
    assert "/" + p + "/" + q == "/" + (p + "/" + q);
    SlashSegments(p + "/" + q);
    SplitHead(p, q);
    assert Split(q, '/') == [q];
    var pfx := [p, ""];
    var fp := [p, q];
    assert fp[..2] != pfx by { assert fp[..2][1] == q; }
  }

  lemma TrailingPrefixParts(p: string)
    requires '/' !in p
    ensures PrefixParts("/" + p + "/") == [p, ""]
  {
    assert "/" + p + "/" == "/" + (p + "/" + "");
    SlashSegments(p + "/" + "");
    SplitHead(p, "");
    assert p + "/" + "" == p + "/";
    assert Split("", '/') == [""];
  }

  /** The segments of "/s" are the pieces of `s`. */
  lemma SlashSegments(s: string)
    ensures Segments("/" + s) == Split(s, '/')
  {
    SplitAt("", '/', s);
    assert "" + ['/'] + s == "/" + s;
  }

  /** A first piece free of '/' splits off. */
  lemma SplitHead(p: string, rest: string)
    requires '/' !in p
    ensures Split(p + "/" + rest, '/') == [p] + Split(rest, '/')
  {
    SplitAt(p, '/', rest);
    assert p + ['/'] + rest == p + "/" + rest;
  }

  /** A path the trie does not know is refused with "Service not found". */
  lemma UnknownRouteRefused(prefix: string, routes: Tree.Node<Route>, reqMethod: string, reqPath: string)
    requires Strip(PrefixParts(prefix), Segments(reqPath)).Some?
    requires Tree.Resolve(routes, Strip(PrefixParts(prefix), Segments(reqPath)).value).None?
    ensures Dispatched(prefix, routes, reqMethod, reqPath) == Err(Refusal(reqMethod, reqPath, 1))
  {
  }

  /**
   * A method the route does not declare is refused as `invalid_request`
   * (status 400), not as `unsupported_method` (405).
   */
  lemma UndeclaredMethodRefused(prefix: string, routes: Tree.Node<Route>, reqMethod: string, reqPath: string, item: JsValue)
    requires var p := Strip(PrefixParts(prefix), Segments(reqPath));
      p.Some? && Tree.Resolve(routes, p.value).Some? &&
      MethodsOf(item) == Ok(Tree.Resolve(routes, p.value).value.methods) && Lower(reqMethod) !in OwnProps(item)
    ensures Dispatched(prefix, routes, reqMethod, reqPath) == Err(Refusal(reqMethod, reqPath, 2))
    ensures Refusal(reqMethod, reqPath, 2).err.code == 400 && CodeOf("unsupported_method") == Some(405)
  {
    MethodsKeepSecurity(item, Lower(reqMethod));
  }

  /** A method the route declares, in any letter case, passes to authorisation. */
  lemma DeclaredMethodPasses(prefix: string, routes: Tree.Node<Route>, reqMethod: string, reqPath: string, item: JsValue)
    requires var p := Strip(PrefixParts(prefix), Segments(reqPath));
      p.Some? && Tree.Resolve(routes, p.value).Some? &&
      MethodsOf(item) == Ok(Tree.Resolve(routes, p.value).value.methods) && Lower(reqMethod) in OwnProps(item)
    ensures Dispatched(prefix, routes, reqMethod, reqPath) == Ok(Tree.Resolve(routes, Strip(PrefixParts(prefix), Segments(reqPath)).value).value)
  {
    MethodsKeepSecurity(item, Lower(reqMethod));
  }
}
