/**
 * `Cache` (src/component/cache.ts): a cache of values per context and key,
 * kept in process ("local") or in the shared memory store ("global").  The
 * local cache is a dictionary of dictionaries written by `setLocal` and
 * deleted from by `clearLocal` and by a read that finds an expired entry.
 * `Date.now()` is a `now` parameter; a missing key or ttl is "" or 0.  The
 * global mode forwards to the memory component, whose only modelled part is
 * the key it is given.
 */
module Cache {
  import opened Js
  import opened Errors

  /** A cached value and its `expires` field: an instant, or any falsy value for "never". */
  datatype Entry = Entry(value: JsValue, expires: JsValue)

  /** What `getLocal` returns. */
  datatype Read =
    /** `null`: no such context, or no such key. */
    | Nothing
    /** The own property names of the context, when no key is given. */
    | Names(names: set<string>)
    /** `undefined`: the entry had expired and was deleted. */
    | Expired
    | Hit(value: JsValue)

  type LocalCache = map<string, map<string, Entry>>

  /**
   * `exp = ttl || conf.expires; if (exp) exp += Date.now()`: JavaScript's
   * `+`, so a configured string is concatenated with the clock and `true`
   * counts as 1; a falsy value is stored as it is.
   */
  function ExpiryOf(conf: JsValue, ttl: int, now: int): JsValue {
    var exp := if ttl != 0 then Int(ttl) else Get(conf, "expires");
    if Truthy(exp) then Plus(exp, Int(now)) else exp
  }

  /** `cached.expires && cached.expires < Date.now()`, with JavaScript's `<`. */
  predicate IsExpired(e: Entry, now: int) {
    Truthy(e.expires) && LessThan(e.expires, Int(now))
  }

  /** `init`: the type must be "global" or "local"; global needs the memory component. */
  function Init(conf: JsValue, hasMemory: bool): (r: Result<()>)
    ensures r.Ok? <==> Get(conf, "type") == Str("local") || (Get(conf, "type") == Str("global") && hasMemory)
    ensures r.Err? ==> IsError(r.ex, "configuration_error")
  {
    var t := Get(conf, "type");
    if t != Str("global") && t != Str("local") then
      Err(Fail("configuration_error", "Unsupported cache type " + ToStr(t), "sys_cache_init1"))
    else if t == Str("global") && !hasMemory then
      Err(Fail("configuration_error", "Cannot use global cashe, memory not configured", "sys_cache_init2"))
    else Ok(())
  }

  /** `get`, `set` and `clear` use the local cache exactly when the type is "local". */
  predicate IsLocal(conf: JsValue) {
    StrictEquals(Get(conf, "type"), Str("local"))
  }

  /** The key of the memory store in global mode: `${context}-${key}`. */
  function GlobalKey(context: string, key: JsValue): string {
    context + "-" + ToStr(key)
  }

  /** A key argument: "" stands for a missing key, which interpolates as "undefined". */
  function KeyArg(key: string): JsValue {
    if key == "" then Undefined else Str(key)
  }

  /** What `get`, `set` and `clear` do: the local operation's answer, or a call on the memory component with this key. */
  datatype Dispatch<T> = Local(answer: T) | Memory(key: string)

  /** The local cache after `clearLocal(context, key)` with a context. */
  function Cleared(cache: LocalCache, context: string, key: string): LocalCache {
    if key == "" then cache - {context}
    else if context in cache then cache[context := cache[context] - {key}]
    else cache
  }

  /** The local cache and the answer of `getLocal(context, key)`. */
  function Looked(cache: LocalCache, context: string, key: string, now: int): (LocalCache, Read) {
    if context !in cache then (cache, Nothing)
    else if key == "" then (cache, Names(cache[context].Keys))
    else if key !in cache[context] then (cache, Nothing)
    else if IsExpired(cache[context][key], now) then (Cleared(cache, context, key), Expired)
    else (cache, Hit(cache[context][key].value))
  }

  class Cache {
    const conf: JsValue
    var local: LocalCache

    /** `setLocal` refuses an empty context, so none is ever stored. */
    ghost predicate Valid()
      reads this
    {
      "" !in local
    }

    constructor(conf: JsValue)
      ensures Valid()
      ensures this.conf == conf && local == map[]
    {
      this.conf := conf;
      local := map[];
    }

    /** `clearLocal(context, key)`: without a key the context goes; with one, only that key. */
    method ClearLocal(context: string, key: string) returns (r: Result<JsValue>)
      requires Valid()
      modifies this
      ensures Valid()
      ensures context == "" ==> r.Err? && HasTrace(r.ex, "5759769096") && local == old(local)
      ensures context != "" && key == "" ==> r == Ok(Bool(true)) && local == old(local) - {context}
      ensures context != "" && key != "" ==> r == Ok(Undefined)
      ensures context != "" ==> local == Cleared(old(local), context, key)
    {
      if context == "" {
        return Err(Fail("invalid_request", "Local cache context must be provided", "5759769096"));
      }
      if key == "" {
        local := local - {context};
        return Ok(Bool(true));
      }
      if context in local {
        local := local[context := local[context] - {key}];
      }
      return Ok(Undefined);
    }

    /** `getLocal(context, key)`; an expired entry is cleared on the way. */
    method GetLocal(context: string, key: string, now: int) returns (r: Read)
      requires Valid()
      modifies this
      ensures Valid()
      ensures (local, r) == Looked(old(local), context, key, now)
    {
      if context !in local {
        return Nothing;
      }
      if key == "" {
        return Names(local[context].Keys);
      }
      if key !in local[context] {
        return Nothing;
      }
      var cached := local[context][key];
      if Truthy(cached.expires) && LessThan(cached.expires, Int(now)) {
        var _ := ClearLocal(context, key);
        return Expired;
      }
      return Hit(cached.value);
    }

    /** `setLocal(context, key, value, ttl)`: context, key and value must all be truthy. */
    method SetLocal(context: string, key: string, value: JsValue, ttl: int, now: int) returns (r: Result<()>)
      requires Valid()
      modifies this
      ensures Valid()
      ensures context == "" ==> r.Err? && HasTrace(r.ex, "9771677769")
      ensures context != "" && key == "" ==> r.Err? && HasTrace(r.ex, "8366796655")
      ensures context != "" && key != "" && !Truthy(value) ==> r.Err? && HasTrace(r.ex, "2499962559")
      ensures r.Err? ==> IsError(r.ex, "invalid_request") && local == old(local)
      ensures r.Ok? <==> context != "" && key != "" && Truthy(value)
      ensures r.Ok? ==> local == Stored(old(local), context, key, Entry(value, ExpiryOf(conf, ttl, now)))
    {
      if context == "" {
        return Err(Fail("invalid_request", "Local cache context must be provided", "9771677769"));
      }
      if key == "" {
        return Err(Fail("invalid_request", "Local cache key must be provided", "8366796655"));
      }
      if !Truthy(value) {
        return Err(Fail("invalid_request", "Local cache value must be provided", "2499962559"));
      }
      if context !in local {
        local := local[context := map[]];
      }
      var exp := if ttl != 0 then Int(ttl) else Js.Get(conf, "expires");
      if Truthy(exp) {
        exp := Plus(exp, Int(now));
      }
      local := local[context := local[context][key := Entry(value, exp)]];
      return Ok(());
    }

    /** `get(context, key)`: `getLocal` in local mode, otherwise the memory store at the global key. */
    method Get(context: string, key: string, now: int) returns (r: Dispatch<Read>)
      requires Valid()
      modifies this
      ensures Valid()
      ensures IsLocal(conf) ==> (local, r) == (Looked(old(local), context, key, now).0, Local(Looked(old(local), context, key, now).1))
      ensures !IsLocal(conf) ==> r == Memory(GlobalKey(context, KeyArg(key))) && local == old(local)
    {
      if IsLocal(conf) {
        var a := GetLocal(context, key, now);
        return Local(a);
      }
      return Memory(GlobalKey(context, KeyArg(key)));
    }

    /** `set(context, key, value, ttl)`: `setLocal` in local mode, otherwise the memory store at the global key; `set` always has a key, so "" interpolates as itself. */
    method Set(context: string, key: string, value: JsValue, ttl: int, now: int) returns (r: Dispatch<Result<()>>)
      requires Valid()
      modifies this
      ensures Valid()
      ensures IsLocal(conf) ==> r.Local? && (r.answer.Ok? <==> context != "" && key != "" && Truthy(value))
      ensures IsLocal(conf) && r.Local? && r.answer.Ok? ==> local == Stored(old(local), context, key, Entry(value, ExpiryOf(conf, ttl, now)))
      ensures IsLocal(conf) && r.Local? && r.answer.Err? ==> local == old(local)
      ensures !IsLocal(conf) ==> r == Memory(GlobalKey(context, Str(key))) && local == old(local)
    {
      if IsLocal(conf) {
        var a := SetLocal(context, key, value, ttl, now);
        return Local(a);
      }
      return Memory(GlobalKey(context, Str(key)));
    }

    /** `clear(context, key)`: `clearLocal` in local mode, otherwise the memory store at the global key. */
    method Clear(context: string, key: string) returns (r: Dispatch<Result<JsValue>>)
      requires Valid()
      modifies this
      ensures Valid()
      ensures IsLocal(conf) ==> r.Local? && (r.answer.Err? <==> context == "")
      ensures IsLocal(conf) && context != "" ==> local == Cleared(old(local), context, key)
      ensures !IsLocal(conf) || context == "" ==> local == old(local)
      ensures !IsLocal(conf) ==> r == Memory(GlobalKey(context, KeyArg(key)))
    {
      if IsLocal(conf) {
        var a := ClearLocal(context, key);
        return Local(a);
      }
      return Memory(GlobalKey(context, KeyArg(key)));
    }
  }

  /** The local cache with an entry written at `context`/`key`. */
  function Stored(cache: LocalCache, context: string, key: string, e: Entry): LocalCache {
    var entries := if context in cache then cache[context] else map[];
    cache[context := entries[key := e]]
  }

  // ---------------------------------------------------------------------
  // Properties

  /** A stored value is read back while the clock has not passed its expiry. */
  lemma SetThenGet(cache: LocalCache, conf: JsValue, context: string, key: string, value: JsValue, ttl: int, now: int, later: int)
    requires context != "" && key != ""
    requires !IsExpired(Entry(value, ExpiryOf(conf, ttl, now)), later)
    ensures Looked(Stored(cache, context, key, Entry(value, ExpiryOf(conf, ttl, now))), context, key, later).1 == Hit(value)
  {
  }

  /** A ttl gives the expiry instant now + ttl: the entry is read back up to that instant and expired after it. */
  lemma TtlExpiry(conf: JsValue, value: JsValue, ttl: int, now: int, later: int)
    requires ttl != 0
    ensures ExpiryOf(conf, ttl, now) == Int(now + ttl)
    ensures IsExpired(Entry(value, ExpiryOf(conf, ttl, now)), later) <==> now + ttl != 0 && now + ttl < later
  {
  }

  /** Without a ttl and with a falsy `conf.expires` the entry never expires. */
  lemma NoTtlNeverExpires(conf: JsValue, now: int, later: int)
    requires !Truthy(Get(conf, "expires"))
    ensures !IsExpired(Entry(Undefined, ExpiryOf(conf, 0, now)), later)
  {
  }

  /**
   * A configured lifetime adds to the clock as JavaScript's `+` does: a
   * number by value, `true` as 1, and a numeric string by concatenation, so
   * "5" gives the string "5" followed by the clock's digits.
   */
  lemma ConfiguredLifetime(n: int, s: string, now: int)
    ensures n != 0 ==> ExpiryOf(Obj(map["expires" := Int(n)]), 0, now) == Int(n + now)
    ensures ExpiryOf(Obj(map["expires" := Bool(true)]), 0, now) == Int(1 + now)
    ensures s != "" ==> ExpiryOf(Obj(map["expires" := Str(s)]), 0, now) == Str(s + IntStr(now))
  {
  }

  /** An expired entry is deleted on read, so the next read finds nothing. */
  lemma ExpiredDeleted(cache: LocalCache, context: string, key: string, now: int, later: int)
    requires context in cache && key != "" && key in cache[context] && IsExpired(cache[context][key], now)
    ensures Looked(cache, context, key, now).1 == Expired
    ensures Looked(Looked(cache, context, key, now).0, context, key, later).1 == Nothing
  {
  }

  /** Clearing a context makes every read of it `null`. */
  lemma ClearedContext(cache: LocalCache, context: string, key: string, now: int)
    ensures Looked(Cleared(cache, context, ""), context, key, now) == (Cleared(cache, context, ""), Nothing)
  {
  }

  /** Clearing one key leaves the other keys of the context and the other contexts. */
  lemma ClearedKeyOnly(cache: LocalCache, context: string, key: string, c: string, k: string)
    requires key != "" && (c != context || k != key)
    requires c in cache && k in cache[c]
    ensures var after := Cleared(cache, context, key);
      c in after && k in after[c] && after[c][k] == cache[c][k]
  {
  }

  /** Reading a context without a key lists its keys. */
  lemma ListsKeys(cache: LocalCache, context: string, now: int)
    requires context in cache
    ensures Looked(cache, context, "", now) == (cache, Names(cache[context].Keys))
  {
  }

  /** The global key is not injective: two different context/key pairs share a memory key. */
  lemma GlobalKeysCollide()
    ensures GlobalKey("a-b", Str("c")) == GlobalKey("a", Str("b-c"))
  {
  }

  /** A missing key in global mode reads `${context}-undefined`. */
  lemma GlobalKeyUndefined(context: string)
    ensures GlobalKey(context, Undefined) == context + "-undefined"
  {
  }
}
