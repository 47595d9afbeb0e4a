# kona engine core in Dafny

This project models the deterministic core of the kona service engine and proves properties of that model, as TypeScript compiles and runs it. The core is built on one JavaScript value type (`Js.JsValue`), with JavaScript truthiness, own-property enumeration, `parseInt`, `Number`, the `<` and `+` operators, `trim`, `toLowerCase` (on ASCII letters), `split` and `indexOf`.

The parts modelled:

- **Job scheduler** (`src/component/scheduler/`):
  - the syntactic job validator (`JobValidator`) and the normalisation of a job's run spec;
  - the activation-time rule `nextRun` (`NextRun`);
  - the job sanitiser and the store-facing `Jobs` operations (`Jobs`);
  - the per-group `JobQueue` with its pending list, per-id locks and throttled LIFO drain (`Queue`);
  - the `JobRunner`, which turns a handler outcome into store and audit writes (`Runner`);
  - the `Scheduler`: job-type registry, lazy group queues, the claim protocol, the heartbeat poll, the "signal" job type and the loading of configured jobs (`Scheduler`).
- **The `_jobs` store** (`Store`): the contract the MongoDB wrapper gives the scheduler. Documents are kept in insertion order and soft-deleted through `_deleted`. It covers `find` and `findOne` over live documents, by-id updates (resolving `{id}` or rejecting `not_found`), criteria updates (counts, never failing), `create` and `remove`.
- **Object utilities**: `strip` (`Strip`), the deep `merge` (`Merge`), `cloneSelective` (`Clone`), and `toBolean` with the shallow `merge` of the utility index (`Util`).
- **Routing**:
  - the routing trie `TreeNode` (`Tree`);
  - route, segment and load-path derivation with handler loading, in `Registry` and `Services`;
  - prefix stripping and the route and method checks of the HTTP `Listener` (`Listener`).
- **In-memory components**: the local cache (`Cache`), the `Heartbeat`, `Events` subscriptions, and the trace buffer and line format of the `Logger` (`Logger`).
- **Validators and permissions**:
  - `authorize` (`Authorize`) and `BasicAuth.authenticate` (`BasicAuth`);
  - the local part of `Auth` (`Auth`): Bearer-header parsing (section 2.1 of RFC 6750), forced issue, and the request parameters of the authorization-code and password grants (sections 4.1 and 4.3 of RFC 6749);
  - the role permission algebra (`Role`) and the user checks (`User`);
  - the `Email` and `Delegate` validators;
  - the error table (`Errors`);
  - the `Configuration` with its environment-variable overrides.

Stateful parts are Dafny classes whose methods state their new state: `Queue.JobQueue`, `Runner.JobRunner`, `Scheduler.Scheduler`, `Store.Store`, `Cache.Cache`, `Heartbeat.Heartbeat`, `Events.Events`, `Logger.Logger`, `Configuration.Configuration`, `Services.Services`, `Registry.Registry` and `Listener.Listener`. Each method is proved against a function of the old state, and the promised properties are lemmas about those functions. Pure parts are functions with lemmas.

The clock, fresh ids, claim tokens, the password hash, the environment, loadable handler files and the outcomes of job handlers are all parameters. Each `await` is one sequential step.

## Where the model follows the code

The model describes what the code does, including where that visibly differs from what its authors intended:

- **Weekday models.** `src/component/scheduler/syntactic-validator.ts:94` tests the truthiness of `WEEK.indexOf(model[0])`. An array model whose first day is "mon" (index 0) therefore never reaches the weekday branch and is refused with `run15`. Any other array model is accepted when it is non-empty, every element is a weekday and `at` is set (`JobValidator.MondayFirst`, `JobValidator.ArrayModelAccepts`).
- **Daily slot.** `src/component/scheduler/util.ts:12` builds `start` with `new DateTime(text)`, where the text spells today's date at the job's `at` time. The date library is not part of this model, and that constructor is not its text parser (`DateTime.fromISO` is), so `start` need not be today's slot: it may be a second clock reading. The model takes `start.toMillis()` as the input `todayAt`, as the code computes it, and does not read it as the slot. Lines 13-17 then push a `start` still in the future to a day later and keep one that is not. If `start` is a second clock reading, a daily job's `activate` is that reading or that reading plus a day, and `sanitize` marks it "ready" in the first case, whenever that reading is not after the clock reading it compares with (`NextRun.DailyRule`, `Jobs.SanitizeStatus`).
- **Null claims.** `sanitizeUpdate` strips null values (`src/component/scheduler/jobs.ts:52-70`). So `claim: null` and `claim_expire: null` never reach the store: a rescheduled job, and a claimed job its queue refused, go back to "ready" but keep their claim (`Runner.RescheduleSanitized`, `Scheduler.ReadySanitized`, `Scheduler.ScheduledStatus`).
- **`find` criteria.** `Jobs.find` writes `skip` and `limit` into the criteria object, so the store then matches them as fields (`Jobs.SkipFilters`).
- **Stuck drain.** When `runner.start` rejects, the drain loop of `JobQueue` aborts with `_running` still set, so the queue never drains again. This happens when the record is gone: the mark and the fail both reject `not_found`. It is modelled as the phase `Stuck` (`Queue.JobQueue.RunFinished`, `Runner.StartWithoutRecord`).
- **Leaf variable check.** On the leaf path, `TreeNode.add` compares `varname` with `name[0]`, the first character, instead of with the variable name (`src/util/tree.ts:100`). So adding a leaf variable under a node whose `varname` is set always throws (`Tree.AddKeepsOneVariable`).
- **Delegate creation.** `Delegate.validate` resolves with no value, and `create` hands that value to the store (`src/component/delegate.ts:46`). The store is therefore always given `undefined` and refuses it (`Delegate.CreateNeverStores`).
- **Nested shallow merge.** The shallow `merge` of `src/util/index.ts` calls a bare `merge` that the file never declares (line 24). Its nested-object case throws a ReferenceError (`Util.ShallowMerge`).
- **Null email message.** `validata` reads `message.from` (`src/component/email/index.ts:60`) before its null guard, so a null message throws a TypeError (`Email.Validata`).
- **Undeclared method.** The listener refuses a method the route does not declare with `invalid_request` (400), not `unsupported_method` (405) (`Listener.UndeclaredMethodRefused`).
- **Unreachable parameter check.** The "No authentication parameters supplied" branch of `Auth` cannot fire, because sanitised parameters always have six own properties (`Auth.NoParametersUnreachable`).
- **Missing `services` entry.** `Configuration.get` returns `{}` for a missing or falsy section (`src/component/configuration.ts:8-10`), so the "Services must be defined" guard of `src/component/services.ts:20-28` is never taken. The `reduce` call on `{}`, or on any other section that is not a list, throws a TypeError instead (`Services.Services.Init`).
- **Missing `handlers` entry.** `Services` reads its handler directories with `Configuration.get('handlers')` (`src/component/services.ts:93-96`), so a missing entry gives `{}`, which passes the `!sources || sources.length === 0` guard. The handler is then looked for at `root + "undefined" + resource`, and when that module is not found the `sources.slice(1)` call throws a TypeError, so the service rejects with it rather than with "sys_srv_lh" (`Services.LoadFrom`, `Services.NoHandlersEntry`). The registry is handed its list by its caller, so it keeps a list of directories.
- **Configuration overrides.**
  - The override object sets `env`, `tenant`, `app`, `tag` and `live` even when they are undefined, so an undefined override erases values taken from environment variables (`Configuration.OverrideErases`).
  - When `conf.file` is undefined, `engine_file_*` variables make the merge throw a TypeError.

## Model

| member | source | states |
|---|---|---|
| `Errors.NewError` | src/error.ts:54-63 | The status code is the table's entry for the name and 500 for an unknown name; an empty description is replaced by the original error's message only when one is given. |
| `Errors.EveryNameHasCode` | src/error.ts:5-46 | Every `KonaError` name has an entry in the `codes` table, and every entry lies in 400..599. |
| `Errors.MisspeltSystemError` | src/error.ts:56 | The name "sytem_error" has no table entry, so it gets 500, the same status as "system_error". |
| `Errors.CodeFamilies` | src/error.ts:19-46 | A name maps to a status below 500 iff it is one of the nine client-error names; it maps to 403 iff it is auth_error or insufficient_scope. |
| `Strip.Strip` | src/util/strip.ts:1-12 | The loop over own properties returns the falsy input unchanged; for a truthy input it returns a fresh object holding exactly the properties whose value is truthy, `false` or `0`, with their values unchanged. |
| `Strip.StripKeeps` | src/util/strip.ts:6-10 | A key survives iff its value is not undefined, null, NaN or ""; the kept keys are a subset of the input's and their values are identical. |
| `Strip.StrippedValuesKept` | src/util/strip.ts:5-11 | A stripped object holds only kept values, on no key the input lacks. |
| `Strip.StripIdempotent` | src/util/strip.ts:1-12 | `strip(strip(x)) == strip(x)` for every value. |
| `Strip.StripNoop` | src/util/strip.ts:6-10 | An object whose values are all kept is returned as an equal copy. |
| `Strip.KeptMapFacts` | src/util/strip.ts:7-8 | An entry survives the filter exactly when its value is kept, and keeps its value. |
| `Util.ToBolean` | src/util/index.ts:3-17 | Booleans pass through; any other falsy value gives null; any other value gives true exactly when its string form, trimmed and lower-cased, is "true". |
| `Util.ToBoleanIdempotent` | src/util/index.ts:3-17 | The result is always a boolean or null, null exactly for non-boolean falsy inputs, and converting it again changes nothing. |
| `Util.ToBoleanUpperCase` | src/util/index.ts:12 | "TRUE" converts to true, because the string is lower-cased (ASCII letters). |
| `Util.ToBoleanLeadingSpace` | src/util/index.ts:12 | " true" converts to true, because the string is trimmed. |
| `Util.ShallowMerge` | src/util/index.ts:19-29 | Over an object dest: a nullish source throws a TypeError; a source property landing on a nested object of dest raises a ReferenceError (the recursive `merge` is not declared in the file); otherwise the result is dest overridden by every source property. |
| `Util.MergeProps` | src/util/index.ts:20-26 | The property loop yields `dest + source` unless some source key meets a nested object of dest, in which case it fails with a ReferenceError. |
| `Util.ShallowAgreesWithDeep` | src/util/index.ts:19-29 | Where dest holds no nested object under a source key, the shallow merge and the recursive merge of merge.ts both give `dest + source`. |
| `Util.ShallowNestedThrows` | src/util/index.ts:24 | A source key that meets a nested object of dest makes the shallow merge raise a ReferenceError. |
| `Merge.Merge` | src/util/merge.ts:12-22 | The recursive merge returns exactly the specified merged value (`Merged`), or reports the TypeError the code throws on a nullish source or a primitive dest that would receive properties. |
| `Merge.MergeObject` | src/util/merge.ts:13-19 | The property loop over an object dest writes each source property, descending into nested dest objects, and ends with the merged properties or the nested failure. |
| `Merge.MergeArray` | src/util/merge.ts:13-19 | Over an array dest the source's indices are written in order, descending into nested elements, and the source's `length` truncates the result to the source's length. |
| `Merge.MergedPropsDone` | src/util/merge.ts:13-19 | Once every source property has been written, the loop's map equals the merged properties and no nested merge failed. |
| `Merge.MergeProperty` | src/util/merge.ts:13-19 | Keys missing from the source keep their values; a falsy or non-object dest value is overwritten by the source's; a nested object dest value is merged into, never replaced; the result's keys are dest's keys plus the source's. |
| `Merge.MergeExtends` | src/util/merge.ts:12-21 | Merging into an object yields an object that keeps every key dest had. |
| `Merge.MergeFlat` | src/util/merge.ts:13-19 | When dest holds no nested object under a source key, the merge is the map override `dest + source`. |
| `Merge.MergeEmpty` | src/util/merge.ts:13-21 | An empty source returns the object dest unchanged. |
| `Merge.MergeNullishSource` | src/util/merge.ts:13 | A null or undefined source throws before anything is written. |
| `Merge.MergeArrays` | src/util/merge.ts:13-19 | Merging an array into an array gives an array of exactly the source's length, holding the source's elements wherever dest had no nested object. |
| `Merge.Elements` | src/util/merge.ts:13 | An array source contributes its elements and a string source one single-character string per index. |
| `Clone.ExcludeList` | src/util/clone.ts:3-6 | A falsy `exclude` becomes the empty list, an array is used as it is, and any other value becomes a one-element list. |
| `Clone.CloneSelective` | src/util/clone.ts:1-24 | The two loops produce the specified clone: a nullish source throws, otherwise the copied source names overlaid by the merge object's properties. |
| `Clone.CopySelected` | src/util/clone.ts:8-14 | The first loop copies exactly the source names that are not in the exclude list and do not start with '$', with their values. |
| `Clone.Overlay` | src/util/clone.ts:16-21 | The second loop leaves the clone overridden by every merge property. |
| `Clone.ClonedKey` | src/util/clone.ts:8-23 | A name is in the clone iff it is a copied source name or a merge name; merge values win, also over excluded and '$' names; other values are the source's. |
| `Clone.ExcludeSingleton` | src/util/clone.ts:3-6 | A single excluded name behaves exactly like a one-element exclude list. |
| `Clone.DollarNamesDropped` | src/util/clone.ts:11 | Without a merge object, no name starting with '$' is ever in the clone. |
| `Tree.Siblings` | src/util/tree.ts:43-49 | The root has no siblings; any other node is among its parent's children under its own name. |
| `Tree.Sibling` | src/util/tree.ts:34-41 | The root has no sibling of any name; a node is its own sibling under its name. |
| `Tree.VariableIffGroup` | src/util/tree.ts:56 | The unanchored search for `{…}` succeeds exactly when some `{` is followed by a run of [0-9a-zA-Z_-] characters and a `}`. |
| `Tree.VariableLength` | src/util/tree.ts:56 | A variable segment has at least two characters, its braces. |
| `Tree.VariableSegments` | src/util/tree.ts:56 | "{id}", "{}" and "v{id}" are variable segments; "id", "{a.b}" and "}{" are not. |
| `Tree.Add` | src/util/tree.ts:55-120 | `add(path, value)` on the trie, as a result: the trie with the path added, or the "already exists" and variable-name errors; its properties are `Tree.AddToFresh`, `Tree.AddAtomic`, `Tree.AddThenResolve`, `Tree.AddMakesExact`, `Tree.AddExistingThrows`, `Tree.AddKeepsOneVariable` and `Tree.AddKeepsExact`. |
| `Tree.AddToFresh` | src/util/tree.ts:62-90 | Adding any non-empty list of names below a freshly created node never throws. |
| `Tree.AddAtomic` | src/util/tree.ts:55-120 | An `add` that throws leaves the trie as it was. |
| `Tree.AddThenResolve` | src/util/tree.ts:55-162 | If `add(path, v)` returns normally, `resolve(path)` is `v`. |
| `Tree.AddMakesExact` | src/util/tree.ts:62-118 | After a normal `add`, every segment of the path is an existing exact child. |
| `Tree.AddCreatesPath` | src/util/tree.ts:83-89 | After a normal `add`, every non-empty prefix of the path names a node. |
| `Tree.AddExistingThrows` | src/util/tree.ts:64-95 | Adding a path that already names a node throws "already exists" for its last segment. |
| `Tree.AddPrefixThrows` | src/util/tree.ts:93-95 | After a normal `add(path)`, adding any non-empty prefix of that path throws "already exists". |
| `Tree.LeafVariableThrows` | src/util/tree.ts:99-108 | A variable leaf under a node that already has a variable name throws, because the name is compared with its own first character. |
| `Tree.IntermediateVariableThrows` | src/util/tree.ts:70-79 | A new intermediate variable segment different from the node's variable name throws and changes nothing. |
| `Tree.AddKeepsOneVariable` | src/util/tree.ts:70-112 | Every variable child of every node stays the node's variable child: `add` keeps at most one variable child per node. |
| `Tree.IntermediateValue` | src/util/tree.ts:83-89 | Nodes that `add` creates on the way down carry the value of the new leaf. |
| `Tree.Resolve` | src/util/tree.ts:129-162 | `resolve(path)`: the exact child first, the variable child otherwise, null when neither; its properties are `Tree.ResolveExact`, `Tree.NoBacktrack`, `Tree.ResolveNothing` and `Tree.AddThenResolve`. |
| `Tree.ResolveExact` | src/util/tree.ts:132-139 | Along a path of exact children, `resolve` returns the value of the node at the path. |
| `Tree.AddKeepsExact` | src/util/tree.ts:55-120 | A normal `add` keeps every existing exact path and what it resolves to, so earlier routes still resolve. |
| `Tree.NoBacktrack` | src/util/tree.ts:132-154 | `resolve` prefers the exact child and does not fall back to the variable child when the exact branch fails deeper down. |
| `Tree.ResolveNothing` | src/util/tree.ts:141-160 | With neither an exact child nor a variable name, `resolve` gives null. |
| `Tree.Remove` | src/util/tree.ts:122-127 | `remove()` of the node at a path; its properties are `Tree.RemoveDetaches` and `Tree.RemoveVariableChild`. |
| `Tree.RemoveDetaches` | src/util/tree.ts:122-127 | `remove` takes the node out of its parent's children and leaves the parent's variable name set. |
| `Tree.RemoveVariableChild` | src/util/tree.ts:141-147 | Once the variable child is removed, a path that needed it resolves to null, while the variable name stays. |
| `Tree.RootHasNoSiblings` | src/util/tree.ts:34-49 | The root has no siblings and no sibling of any name. |
| `Registry.LoadPath` | src/component/registry.ts:94-100 | The `+=` loop builds the specified load path: "/" + part for every part that is not a variable segment, in order. |
| `Registry.LoadPathAppend` | src/component/registry.ts:96-100 | The load path of two runs of parts is the load path of the first followed by that of the second. |
| `Registry.LoadPathSkipsVariable` | src/component/registry.ts:97 | A variable part contributes nothing to the load path, wherever it stands. |
| `Registry.LoadPathJoin` | src/component/registry.ts:96-100 | Without variable parts the load path is the parts joined by '/' after a leading '/'. |
| `Registry.LoadPathOfPlainPath` | src/component/registry.ts:91-100 | A route path that starts with '/' and has no variable segment is its own load path. |
| `Registry.RoutePathBase` | src/component/registry.ts:91-92 | The base path "/" is not prefixed to the path; any other base path is. |
| `Registry.MethodsOfRule` | src/component/registry.ts:102-109 | The method table is built unless the path item or one of its methods is null or undefined (a TypeError); it has exactly one entry per declared method. |
| `Registry.SecurityOnly` | src/component/registry.ts:106-108 | The reduced table has exactly the declared methods as keys. |
| `Registry.MethodsKeepSecurity` | src/component/registry.ts:102-109 | A method is supported exactly when the path declares it, and its entry holds only that method's `security`. |
| `Registry.SecurityKept` | src/component/registry.ts:106-108 | Each entry of the reduced table is truthy and is `{security}` of the declared method. |
| `Registry.LoadHandlerRule` | src/component/registry.ts:129-153 | The handler is the outcome of the first source whose load does not throw MODULE_NOT_FOUND: its default export, or the other error it throws. It is null when there are no sources or every load throws MODULE_NOT_FOUND. |
| `Registry.NoSourcesNoHandler` | src/component/registry.ts:130-132 | With no handler directories there is no handler. |
| `Registry.FirstSourceWins` | src/component/registry.ts:134-148 | A directory that has the module wins over the later ones. |
| `Registry.NotFoundFallsThrough` | src/component/registry.ts:140-147 | A module that exists but throws MODULE_NOT_FOUND when loaded is skipped like an absent one: the next directory is tried, and after the last one the handler is null. |
| `Registry.Registry.constructor` | src/component/registry.ts:66 | A new registry has an empty routing trie. |
| `Registry.Registry.Resolve` | src/component/registry.ts:91-93 | A request path resolves as the routing trie resolves it. |
| `Registry.Registry.InitService` | src/component/registry.ts:86-127 | The loop installs the service's paths in order, exactly as the specified install does, and a throw leaves the routes added before it. |
| `Registry.LoadErrorKeepsEarlier` | src/component/registry.ts:111-125 | A path whose handler load throws rethrows that exception, and the routes added before it stay in the trie. |
| `Registry.MissingHandlerKeepsEarlier` | src/component/registry.ts:111-125 | A path whose handler is missing throws `system_error` ("sys_srv_lh"), and the routes added before it stay in the trie. |
| `Registry.InstalledResolves` | src/component/registry.ts:86-127 | Once every path is installed, each path's segments resolve to that path's route. |
| `Registry.FirstResolves` | src/component/registry.ts:121-125 | The route of the first path survives the install of the remaining paths. |
| `Registry.StepOk` | src/component/registry.ts:111-125 | A path that does not throw adds its route at its segments. |
| `Registry.InstalledUnfold` | src/component/registry.ts:90-126 | A normal install is a normal first step followed by a normal install of the rest. |
| `Registry.InstalledKeeps` | src/component/registry.ts:121-125 | Installing more paths keeps what every existing exact path resolves to. |
| `Registry.InstalledExact` | src/component/registry.ts:121-125 | After a normal install every installed path is made of exact children of the trie. |
| `Registry.InstalledKeepsExact` | src/component/registry.ts:121-125 | Installing more paths keeps every existing exact path exact. |
| `Services.Services.constructor` | src/component/services.ts:9-13 | A new component has an empty routing trie over the engine's configuration. |
| `Services.Services.Resolve` | src/component/services.ts:59-61 | A request path resolves as the routing trie resolves it. |
| `Services.Services.InitService` | src/component/services.ts:67-117 | The loop installs the service's paths in order, with the registry's derivation of parts, load path and methods, each handler loaded from the `handlers` section as `Configuration.get` returns it; a rejection leaves the routes added before it. |
| `Services.Services.Init` | src/component/services.ts:15-57 | The `services` section is read as `Configuration.get` returns it, so it is never falsy. A section that is not a list, including the `{}` given for a missing entry, throws a TypeError and adds nothing. A list is validated against `root + path` and installed entry by entry, with handlers loaded from the `handlers` section as `Configuration.get` returns it, and the first refused or failing entry rejects. |
| `Services.RefusedKeepsEarlier` | src/component/services.ts:34-43 | A description the OpenAPI validator refuses rejects `system_error` ("sys_srv_inval") and adds nothing, while the descriptions before it stay installed. |
| `Services.InitialisedResolves` | src/component/services.ts:30-112 | Once every description is installed, each path of each description resolves to its route. |
| `Services.FirstInitialisedResolves` | src/component/services.ts:30-56 | The routes of the first description survive the install of the later ones. |
| `Services.InitialisedKeeps` | src/component/services.ts:30-56 | Installing later descriptions keeps what every existing exact path resolves to. |
| `Services.LoadFromList` | src/component/services.ts:119-145 | A `handlers` list is walked exactly as the registry walks its handler directories: the first entry whose module does not throw MODULE_NOT_FOUND gives the handler, and null after the last. |
| `Services.LoadFromString` | src/component/services.ts:119-145 | A `handlers` string is walked character by character, each character taken as a directory. |
| `Services.MissingHandlersThrow` | src/component/services.ts:93-145 | Without a `handlers` entry, `{}` passes the guard: the handler is loaded from `root + "undefined" + resource`, and when that throws MODULE_NOT_FOUND the `slice` call throws a TypeError. |
| `Services.NoHandlersEntry` | src/component/services.ts:93-140 | So without a `handlers` entry, a path whose handler is not found rejects with a TypeError rather than "sys_srv_lh", and the routes added before it stay. |
| `Listener.Strip` | src/component/listener.ts:127-135 | The prefix matches iff the request has at least as many segments and begins with exactly the prefix's segments; then the result is the request segments after the prefix. |
| `Listener.Dispatched` | src/component/listener.ts:54-86 | A prefix mismatch is refused first; the request passes iff the stripped path resolves to a route whose method table has the lower-cased method; every refusal is `invalid_request` with status 400. |
| `Listener.Listener.constructor` | src/component/listener.ts:18-30 | The address defaults to "127.0.0.1", the port to "80", and the prefix is the configured service prefix. |
| `Listener.Listener.Path` | src/component/listener.ts:122-136 | The `matched` loop returns exactly the specified stripping, and without a prefix every segment after the leading '/'. |
| `Listener.Listener.Handle` | src/component/listener.ts:54-86 | The middleware's prefix, route and method checks give the dispatch outcome before authorisation. |
| `Listener.NoPrefixKeepsAll` | src/component/listener.ts:124-135 | Without a prefix every segment after the leading '/' is kept. |
| `Listener.ShortRequestRefused` | src/component/listener.ts:127-132 | A request with fewer segments than the prefix is refused. |
| `Listener.PrefixStripped` | src/component/listener.ts:124-135 | A one-segment prefix "/p" is stripped from "/p/rest", leaving the segments of "/rest". |
| `Listener.RelativePrefixIgnored` | src/component/listener.ts:124 | A prefix without a leading '/' loses its only segment to the `splice(1)`, so it strips nothing. |
| `Listener.TrailingSlashPrefix` | src/component/listener.ts:124-132 | A prefix "/p/" demands an empty segment after "p", so it refuses "/p/q". |
| `Listener.UnknownRouteRefused` | src/component/listener.ts:68-77 | A path the trie does not resolve is refused with "Service not found" ("sys_en_rs1"). |
| `Listener.UndeclaredMethodRefused` | src/component/listener.ts:79-86 | A method the path does not declare is refused as `invalid_request` (400), not as `unsupported_method` (405). |
| `Listener.DeclaredMethodPasses` | src/component/listener.ts:55-88 | A method the path declares, in any letter case, passes on to authorisation with the resolved route. |
| `Configuration.EnvVar` | src/component/configuration.ts:78 | A variable reads as its string value, or as undefined when the environment lacks it. |
| `Configuration.OverlayFields` | src/component/configuration.ts:78-141 | Each listed field takes its variable's value when that is set and non-empty, and keeps its value otherwise; no other field changes. |
| `Configuration.SystemTable` | src/component/configuration.ts:78-94 | The system overrides name each field once, and neither `service_prefix` nor `port` is among the plain string overrides. |
| `Configuration.MemoryTable` | src/component/configuration.ts:102-108 | The memory overrides name each field once. |
| `Configuration.DbTable` | src/component/configuration.ts:135-141 | The db overrides name each field once, and none of `host`, `port`, `hosts` or `model`. |
| `Configuration.HostList` | src/component/configuration.ts:116-123 | A hosts variable gives one entry per comma-separated item. |
| `Configuration.Hosts` | src/component/configuration.ts:115-123 | The push loop builds exactly the list of `{host, port}` entries, one per item, in order. |
| `Configuration.MemoryOverrides` | src/component/configuration.ts:100-132 | The step-by-step writes and deletes leave the memory section as specified. |
| `Configuration.DbOverrides` | src/component/configuration.ts:134-159 | The step-by-step writes and deletes leave the db section as specified. |
| `Configuration.FileConf` | src/component/configuration.ts:162-174 | The loop over the environment builds the specified nested `fileconf`. |
| `Configuration.SystemStage` | src/component/configuration.ts:75-94 | A system section that is not an object throws a TypeError; otherwise only `system` changes, to its overridden form. |
| `Configuration.DebugStage` | src/component/configuration.ts:96-98 | With `ENGINE_SYSTEM_DEBUG` set, the log level becomes "debug" and a non-object log section throws a TypeError; without it nothing changes. |
| `Configuration.MemoryStage` | src/component/configuration.ts:100-132 | A truthy memory section that is not an object throws a TypeError; a falsy one is skipped; otherwise only `memory` changes. |
| `Configuration.DbStage` | src/component/configuration.ts:134-159 | A truthy db section that is not an object throws a TypeError; a falsy one is skipped; otherwise only `db` changes. |
| `Configuration.FileStage` | src/component/configuration.ts:176 | `file` becomes the deep merge of the configured `file` and `fileconf`, or the merge's TypeError is thrown; no other section changes. |
| `Configuration.SectionsKeepFile` | src/component/configuration.ts:75-159 | None of the section rewrites touches `file`. |
| `Configuration.RewriteSections` | src/component/configuration.ts:75-159 | The sections are rewritten in the code's order, ending with the specified result or the first TypeError. |
| `Configuration.RewriteStores` | src/component/configuration.ts:100-159 | The memory section, then the db section, are rewritten as specified. |
| `Configuration.Environment` | src/component/configuration.ts:74-179 | `environment(conf)` returns the specified configuration: the rewritten sections with the file variables merged into `file`, or the TypeError thrown on the way. |
| `Configuration.SectionOf` | src/component/configuration.ts:8-10 | `get` is never falsy: a truthy section comes back as stored, a missing or falsy one as `{}`. |
| `Configuration.Configuration.constructor` | src/component/configuration.ts:4-6 | A new configuration is empty. |
| `Configuration.Configuration.Get` | src/component/configuration.ts:8-10 | `get(name)` returns the section, or `{}` when it is missing or falsy. |
| `Configuration.Configuration.Set` | src/component/configuration.ts:12-14 | `set(name, value)` replaces that one section and nothing else. |
| `Configuration.Configuration.Init` | src/component/configuration.ts:16-63 | When `environment` throws the configuration is untouched; otherwise it becomes the environment's result, then the override fields and the root adjustment are applied, and a later throw leaves what was written before it. |
| `Configuration.SetThenGet` | src/component/configuration.ts:8-14 | A section set to a truthy value is read back; a falsy one reads as `{}`. |
| `Configuration.RootIsParent` | src/component/configuration.ts:69-72 | The computed root is the parent directory of `__dirname`. |
| `Configuration.RootCases` | src/component/configuration.ts:44-51 | An absent root becomes the computed root; a relative one is put under it with '/'; an absolute one is unchanged; a truthy non-string root throws a TypeError. |
| `Configuration.OverrideErases` | src/component/configuration.ts:33-37 | The override writes `env`, `tenant`, `app`, `tag` and `live` unconditionally, erasing them when the override has none. |
| `Configuration.OverrideKeepsRoot` | src/component/configuration.ts:27-29 | A falsy `root` in the override keeps the configured root. |
| `Configuration.SystemOverrides` | src/component/configuration.ts:75-94 | Each set `ENGINE_SYSTEM_*` variable overrides its field, the port is parsed with parseInt, the prefix is SERVICE_PREFIX or "", and every other field is kept. |
| `Configuration.SectionOverrides` | src/component/configuration.ts:75-94 | For any table of distinct fields that leaves out the prefix and the port, the overlay followed by the port write gives each field its override and keeps the rest. |
| `Configuration.MemorySentinel` | src/component/configuration.ts:111-123 | A comma in `ENGINE_MEMORY_HOSTS` deletes `host` and `port`, selects the "sentinel" model and lists one entry per item. |
| `Configuration.MemoryDirect` | src/component/configuration.ts:124-130 | Without a comma, `hosts` is deleted and the "direct" model takes the single host and its parsed port. |
| `Configuration.DbSentinelKeepsPort` | src/component/configuration.ts:143-151 | A comma in `ENGINE_DB_HOSTS` deletes `host` but keeps a configured `port` and `model`, and lists one entry per item. |
| `Configuration.NoHostsVariable` | src/component/configuration.ts:100-110 | Without `ENGINE_MEMORY_HOSTS` only the listed memory fields change. |
| `Configuration.HostPair` | src/component/configuration.ts:118-122 | An "h:p" item gives `{host: h, port: parseInt(p)}`; a bare host gives port NaN. |
| `Configuration.HostListOfItems` | src/component/configuration.ts:116-123 | Items joined by commas give one host entry per item, in order. |
| `Configuration.FileSlotSegments` | src/component/configuration.ts:164-172 | A file variable lands under the two ASCII-lower-cased segments after `engine_file_`; further `_` segments are ignored. |
| `Configuration.FileSlotNoKey` | src/component/configuration.ts:165-172 | A file variable without a key segment lands under the key "undefined". |
| `Configuration.FileConfLands` | src/component/configuration.ts:163-174 | A file variable's value lands at its slot unless a later variable takes the same slot. |
| `Configuration.FileConfStores` | src/component/configuration.ts:163-174 | The stores of `fileconf` are exactly the stores named by file variables. |
| `Configuration.FileConfStep` | src/component/configuration.ts:164-173 | One step of the loop adds the variable's store when it is a file variable, and nothing otherwise. |
| `Configuration.SectionsOutcome` | src/component/configuration.ts:75-98 | A non-object configuration or system section throws a TypeError, as does a non-object log section under `ENGINE_SYSTEM_DEBUG`; on success the system section is the overridden one. |
| `Configuration.StoresKeepSystem` | src/component/configuration.ts:100-159 | Rewriting the memory and db sections leaves the system section as it was. |
| `Configuration.EnvVarFirst` | src/component/configuration.ts:78 | A variable reads undefined exactly when the environment has no binding of that name, and otherwise the value of its first binding. |
| `Cache.Init` | src/component/cache.ts:17-35 | `init` succeeds iff the type is "local", or "global" with a memory component; every refusal is `configuration_error`. |
| `Cache.Cache.constructor` | src/component/cache.ts:10-15 | A new cache has an empty local store. |
| `Cache.Cache.ClearLocal` | src/component/cache.ts:42-56 | An empty context throws `invalid_request` and changes nothing; without a key the whole context is deleted; with a key only that key goes. |
| `Cache.Cache.GetLocal` | src/component/cache.ts:58-82 | A missing context or key reads null; no key lists the context's keys; an expired entry is deleted and reads undefined; otherwise the stored value is returned. |
| `Cache.Cache.SetLocal` | src/component/cache.ts:84-106 | It stores iff context, key and value are all truthy, each missing one failing `invalid_request` with its own trace and no write; the entry's expiry is `ttl \|\| conf.expires`, plus the clock with JavaScript's `+` when truthy. |
| `Cache.Cache.Get` | src/component/cache.ts:124-130 | `get` reads the local cache iff the type is "local", and otherwise asks the memory store at `${context}-${key}`. |
| `Cache.Cache.Set` | src/component/cache.ts:131-137 | `set` writes the local cache iff the type is "local", and otherwise the memory store at `${context}-${key}`. |
| `Cache.Cache.Clear` | src/component/cache.ts:138-144 | `clear` clears in the local cache iff the type is "local", and otherwise removes `${context}-${key}` from the memory store. |
| `Cache.SetThenGet` | src/component/cache.ts:78-105 | A stored value is read back whenever its expiry, compared with JavaScript's `<`, is not below the reading instant. |
| `Cache.NoTtlNeverExpires` | src/component/cache.ts:101-104 | Without a ttl and with a falsy `conf.expires` an entry never expires. |
| `Cache.ExpiredDeleted` | src/component/cache.ts:52-80 | An expired entry reads undefined and is deleted, so the next read finds nothing. |
| `Cache.ClearedContext` | src/component/cache.ts:48-61 | After clearing a context, every read of it is null. |
| `Cache.ClearedKeyOnly` | src/component/cache.ts:52-55 | Clearing one key leaves every other key of the context and of the other contexts. |
| `Cache.ListsKeys` | src/component/cache.ts:63-66 | Reading a context without a key lists its keys. |
| `Cache.GlobalKeysCollide` | src/component/cache.ts:110-121 | The global key `${context}-${key}` is not injective: ("a-b", "c") and ("a", "b-c") share a memory key. |
| `Cache.GlobalKeyUndefined` | src/component/cache.ts:110 | A missing key in global mode reads the memory key `${context}-undefined`. |
| `Cache.TtlExpiry` | src/component/cache.ts:101-105 | A ttl makes the expiry now + ttl, and the entry is expired exactly when that instant is nonzero and below the reading instant. |
| `Cache.ConfiguredLifetime` | src/component/cache.ts:101-104 | A configured lifetime adds to the clock as `+` does: a number by value, `true` as 1, a nonempty string by concatenating the clock's digits. |
| `Js.Plus` | src/component/cache.ts:103 | `a + b` on values, concatenation when either side is a string; its property is `Js.PlusString`. |
| `Js.PlusString` | src/component/cache.ts:103 | Adding a number to a string appends the number's decimal form. |
| `Heartbeat.Firing` | src/component/heartbeat.ts:20-30 | A tick makes at most one call per subscription. |
| `Heartbeat.IndexOfId` | src/component/heartbeat.ts:54-58 | The scan finds the first subscription with the id, or -1 when none has it. |
| `Heartbeat.Heartbeat.constructor` | src/component/heartbeat.ts:8-9 | A new heartbeat has count 0 and no subscribers. |
| `Heartbeat.Heartbeat.Tick` | src/component/heartbeat.ts:18-31 | Each tick increments `count` by exactly 1, keeps the subscribers, and makes the firing calls in subscription order. |
| `Heartbeat.Heartbeat.Subscribe` | src/component/heartbeat.ts:43-51 | One subscription is appended with a fresh id, asleep until now + s·1000 when `sleep` is given and awake (0) otherwise. |
| `Heartbeat.Heartbeat.Unsubscribe` | src/component/heartbeat.ts:53-60 | Only the first subscription with the id is spliced out. |
| `Heartbeat.Heartbeat.Sleep` | src/component/heartbeat.ts:62-69 | Only the first subscription with the id gets the wake time now + seconds·1000. |
| `Heartbeat.FiringCalls` | src/component/heartbeat.ts:20-29 | A call is made exactly for each subscription whose interval divides the count and that is not asleep or whose wake time has come. |
| `Heartbeat.FiringAppend` | src/component/heartbeat.ts:20-30 | The calls for a list of subscriptions are those of its first part followed by those of the rest: calls follow subscription order. |
| `Heartbeat.AsleepSilent` | src/component/heartbeat.ts:22-25 | A sleeping subscription stays silent until its wake time, whatever the count. |
| `Heartbeat.UnsubscribeUnknown` | src/component/heartbeat.ts:53-60 | Unsubscribing an unknown id changes nothing. |
| `Heartbeat.UnsubscribeRemovesFirst` | src/component/heartbeat.ts:54-58 | Unsubscribing a known id removes exactly the first such entry; the others stay in order, a later one with the same id included. |
| `Heartbeat.SleepOnlyThat` | src/component/heartbeat.ts:63-68 | `sleep` changes only the wake time of the first subscription with the id. |
| `Heartbeat.SleptSilent` | src/component/heartbeat.ts:22-69 | A subscription put to sleep for a positive number of seconds does not fire before its wake time. |
| `Events.Events.constructor` | src/component/events.ts:7 | A new component has no subscription lists. |
| `Events.Events.Signal` | src/component/events.ts:13-23 | `signal` calls `handle(params)` once on each subscriber of that message, in list order, and calls nothing for a message without subscribers. |
| `Events.Events.Subscribe` | src/component/events.ts:25-33 | A truthy subscriber not yet in the message's list is appended; the lists stay free of duplicates. |
| `Events.SubscribeIdempotent` | src/component/events.ts:27-31 | Subscribing the same subscriber twice is subscribing once. |
| `Events.SubscribeAppends` | src/component/events.ts:27-31 | After subscribing, the subscriber is in the list; the list is unchanged when it was already there and grows by it at the end otherwise. |
| `Events.SubscribeOthersUntouched` | src/component/events.ts:26-31 | The lists of other messages are untouched, and a falsy subscriber changes nothing. |
| `Events.SubscribeKeepsDistinct` | src/component/events.ts:28-30 | Subscribing keeps every list free of duplicates. |
| `Logger.Logger.constructor` | src/component/logger.ts:6 | A new logger has an empty trace. |
| `Logger.Logger.SetTrace` | src/component/logger.ts:12-17 | The setter appends the line and shifts the oldest one out when the trace would exceed `TRACE_MAX_COUNT` = 20, so it never holds more than 20 lines. |
| `Logger.Logger.Trace` | src/component/logger.ts:19-25 | The getter is every stored line followed by "\n", in insertion order. |
| `Logger.PushedKeepsLast` | src/component/logger.ts:12-17 | However many lines are pushed, the trace holds exactly the 20 most recent ones. |
| `Logger.PushEvictsOldest` | src/component/logger.ts:14-16 | A push onto a full trace evicts the oldest line. |
| `Logger.TraceTextAppend` | src/component/logger.ts:19-25 | The text of two runs of lines is the text of the first followed by the text of the second. |
| `Logger.TraceTextLength` | src/component/logger.ts:21-23 | Each line contributes its own length plus one newline. |
| `Logger.NewLog` | src/component/logger.ts:77-90 | The context defaults to "global" and is ASCII-lower-cased; it is stored as `component` of the configuration; a primitive configuration or a non-string context throws a TypeError. |
| `Logger.NewLogDefault` | src/component/logger.ts:78-88 | A falsy context logs as "global". |
| `Logger.Contextify` | src/component/logger.ts:131-140 | Every line ends with "[context] text", after the optional live, env, tenant, app and tag parts. |
| `Logger.ContextifyBare` | src/component/logger.ts:132-138 | With no live flag, env, tenant, app or tag, the line is just "[context] text". |
| `Logger.ContextifyLive` | src/component/logger.ts:132 | A live engine's lines start with "+ ". |
| `Logger.Line` | src/component/logger.ts:92-110 | `debug`, `info` and `warn` throw exactly for a null or undefined message. |
| `Logger.LineOfError` | src/component/logger.ts:93-95 | A message with a truthy `error_description` is rendered as "description (trace)". |
| `Authorize.RequiredList` | src/util/authorize.ts:10 | An array of required permissions is used as it is; a single value becomes a one-element list. |
| `Authorize.Lookup` | src/util/authorize.ts:14 | `indexOf` is element search on an array, and throws on a value without `indexOf`. |
| `Authorize.Authorize` | src/util/authorize.ts:3-25 | The counting check as written gives the specified outcome: `auth_error` for a missing user or permission list, otherwise success iff every required entry is found, else `insufficient_scope`. |
| `Authorize.CountFound` | src/util/authorize.ts:9-19 | `count` reaches the number of required entries exactly when every one is found; the search throws only when there is something to look up in a value without `indexOf`. |
| `Authorize.EmptyRequirement` | src/util/authorize.ts:13-23 | An authenticated user passes an empty requirement list. |
| `Authorize.AuthErrorFirst` | src/util/authorize.ts:5-7 | A missing user, missing permissions or an empty permission list rejects `auth_error` before any scope is looked at. |
| `Authorize.ArrayPermissions` | src/util/authorize.ts:10-23 | For a non-empty permission array the check passes exactly when every required entry is an element of it, and otherwise rejects `insufficient_scope`. |
| `Authorize.FewerRequirements` | src/util/authorize.ts:13-23 | Dropping requirements never turns a pass into a failure. |
| `BasicAuth.MergeScopes` | src/component/auth/basic.ts:50-56 | The flattened list holds exactly the permissions listed under some scope. |
| `BasicAuth.Held` | src/component/auth/basic.ts:22-28 | For an array of user permissions, a permission is held iff it is an element of the array. |
| `BasicAuth.Searched` | src/component/auth/basic.ts:19-25 | Searching the list `authenticate` builds answers as `Held` does, for every permission. |
| `BasicAuth.HeldAgrees` | src/component/auth/basic.ts:27-33 | The counting loop finds every permission exactly when each is held, and throws exactly when the searched value has no `indexOf`. |
| `BasicAuth.Check` | src/component/auth/basic.ts:18-46 | The search passes the user on iff every required permission is held, and otherwise rejects with the missing-permission message. |
| `BasicAuth.BuildPermissionString` | src/component/auth/basic.ts:37-43 | The loop builds the required permissions joined by ','. |
| `BasicAuth.Missing` | src/component/auth/basic.ts:37-46 | The rejection is `insufficient_scope` with the joined permission list and trace `system_auth_basic`. |
| `BasicAuth.Authenticate` | src/component/auth/basic.ts:11-48 | After the token is resolved: a failed resolution is passed on, an empty requirement lets the user through, and otherwise the permission check decides. |
| `BasicAuth.PermissionStringSplits` | src/component/auth/basic.ts:37-45 | The permission list in the message splits back into the required permissions when none contains ','. |
| `BasicAuth.NoPermissionsRequired` | src/component/auth/basic.ts:14-16 | Without required permissions any resolved user is let through. |
| `BasicAuth.ScopedUser` | src/component/auth/basic.ts:21-46 | A user with scoped permissions passes iff each required permission is listed in some scope, and otherwise gets the missing-permission rejection. |
| `BasicAuth.AgreesWithAuthorize` | src/component/auth/basic.ts:14-35 | For a user with a non-empty permission array, basic authentication passes exactly when `authorize` passes. |
| `Auth.Resolve` | src/component/auth/index.ts:18-60 | `resolve(token)` with the token lookup as a parameter; its properties are `Auth.ResolveBearer`, `Auth.ResolveOk` and `Auth.ResolveErrors`. |
| `Auth.ResolveBearer` | src/component/auth/index.ts:41-59 | A well-formed `Bearer <token>` header looks the token up; a `not_found` from the token store becomes `auth_error`, any other outcome passes through. |
| `Auth.ResolveOk` | src/component/auth/index.ts:41-51 | Whatever resolves had a non-empty header whose first part is "bearer" in any letter case, and is what the token store answered for the second part. |
| `Auth.ResolveErrors` | src/component/auth/index.ts:51-59 | Only a `not_found` rejection of the token store is turned into an `auth_error`; other rejections pass through unchanged. |
| `Auth.Issue` | src/component/auth/index.ts:68-74 | `issue` fails on a truthy primitive, and otherwise hands the token store an object carrying `_uuid` and `permissions`, with a lifetime. |
| `Auth.IssueIdentity` | src/component/auth/index.ts:69-72 | `_uuid` is kept, else taken from `id`, else generated; permissions default to []; every other property of the user is unchanged. |
| `Auth.IssueAnonymous` | src/component/auth/index.ts:69-72 | Issuing for no user data gives a generated identifier and no permissions. |
| `Auth.IssueTtl` | src/component/auth/index.ts:74 | A truthy `ttl` is the token's lifetime whatever is configured; a missing or falsy one (undefined, null, 0, "") takes the `auth` section's `bearerTokenTTL`; the user record does not depend on either. |
| `Auth.SanitizeParams` | src/component/auth/index.ts:141-152 | Sanitising throws exactly on nullish parameters and otherwise keeps exactly the six token-request parameters. |
| `Auth.ValidateAccepts` | src/component/auth/index.ts:154-193 | Validation accepts exactly the well-formed password and authorization-code requests, returns them unchanged, and otherwise rejects `validation_error`. |
| `Auth.NoParametersUnreachable` | src/component/auth/index.ts:100-159 | Sanitised parameters always have six own properties, so the "No authentication parameters supplied" rejection cannot happen. |
| `Auth.Authenticate` | src/component/auth/index.ts:77-109 | `authenticate(params)`: sanitise, validate, then the password or code flow; its property is `Auth.AuthenticateDispatch`. |
| `Auth.AuthenticateDispatch` | src/component/auth/index.ts:100-108 | `authenticate` accepts exactly the well-formed requests, picks the flow the grant type names, and never reaches its own "Invalid grant type" branch. |
| `Role.Criteria` | src/component/role.ts:28-41 | `get` looks a UUID up by `_uuid` and anything else by `code`. |
| `Role.CodesAreNotIds` | src/component/role.ts:34-83 | A code without a dash is never taken for an identifier by `get`, `update` or `remove`. |
| `Role.SameTest` | src/component/role.ts:34-83 | `get`, `update` and `remove` agree on which strings are identifiers. |
| `Role.Select` | src/component/role.ts:143-146 | The store's `$in` query returns exactly the stored roles whose id is listed. |
| `Role.GetPermissionSet` | src/component/role.ts:137-156 | The loops compute the permission set: [] for a missing or empty role list, else the duplicate-free union in first-occurrence order. |
| `Role.PushNew` | src/component/role.ts:148-152 | The inner loop pushes exactly the permissions not yet listed, in order. |
| `Role.AddNewProperties` | src/component/role.ts:147-153 | Pushing unseen elements keeps the list so far as a prefix, adds exactly the missing elements, never duplicates and keeps first-occurrence order. |
| `Role.AddNewKeeps` | src/component/role.ts:149-151 | The accumulated list stays a prefix, and its elements are those of both inputs. |
| `Role.AddNewNoDuplicates` | src/component/role.ts:149-151 | The `indexOf === -1` guard never lets a duplicate in. |
| `Role.AddNewOrder` | src/component/role.ts:147-153 | Added elements come in order of their first occurrence. |
| `Role.AddNewAppend` | src/component/role.ts:147-153 | Handling the roles one after another is handling their concatenated permission lists. |
| `Role.AllPermissionsMember` | src/component/role.ts:147-148 | A permission occurs in the concatenated lists iff some found role lists it. |
| `Role.PermissionSetProperties` | src/component/role.ts:137-156 | The permission set is duplicate-free, holds exactly the permissions of the listed stored roles, and lists them in first-occurrence order. |
| `Role.NoRolesNoPermissions` | src/component/role.ts:139-141 | A missing or empty role list gives no permissions, whatever the store holds. |
| `Role.GetScopedPermissionSet` | src/component/role.ts:98-135 | Each scope's list is duplicate-free and holds exactly the permissions of stored roles listed under that scope. |
| `Role.IndexScopes` | src/component/role.ts:99-114 | The role lookup list is duplicate-free and holds every listed role, and the index lists for each role exactly the scopes it appears under. |
| `Role.IndexScope` | src/component/role.ts:102-113 | One scope's roles are indexed under that scope and added to the lookup list once each. |
| `Role.AddRole` | src/component/role.ts:123-131 | One found role adds all its permissions to each of its scopes, keeping every list duplicate-free and sourced, and losing nothing. |
| `Role.AddToScopes` | src/component/role.ts:125-130 | One permission lands on every scope of the role, keeping every list duplicate-free and sourced. |
| `Role.ScopePushed` | src/component/role.ts:126-129 | Writing a scope's list with the permission pushed keeps the lists duplicate-free, sourced and covering. |
| `Role.ValidateRole` | src/component/role.ts:158-172 | `validateRole` accepts exactly a truthy role with a truthy name; otherwise `auth_error` "Role contains no data" or "Missing role name". |
| `Role.SanitiseRoleProperties` | src/component/role.ts:174-184 | A sanitised role holds only the seven role fields with kept values, always a status defaulting to "active", and the given values unchanged. |
| `Role.ProjectionKept` | src/component/role.ts:175-183 | The stripped projection keeps the seven fields and the status default. |
| `User.GetUserRoles` | src/component/user.ts:341-366 | The loop builds the aggregate of the mapping records: `{global, scoped}` when some scope occurs, else the plain list. |
| `User.AddMapping` | src/component/user.ts:346-360 | One record keeps the invariant that the lists so far are the aggregate of the records seen. |
| `User.AddScoped` | src/component/user.ts:349-353 | A counted scoped record's role joins its scope's list once, and no other scope changes. |
| `User.AddGlobal` | src/component/user.ts:354-357 | A counted unscoped record's role joins the global list once. |
| `User.Unfold` | src/component/user.ts:346-360 | One more record changes only the list it belongs to, and only when its status counts. |
| `User.NoScopeNoRoles` | src/component/user.ts:349-353 | A scope that occurs in no counted mapping has no roles. |
| `User.UnscopedMember` | src/component/user.ts:347-357 | A role is in the unscoped sequence iff some counted unscoped record names it. |
| `User.ScopedMember` | src/component/user.ts:347-353 | A role is in a scope's sequence iff some counted record with that scope names it, and a scope occurs iff some counted record has it. |
| `User.GlobalRoles` | src/component/user.ts:347-365 | The global list is duplicate-free and holds exactly the roles of counted unscoped mappings (status absent, "active" or "enabled"). |
| `User.ScopedRolesOf` | src/component/user.ts:347-363 | Each scope's list is duplicate-free and holds exactly the counted roles of that scope. |
| `User.UserRolesShape` | src/component/user.ts:362-365 | The result is `{global, scoped}` exactly when some counted mapping has a scope, else a plain array. |
| `User.AddRoleGuard` | src/component/user.ts:425-428 | `addRoleToUser` refuses exactly the role codes that are "global" after trimming and lower-casing, before any lookup. |
| `User.UpperCaseGlobalRefused` | src/component/user.ts:426 | Upper case does not get around the guard. |
| `User.UpdatePatch` | src/component/user.ts:87-95 | A missing user fails before the patch is looked at. |
| `User.UpdateOnlyStatus` | src/component/user.ts:89-94 | `update` writes exactly `{status}` when the status survives strip, and otherwise rejects `validation_error`. |
| `User.ValidateUpdatePassword` | src/component/user.ts:505-540 | `validateUpdatePassword`: the three missing-argument errors, then a reset code or the old password; its properties are `User.UpdatePasswordOutcomes` and `User.SamePasswordRefused`. |
| `User.UpdatePasswordOutcomes` | src/component/user.ts:505-540 | Only a matching reset code that is not flagged expired and whose `expires` is not below now (JavaScript's `<`) gives true; success needs a new password different from the old; every application rejection is `validation_error`. |
| `User.SamePasswordRefused` | src/component/user.ts:522-528 | Reusing the old password as the new one is refused before the hash is computed. |
| `User.ValidateMeta` | src/component/user.ts:542-574 | `validateMeta` passes iff every configured field passes its mandatory and options checks, and otherwise reports one of the failing fields. |
| `User.MandatoryMissing` | src/component/user.ts:549-555 | A mandatory field that is missing is always reported. |
| `User.ListedOptionPasses` | src/component/user.ts:557-569 | A value listed among a field's options passes that field's check. |
| `User.CopyMeta` | src/component/user.ts:491-499 | The meta loop copies exactly the configured names whose value is truthy. |
| `User.SanitizeUser` | src/component/user.ts:472-503 | `sanitizeUser(user, skipMeta)`: a TypeError for a nullish user, the email check, then the stripped draft; its properties are `User.SanitizeUserProperties` and `User.EmailIdempotent`. |
| `User.SanitizeUserProperties` | src/component/user.ts:472-503 | A sanitised user holds only user fields with kept values, an email trimmed and lower-cased, and meta fields that are configured and truthy. |
| `User.EmailIdempotent` | src/component/user.ts:474 | Normalising an email twice gives the same as normalising it once. |
| `User.ResetExpiry` | src/component/user.ts:532 | The reset expiry compares as a number: a number or an integer's decimal string by value, null as 0, and a missing expiry never runs out. |
| `Email.Validata` | src/component/email/index.ts:59-82 | A null or undefined message throws at the debug line; otherwise the message passes iff from, to and subject are set and text or html is, and every refusal is `validation_error`. |
| `Email.Send` | src/component/email/index.ts:30-47 | A refused message is passed on unsent; a valid one is handed to mailgun when that is the provider and resolves with no value; any other provider rejects `validation_error` "com_email_se1". |
| `Email.TextOrHtmlSuffices` | src/component/email/index.ts:74 | A message with only text, or only html, passes. |
| `Email.FromCheckedFirst` | src/component/email/index.ts:65-67 | A message without `from` fails at that check first, whatever else is missing. |
| `Delegate.Sanitisee` | src/component/delegate.ts:85-95 | `sanitisee` keeps exactly the six delegate fields whose values survive strip, unchanged. |
| `Delegate.Validate` | src/component/delegate.ts:60-83 | `validate` passes iff scope, email, status, code and a non-empty roles list are set, and then resolves with no value; every refusal is `validation_error`. |
| `Delegate.CreateStampsCodeAndStatus` | src/component/delegate.ts:40-46 | `create` overwrites any given code with a fresh one and the status with "pending" before the checks. |
| `Delegate.Create` | src/component/delegate.ts:40-48 | `create(data)` against the `_delegates` records: the store and the result; its properties are `Delegate.CreateNeverStores`, `Delegate.CompleteDelegateRejected` and `Delegate.CreateStampsCodeAndStatus`. |
| `Delegate.CreateNeverStores` | src/component/delegate.ts:40-47 | `create` never stores anything: the validation fails, or the store is handed `undefined` and refuses it. |
| `Delegate.CompleteDelegateRejected` | src/component/delegate.ts:40-47 | Even a complete delegate ends in the store's "parameters not defined" rejection. |
| `Delegate.CompleteSanitisee` | src/component/delegate.ts:41-95 | The stamped complete delegate keeps every field `validate` looks at. |
| `Delegate.SanitiseeKeeps` | src/component/delegate.ts:85-95 | A truthy delegate field passes `sanitisee` unchanged. |
| `Delegate.ValidateComplete` | src/component/delegate.ts:62-81 | A delegate passing every check makes `validate` resolve with no value. |
| `Delegate.EmptyRolesRefused` | src/component/delegate.ts:77-79 | A delegate whose roles are an empty list is refused at the roles check. |
| `JobValidator.Version` | src/component/scheduler/syntactic-validator.ts:8-16 | `version` accepts exactly a truthy value that parses as an integer and returns the parsed integer; otherwise ver1 for a falsy value, ver2 for a non-numeric one. |
| `JobValidator.Code` | src/component/scheduler/syntactic-validator.ts:18-24 | `code` accepts exactly a non-empty string and returns it unchanged. |
| `JobValidator.Group` | src/component/scheduler/syntactic-validator.ts:26-32 | `group` accepts exactly a non-empty string and returns it unchanged. |
| `JobValidator.Status` | src/component/scheduler/syntactic-validator.ts:4-56 | `status` accepts exactly one of the eight status codes, unchanged; status1 for a falsy value, status2 otherwise. |
| `JobValidator.VersionOfInteger` | src/component/scheduler/syntactic-validator.ts:8-16 | A non-zero integer is its own version. |
| `JobValidator.Identities` | src/component/scheduler/syntactic-validator.ts:34-60 | `claim`, `claim_expire`, `state` and `activate` return their input. |
| `JobValidator.NoValidator` | src/component/scheduler/syntactic-validator.ts:7-61 | The other job fields have no validator. |
| `JobValidator.Checked` | src/component/scheduler/syntactic-validator.ts:8-61 | `version`, `code`, `group`, `status` and `run` are checked by their validators. |
| `JobValidator.Run` | src/component/scheduler/syntactic-validator.ts:61-220 | The `run` validator: the guard chain, then the normalised spec; its properties are `JobValidator.RunRejects`, `JobValidator.RunChecked`, `JobValidator.RunOutput`, `JobValidator.RepeatNeedsDaily` and `JobValidator.RunIdempotent`. |
| `JobValidator.RunRejects` | src/component/scheduler/syntactic-validator.ts:62-80 | The rejections before any array check: no spec (run0), no model (run1), an unknown model string (run3), a daily model without `at` (run4). |
| `JobValidator.RunChecked` | src/component/scheduler/syntactic-validator.ts:62-199 | A failed model check is what `run` rejects with. |
| `JobValidator.MondayFirst` | src/component/scheduler/syntactic-validator.ts:94-190 | An array model starting with "mon" skips the weekday branch and fails every later form with run15. |
| `JobValidator.WeekIndexMon` | src/component/scheduler/syntactic-validator.ts:94 | `WEEK.indexOf(x)` is 0, so falsy, exactly for "mon". |
| `JobValidator.ArrayModelAccepts` | src/component/scheduler/syntactic-validator.ts:82-191 | As written, the array checks pass exactly for a non-empty list of weekday tokens not starting with "mon", with `at` set. |
| `JobValidator.ArrayModelRule` | src/component/scheduler/syntactic-validator.ts:82-219 | `run` accepts an array model exactly under the rule above, and rejects one starting with "mon" with run15. |
| `JobValidator.NoRepeatUnlessDaily` | src/component/scheduler/syntactic-validator.ts:207-211 | Only a daily spec carries a `repeat`, so only a daily spec can repeat. |
| `JobValidator.RunOutput` | src/component/scheduler/syntactic-validator.ts:201-219 | An accepted spec holds the model, the kept `at` and `delay` of the input, and `repeat` (default "1") exactly when the model is "daily". |
| `JobValidator.SpecPropsShape` | src/component/scheduler/syntactic-validator.ts:201-209 | The keys and values of a normalised spec. |
| `JobValidator.RepeatNeedsDaily` | src/component/scheduler/syntactic-validator.ts:207-217 | The missing-delay rejection (run17) can only be raised for a daily model. |
| `JobValidator.ChecksTraces` | src/component/scheduler/syntactic-validator.ts:66-199 | None of the model checks uses the missing-delay trace. |
| `JobValidator.ArrayModelAvoids` | src/component/scheduler/syntactic-validator.ts:82-191 | An array model is rejected only with one of its own traces, run5 to run15. |
| `JobValidator.ChecksTruthy` | src/component/scheduler/syntactic-validator.ts:66-199 | The model checks look at `at` only through its truthiness. |
| `JobValidator.NormaliseIdempotent` | src/component/scheduler/syntactic-validator.ts:201-219 | Normalising a normalised spec gives it back. |
| `JobValidator.SpecPropsFixed` | src/component/scheduler/syntactic-validator.ts:201-209 | The spec built from a normalised spec's own fields is that spec. |
| `JobValidator.RunOfFields` | src/component/scheduler/syntactic-validator.ts:201-219 | Once the checks pass, `run` is the normalisation of the spec's fields. |
| `JobValidator.RunIdempotent` | src/component/scheduler/syntactic-validator.ts:61-220 | Validating an accepted run spec again returns it unchanged. |
| `NextRun.NextRun` | src/component/scheduler/util.ts:3-21 | `nextRun(job)` with the clock as parameters; its properties are `NextRun.NowModel`, `NextRun.OtherModels` and `NextRun.DailyRule`. |
| `NextRun.NowModel` | src/component/scheduler/util.ts:7-9 | Model "now" runs at the current instant. |
| `NextRun.OtherModels` | src/component/scheduler/util.ts:7-20 | Every model other than "now" and "daily", weekday lists included, gives 0. |
| `NextRun.DailyRule` | src/component/scheduler/util.ts:11-18 | As written, a daily job is due now exactly when `start.toMillis()` (the input `todayAt`) is not after the clock reading, and a `start` still to come is pushed a day later. |
| `Store.Found` | src/component/db/mongo.ts:126-273 | `find` returns only stored documents that are live and match the criteria, never more than are stored. |
| `Store.FirstWithId` | src/component/db/mongo.ts:371 | The document a by-id update addresses is the first with that `_uuid`, or there is none. |
| `Store.Store.constructor` | src/component/db/mongo.ts:126-153 | The collection starts empty. |
| `Store.Store.Find` | src/component/db/mongo.ts:126-277 | The scan returns the live matching documents in store order. |
| `Store.Store.FindOne` | src/component/db/mongo.ts:104-124 | `findOne` returns the first live match, or rejects `not_found` "sys_mdb_fo1". |
| `Store.Store.UpdateById` | src/component/db/mongo.ts:362-387 | A by-id update sets the values and the update time on the first document with that id and resolves `{id}`; without such a document it rejects `not_found` and changes nothing. |
| `Store.Store.UpdateAll` | src/component/db/mongo.ts:339-360 | A criteria update sets the values on every match, deleted ones included, and resolves the match counts; zero matches is no failure. |
| `Store.Store.Create` | src/component/db/mongo.ts:305-337 | `create` refuses a missing owner or data, and a non-string owner, changing nothing; otherwise it appends the stamped document and resolves its id. |
| `Store.Store.Remove` | src/component/db/mongo.ts:431-452 | `remove` rejects `not_found` unless a live document has the id, else marks every document with that id deleted and resolves `{id}`. |
| `Store.StampedFields` | src/component/db/mongo.ts:319-322 | The inserted document keeps a given `_uuid`, else takes the fresh one, carries owner and time stamps, and keeps every other field. |
| `Store.InsertedUndefined` | src/component/db/mongo.ts:307-311 | Without data the store refuses with "sys_mdb_crv1" and keeps its documents. |
| `Store.InsertedAppends` | src/component/db/mongo.ts:317-334 | A create that succeeds appends the stamped document and nothing else. |
| `Store.UpdateByIdSets` | src/component/db/mongo.ts:370-371 | After a by-id update the document carries the new values. |
| `Store.SetFieldsAt` | src/component/db/mongo.ts:370-371 | A field after `$set` is the new value where one is given, the update time for `_updated`, and the old value elsewhere. |
| `Store.FirstWithIdAfterSet` | src/component/db/mongo.ts:371 | A by-id update that does not write `_uuid` leaves that document the first with the id. |
| `Store.WrittenKeepsIds` | src/component/db/mongo.ts:339-387 | An update that does not write `_uuid` keeps every id a string. |
| `Store.InsertedKeepsIds` | src/component/db/mongo.ts:321 | Creating from an object without `_uuid` stamps the fresh id, so every id stays a string. |
| `Store.FoundById` | src/component/db/mongo.ts:126-153 | A document found by a criteria on its `_uuid` carries that id, so a by-id update of it finds a document. |
| `Store.FoundIds` | src/component/db/mongo.ts:241-273 | With string ids in the store, every found document has a string id. |
| `Store.UpdateNothing` | src/component/db/mongo.ts:339-360 | A criteria update that matches nothing leaves the store as it was. |
| `Store.FoundMember` | src/component/db/mongo.ts:126-273 | A document is found iff it is stored, live and matching. |
| `Store.FoundNone` | src/component/db/mongo.ts:241-273 | `find` returns nothing when no live document matches. |
| `Store.RemovedNotFound` | src/component/db/mongo.ts:431-452 | A removed id is no longer found. |
| `Jobs.ApplyValidators` | src/component/scheduler/jobs.ts:73-125 | The validator loop never adds or drops a field. |
| `Jobs.DefaultVersion` | src/component/scheduler/jobs.ts:98 | `parseInt(data.version) \|\| 1` is never 0. |
| `Jobs.SanitizeProps` | src/component/scheduler/jobs.ts:87-95 | A job without a run definition, type or name is refused with san1, san2 or san3, in that order. |
| `Jobs.Sanitize` | src/component/scheduler/jobs.ts:83-128 | `sanitize` refuses an empty job (san0), then a missing run, type or name, in that order. |
| `Jobs.SanitizeUpdate` | src/component/scheduler/jobs.ts:51-81 | `sanitizeUpdate` of null or undefined throws; otherwise it is the patch built from the own properties. |
| `Jobs.FindCriteria` | src/component/scheduler/jobs.ts:27-37 | `find` writes a truthy `skip` and `limit` into the criteria and keeps every other criterion. |
| `Jobs.Create` | src/component/scheduler/jobs.ts:19-21 | A refused job leaves the store unchanged; an accepted one is appended, stamped with the fresh id, which the result carries. |
| `Jobs.GetJob` | src/component/scheduler/jobs.ts:23-25 | `get` returns the first live record with that id, or rejects `not_found`. |
| `Jobs.Find` | src/component/scheduler/jobs.ts:27-37 | `find` returns the live records matching the extended criteria. |
| `Jobs.FindOne` | src/component/scheduler/jobs.ts:39-41 | `findOne` returns the first live match, or rejects `not_found`. |
| `Jobs.Update` | src/component/scheduler/jobs.ts:43-45 | `update` writes the sanitised patch by id or by criteria; a refused patch changes nothing. |
| `Jobs.Write` | src/component/scheduler/jobs.ts:43-45 | A string id updates one record, a criteria object every matching one. |
| `Jobs.Remove` | src/component/scheduler/jobs.ts:47-49 | `remove` soft-deletes every record with the id when a live one exists, else rejects `not_found`. |
| `Jobs.ApplyValidatorsOk` | src/component/scheduler/jobs.ts:121-125 | A successful validator loop replaces each field that has a validator by its output and leaves the others as they were. |
| `Jobs.ApplyValidatorsSkips` | src/component/scheduler/jobs.ts:121-125 | A field the loop does not visit keeps its value. |
| `Jobs.ApplyValidatorsFails` | src/component/scheduler/jobs.ts:121-125 | A field whose validator rejects makes the whole sanitisation reject, so no invalid value gets through. |
| `Jobs.ApplyValidatorsPass` | src/component/scheduler/jobs.ts:73-77 | The loop accepts when every field with a validator passes it. |
| `Jobs.SanitizeUnfold` | src/component/scheduler/jobs.ts:84-125 | An accepted job passed the guard chain, and is its stripped draft after the validators. |
| `Jobs.KeptDraftAt` | src/component/scheduler/jobs.ts:97-117 | A listed field survives `strip` exactly when its draft value is kept, and keeps that value. |
| `Jobs.SanitizeKeys` | src/component/scheduler/jobs.ts:97-125 | Only listed fields are in an accepted record. |
| `Jobs.SanitizedHasNoId` | src/component/scheduler/jobs.ts:97-125 | A sanitised record carries no `_uuid`, so the store always assigns the fresh one. |
| `Jobs.SanitizeFields` | src/component/scheduler/jobs.ts:97-117 | A created record never carries `claim`, `claim_expire`, `error` or unknown fields of the input. |
| `Jobs.SanitizedHas` | src/component/scheduler/jobs.ts:97-125 | A listed field is in the record exactly when `strip` keeps its draft value. |
| `Jobs.SanitizedField` | src/component/scheduler/jobs.ts:97-125 | The value of a field of an accepted job is its validated draft value. |
| `Jobs.DraftRequiredKept` | src/component/scheduler/jobs.ts:84-111 | Once the guards have passed, the fields `sanitize` always fills in survive `strip`. |
| `Jobs.SanitizeRequired` | src/component/scheduler/jobs.ts:97-125 | Version, group, status, run, type, name and activate are present in an accepted record. |
| `Jobs.SanitizeOptional` | src/component/scheduler/jobs.ts:105-108 | Description, params, meta and state are copied exactly when `strip` keeps the given value. |
| `Jobs.SanitizeVersion` | src/component/scheduler/jobs.ts:98-125 | The version is `parseInt(version) \|\| 1`, which the version check accepts unchanged. |
| `Jobs.DefaultVersionRule` | src/component/scheduler/jobs.ts:98 | The parsed version is used unless it is NaN or 0, when it is 1. |
| `Jobs.SanitizeCode` | src/component/scheduler/jobs.ts:99-125 | The code is the given one or the fresh one, and an accepted code is a non-empty string. |
| `Jobs.SanitizeGroup` | src/component/scheduler/jobs.ts:100-125 | The group is the given one or "default", always a non-empty string. |
| `Jobs.SanitizeRun` | src/component/scheduler/jobs.ts:102-125 | `run` is the given run spec after normalisation. |
| `Jobs.SanitizeCopies` | src/component/scheduler/jobs.ts:103-104 | `type` and `name` are copied unchanged. |
| `Jobs.SanitizeActivate` | src/component/scheduler/jobs.ts:111 | `activate` is `nextRun` of the given run spec. |
| `Jobs.SanitizeStatus` | src/component/scheduler/jobs.ts:101-115 | The status is "ready" whenever the activation instant has been reached, whatever status was given; otherwise the given one or "waiting". |
| `Jobs.WeekdayJobReady` | src/component/scheduler/jobs.ts:111-115 | A weekday-list job activates at 0, so it is ready as soon as it is created. |
| `Jobs.SanitizeBadStatus` | src/component/scheduler/jobs.ts:101-125 | A given status that is not a status code is refused unless the job is already due. |
| `Jobs.KeptPatchAt` | src/component/scheduler/jobs.ts:52-70 | A listed patch field survives `strip` exactly when its draft value is kept, and keeps that value. |
| `Jobs.KeptPatchKeys` | src/component/scheduler/jobs.ts:52-70 | Only listed fields survive into the patch, each with a kept value. |
| `Jobs.ValidatorKeeps` | src/component/scheduler/jobs.ts:73-77 | Every validator maps a value `strip` keeps to a value it keeps. |
| `Jobs.PatchField` | src/component/scheduler/jobs.ts:70-77 | The value of a field of an accepted patch is its validated kept value. |
| `Jobs.PatchHasNoNulls` | src/component/scheduler/jobs.ts:64-70 | A patch never carries null or undefined, so `claim: null` and `claim_expire: null` never reach the store. |
| `Jobs.PatchErrorOnlyWhenFailed` | src/component/scheduler/jobs.ts:67-70 | The patch carries `error` only when its status is "failed", and then it is the given error. |
| `Jobs.PatchCopies` | src/component/scheduler/jobs.ts:52-77 | A patch field without a check and with a kept value passes through unchanged. |
| `Jobs.PatchBadStatus` | src/component/scheduler/jobs.ts:56-77 | A patch with an invalid status is refused, so the update writes nothing. |
| `Jobs.PatchAccepted` | src/component/scheduler/jobs.ts:51-81 | A patch without version, code, group or run, whose status is empty or a valid code, is accepted. |
| `Jobs.PatchIsKept` | src/component/scheduler/jobs.ts:51-81 | A patch of status, error, claim and state fields, as the scheduler writes them, is accepted exactly as `strip` leaves it. |
| `Jobs.ObjPatchIsKept` | src/component/scheduler/jobs.ts:51-81 | The same for the object that holds such a patch. |
| `Jobs.PatchStatus` | src/component/scheduler/jobs.ts:56-77 | A kept status reaches the patch unchanged. |
| `Jobs.PatchError` | src/component/scheduler/jobs.ts:67-70 | With status "failed", the patch carries `error` exactly when the error value is kept. |
| `Jobs.PatchHasNoId` | src/component/scheduler/jobs.ts:52-70 | A patch never writes `_uuid`. |
| `Jobs.UpdateKeepsIds` | src/component/scheduler/jobs.ts:43-45 | An update through this class keeps every stored id a string. |
| `Jobs.CreateKeepsIds` | src/component/scheduler/jobs.ts:19-21 | A create through this class keeps every stored id a string. |
| `Jobs.CreatedCode` | src/component/scheduler/jobs.ts:97-109 | A successful create appends one record, which keeps the given code. |
| `Jobs.CreateEffectOk` | src/component/scheduler/jobs.ts:19-21 | A successful create appends the sanitised job, stamped. |
| `Jobs.SkipFilters` | src/component/scheduler/jobs.ts:29-36 | `skip` goes into the criteria object itself, so every record found with a truthy `skip` carries that value in a `skip` field. |
| `Runner.JobRunner.constructor` | src/component/scheduler/runner.ts:13-17 | A runner starts with an empty audit log over the given store. |
| `Runner.JobRunner.Start` | src/component/scheduler/runner.ts:19-44 | `start` changes the store and the audit log, and settles, as the whole sequence of mark, run and follow-up describes. |
| `Runner.JobRunner.Mark` | src/component/scheduler/runner.ts:21 | The first write marks the record "running" by id. |
| `Runner.JobRunner.FollowUp` | src/component/scheduler/runner.ts:27-39 | The switch fails, reschedules or completes the job by the run result, and fails it without an error for an unknown status. |
| `Runner.JobRunner.Complete` | src/component/scheduler/runner.ts:46-50 | `complete` audits "completed" and writes the completed status by id. |
| `Runner.JobRunner.Fail` | src/component/scheduler/runner.ts:52-55 | `fail` audits "failed" and writes the failed status with the error by id. |
| `Runner.JobRunner.Reschedule` | src/component/scheduler/runner.ts:57-69 | `reschedule` writes the ready patch by criteria and resolves `{status: 'reschedule'}` only for a reschedule result with a state, and otherwise writes nothing. |
| `Runner.RunningSanitized` | src/component/scheduler/runner.ts:21 | `{status: 'running'}` passes `sanitizeUpdate` as it is. |
| `Runner.CompleteSanitized` | src/component/scheduler/runner.ts:49 | `{status: 'completed'}` passes `sanitizeUpdate` as it is. |
| `Runner.StatusSanitized` | src/component/scheduler/runner.ts:21-49 | A patch that only sets a known status passes `sanitizeUpdate` as it is. |
| `Runner.FailSanitized` | src/component/scheduler/runner.ts:54 | `{status: 'failed', error}` passes `sanitizeUpdate`, losing the error when `strip` drops it. |
| `Runner.RescheduleSanitized` | src/component/scheduler/runner.ts:61-64 | The reschedule patch keeps status "ready" and the new state, but `claim: null` and `claim_expire: null` are stripped, so a rescheduled record keeps its claim. |
| `Runner.FailPatchKept` | src/component/scheduler/runner.ts:54 | `strip` keeps the fail patch's status, and its error only when the error is truthy, `false` or `0`. |
| `Runner.ReschedulePatchKept` | src/component/scheduler/runner.ts:61-64 | `strip` drops the two null claim fields of the reschedule patch and keeps the status and the state. |
| `Runner.ThrownFails` | src/component/scheduler/runner.ts:82-84 | A handler that throws fails the job with the thrown value as its error. |
| `Runner.ReturnedResult` | src/component/scheduler/runner.ts:77-81 | An empty result, one without a status or with status "completed" completes the job; any other result is passed on. |
| `Runner.StartMarked` | src/component/scheduler/runner.ts:20-27 | With a record, `start` marks it running, audits "started" and goes on with the run result. |
| `Runner.FailedAt` | src/component/scheduler/runner.ts:52-55 | `fail` on an existing record audits "failed" and sets the failed values on it. |
| `Runner.StartWithoutRecord` | src/component/scheduler/runner.ts:20-43 | Without a record, the mark fails and is caught: only "failed" is audited, nothing is written, and the failed `fail` rejects `not_found`. |
| `Runner.StartFails` | src/component/scheduler/runner.ts:28-55 | A handler that failed or threw leaves the record failed, with the error when `strip` keeps it; every other record is untouched. |
| `Runner.StartCompletes` | src/component/scheduler/runner.ts:34-50 | A completed handler leaves the record completed, and the audit log reads "started" then "completed". |
| `Runner.StartBadStatus` | src/component/scheduler/runner.ts:37-43 | An unknown result status is thrown and caught: the record is failed without an error, so any earlier error stays. |
| `Runner.StartReschedules` | src/component/scheduler/runner.ts:31-69 | A reschedule with a state makes the record ready with that state; its claim and claim expiry stay, and only "started" is audited. |
| `Runner.ReschedulesAt` | src/component/scheduler/runner.ts:61-64 | The criteria update of `reschedule` sets the ready values on the record `start` marked. |
| `Runner.StartReschedulesWithoutState` | src/component/scheduler/runner.ts:57-69 | A reschedule without a state writes nothing more: the record stays "running". |
| `Queue.JobQueue.constructor` | src/component/scheduler/queue.ts:8-16 | A new queue is idle, with nothing pending and no lock. |
| `Queue.JobQueue.IsLocked` | src/component/scheduler/queue.ts:31-43 | The scan reports a job locked exactly when a pending job has the same `_uuid` or its id is locked. |
| `Queue.JobQueue.Queue` | src/component/scheduler/queue.ts:18-29 | A job whose id is pending or locked is refused and nothing changes; otherwise it is appended, and an idle queue starts its drain at once, which pops the job again and runs it. |
| `Queue.JobQueue.Lock` | src/component/scheduler/queue.ts:45-47 | `lock` adds the job's id to the locks and changes nothing else. |
| `Queue.JobQueue.Unlock` | src/component/scheduler/queue.ts:49-51 | `unlock` removes the job's id from the locks and changes nothing else. |
| `Queue.JobQueue.Advance` | src/component/scheduler/queue.ts:53-59 | The drain pops the most recently queued job and starts it, or, with nothing pending, clears `_running`. |
| `Queue.JobQueue.RunFinished` | src/component/scheduler/queue.ts:56-80 | When `runner.start` settles, the store and audit log are as `start` leaves them; a rejection aborts the drain with `_running` still set; otherwise the id is locked when the run ended inside the delay, and the next job starts when it did not. |
| `Queue.JobQueue.Settle` | src/component/scheduler/queue.ts:55-79 | After the run, a positive remaining delay locks the id; otherwise the loop pops the next job or stops idle; a rejection leaves the drain stuck. |
| `Queue.JobQueue.WaitDone` | src/component/scheduler/queue.ts:55-78 | After the throttle wait the id is unlocked and the loop pops the next job or stops idle. |
| `Queue.JobQueue.Drain` | src/component/scheduler/queue.ts:53-59 | The loop leaves the store, audit log, pending list and phase exactly as the drain specification `Drained` runs them from the starting state; when it ends idle nothing is pending, nothing locked and `_running` is cleared. |
| `Queue.Delay` | src/component/scheduler/queue.ts:61-68 | `delay()` of a queue's configuration, None standing for NaN; its properties are `Queue.DelayRule`, `Queue.DelayOfObject` and `Queue.DelayFromString`. |
| `Queue.DelayRule` | src/component/scheduler/queue.ts:61-68 | The delay is 1000 ms without a throttle or without a truthy `second`; otherwise it is 1000 times the number `second` converts to (a number by value, a numeric string or one-element array by its digits), or NaN. |
| `Queue.LockPerId` | src/component/scheduler/queue.ts:31-43 | Locks are per id: with one id locked, a job with another id is refused only when it is pending. |
| `Queue.RunningJobRequeueable` | src/component/scheduler/queue.ts:55-72 | While a job runs its id is neither locked nor pending unless queued again, so the same id can be queued during its run. |
| `Queue.QueuedIsPending` | src/component/scheduler/queue.ts:24-35 | A queued job counts as pending afterwards, so the same id is refused until it is popped. |
| `Queue.JobQueue.Round` | src/component/scheduler/queue.ts:55-79 | One pass of the loop body takes the state to what one `Step` of the specification gives. |
| `Queue.DrainLifo` | src/component/scheduler/queue.ts:53-59 | The drain starts jobs last-queued first: the jobs started are a prefix of the running job followed by the pending ones reversed, and all of them when it ends idle. |
| `Queue.StepKeepsOrder` | src/component/scheduler/queue.ts:55-57 | A step keeps the order still to be started and has started a prefix of it. |
| `Queue.DrainedStep` | src/component/scheduler/queue.ts:55-57 | A step does not change where the drain ends. |
| `Queue.DelayOfObject` | src/component/scheduler/queue.ts:61-68 | An object as `second` makes the delay NaN, so no run ever cools. |
| `Queue.DelayFromString` | src/component/scheduler/queue.ts:61-68 | A nonzero `second` written as a decimal string waits 1000 times its number. |
| `Js.ToNumber` | src/component/scheduler/queue.ts:65-66 | `Number(v)` for integers, None standing for NaN; its properties are `Js.NumberOfIntStr`, `Js.ObjectIsNaN` and `Js.PrimitiveNumber`. |
| `Js.PrimitiveNumber` | src/component/scheduler/queue.ts:65-66 | Converting to a primitive first does not change the number a value converts to. |
| `Js.NumberOfIntStr` | src/component/scheduler/queue.ts:65-66 | `Number` of an integer's decimal string gives the integer back, so `"2" * 1000` is 2000. |
| `Js.ObjectIsNaN` | src/component/scheduler/queue.ts:65-66 | An object converts to NaN: its string form "[object Object]" spells no number. |
| `Scheduler.Registered` | src/component/scheduler/index.ts:50-56 | The registered names are keyed by exactly the registered codes, each with the name of its type. |
| `Scheduler.LoadStepKeepsIds` | src/component/scheduler/index.ts:186-205 | A round of `loadJobs` keeps every stored record's id a string. |
| `Scheduler.Scheduler.constructor` | src/component/scheduler/index.ts:12-24 | A new scheduler has no job type and no queue, over a store whose ids are strings. |
| `Scheduler.Scheduler.RegisterJobType` | src/component/scheduler/index.ts:42-44 | A code's entry is set to the name and handler, replacing any earlier one; the queues are untouched. |
| `Scheduler.Scheduler.DeregisterJobType` | src/component/scheduler/index.ts:46-48 | The code's entry is removed and nothing else changes. |
| `Scheduler.Scheduler.GetRegisteredJobTypes` | src/component/scheduler/index.ts:50-56 | The loop over the codes gives the names of exactly the registered codes. |
| `Scheduler.Scheduler.RegisterSignalEventJobType` | src/component/scheduler/index.ts:159-177 | The built-in "signal" type is registered as "Signal event". |
| `Scheduler.Scheduler.RegisterJobTypes` | src/component/scheduler/index.ts:130-143 | Without a configuration or `job_types` nothing is registered. Otherwise the codes are registered in enumeration order, each with its `name` and the handler loaded from `root + handler` (JavaScript's `+`). The call throws a TypeError exactly when some entry is null or undefined. In that case the codes before the first such entry are registered, and every other registered code keeps its job type. |
| `Scheduler.FirstNullish` | src/component/scheduler/index.ts:131-135 | The position of the first null or undefined entry in enumeration order: no earlier entry is null or undefined, and the entry at that position, when there is one, is null or undefined. |
| `Scheduler.Scheduler.RegisterEntries` | src/component/scheduler/index.ts:131-142 | The loop registers the codes in enumeration order and stops with a TypeError at the first null or undefined entry; the job types are then those of `Registrations` over the codes before it. |
| `Scheduler.RegistrationsRule` | src/component/scheduler/index.ts:131-142 | Registering distinct codes in order adds exactly those codes, each with the job type its entry declares, and keeps the job type of every other code. |
| `Scheduler.Scheduler.QueueJob` | src/component/scheduler/index.ts:90-100 | The group queues end in the states `Enqueued` gives from the states before: the job's group queue, created on first use, is admitted the job as `Queue.Admitted` does, the others keep theirs, and the result is whether it was taken (see `Scheduler.EnqueuedGroup`). |
| `Scheduler.Scheduler.Schedule` | src/component/scheduler/index.ts:104-128 | The store and every group queue end as `ScheduleEffect` of the state before: the compare-and-swap claim, then the re-read and, when the claim was won, the record marked scheduled, queued in its group, and put back to ready when refused. `schedule` never rejects. |
| `Scheduler.Scheduler.Resolve` | src/component/scheduler/index.ts:114-127 | The store and the group queues end as `Resolved` of the state before: the re-read by id and claim finds nothing (swallowed, nothing changes) or the first record, which goes on to be scheduled and queued. |
| `Scheduler.Scheduler.Place` | src/component/scheduler/index.ts:117-124 | The store ends as `Scheduled` (marked scheduled by id, then back to ready when refused) and the group queues as `Enqueued` of the scheduled record, both from the state before. |
| `Scheduler.Scheduler.Enqueue` | src/component/scheduler/index.ts:121-124 | The group queues end as `Enqueued` gives; the store is unchanged when the job was taken and updated back to ready by criteria when it was refused. |
| `Scheduler.Scheduler.Claim` | src/component/scheduler/index.ts:107-110 | The compare-and-swap claims every record with the id that is still ready, soft-deleted ones included, as the store's criteria update matches them. |
| `Scheduler.Scheduler.MarkScheduled` | src/component/scheduler/index.ts:118 | The found record is updated to "scheduled" by its id. |
| `Scheduler.Scheduler.Requeue` | src/component/scheduler/index.ts:123 | A refused job is written back to ready by criteria, without clearing its claim. |
| `Scheduler.Scheduler.Tick` | src/component/scheduler/index.ts:145-156 | The poll finds the ready records and schedules each in turn, in the order found: the store and the group queues end as `Polled` of the state before over all found records, and their ids are listed. |
| `Scheduler.Scheduler.LoadJobs` | src/component/scheduler/index.ts:179-206 | Without configured jobs nothing happens; otherwise every configured code is created or upgraded in order, stopping at the first error. |
| `Scheduler.Scheduler.LoadJob` | src/component/scheduler/index.ts:186-204 | One configured job is created when no job has its code, updated when the stored version is lower, and left alone otherwise. |
| `Scheduler.Scheduler.CreateConfigured` | src/component/scheduler/index.ts:198-200 | A configured job not yet stored is created as `Jobs.create` does, resolving to `undefined`. |
| `Scheduler.Scheduler.UpgradeConfigured` | src/component/scheduler/index.ts:192-194 | A stored job with a lower version is updated by its id with the configured job. |
| `Scheduler.ClaimSanitized` | src/component/scheduler/index.ts:109 | The claim patch passes `sanitizeUpdate` with status "claimed", the claim and its expiry. |
| `Scheduler.ClaimPatchKept` | src/component/scheduler/index.ts:109 | `strip` keeps every field of the claim patch. |
| `Scheduler.ScheduledSanitized` | src/component/scheduler/index.ts:118 | `{status: 'scheduled'}` passes `sanitizeUpdate` as it is. |
| `Scheduler.ScheduledPatchKept` | src/component/scheduler/index.ts:118 | `strip` keeps `{status: 'scheduled'}` as it is. |
| `Scheduler.ReadySanitized` | src/component/scheduler/index.ts:123 | The requeue patch reaches the store as `{status: 'ready'}` only: the null claim fields are stripped. |
| `Scheduler.ReadyPatchKept` | src/component/scheduler/index.ts:123 | `strip` drops `claim: null` and `claim_expire: null` from the requeue patch. |
| `Scheduler.LockedById` | src/component/scheduler/index.ts:99 | Whether a group queue takes a job depends on the job's id only. |
| `Scheduler.Exec` | src/component/scheduler/index.ts:58-64 | `exec(code, job)`: the registered handler's outcome, or a `system_error` rejection for an unregistered code; its properties are `Scheduler.ExecRegistered` and `Scheduler.ExecDeregistered`. |
| `Scheduler.ExecRegistered` | src/component/scheduler/index.ts:58-64 | `exec` of a registered code runs the handler of the last registration. |
| `Scheduler.ExecDeregistered` | src/component/scheduler/index.ts:46-61 | After a code is deregistered `exec` rejects it with `system_error`. |
| `Scheduler.RegisteredAfterDeregister` | src/component/scheduler/index.ts:46-56 | Deregistering a code removes exactly that code from the registered names. |
| `Scheduler.SignalOutcome` | src/component/scheduler/index.ts:163-175 | A signal job without a job or without `params.event` is rejected and signals nothing, so its run fails; otherwise it signals the event with the params and its run completes. |
| `Scheduler.SignalErrors` | src/component/scheduler/index.ts:164-172 | The two rejections are `invalid_request` with traces `sche_job_se1` and `sche_job_se2`. |
| `Scheduler.FrequencyDefault` | src/component/scheduler/index.ts:146 | The poll period is the configured frequency when truthy and 60 otherwise. |
| `Scheduler.ClaimLost` | src/component/scheduler/index.ts:107-127 | When no record with the id is still ready the swap writes nothing, and unless some record already carried the claim the re-read finds nothing. |
| `Scheduler.ClaimWon` | src/component/scheduler/index.ts:107-116 | A live ready record with the id is claimed, so the re-read finds a record with that id and claim. |
| `Scheduler.ScheduledStatus` | src/component/scheduler/index.ts:117-124 | After a won claim the record is "scheduled" when queued and "ready" when refused, and it keeps its claim either way. |
| `Scheduler.FoundReady` | src/component/scheduler/index.ts:150-153 | Every record `find({status: 'ready'})` returns is ready, so the status test in the poll never skips one. |
| `Scheduler.LoadKeepsCurrent` | src/component/scheduler/index.ts:191-196 | A stored job of that code whose version is not below the configured one means nothing is written. |
| `Scheduler.LoadUpgrades` | src/component/scheduler/index.ts:191-194 | A stored job with a lower version is updated by its id with the configured job, its code set to the key. |
| `Scheduler.LoadCreates` | src/component/scheduler/index.ts:197-200 | Without a stored job of that code, a successful round appends one record whose code is the key and keeps the others. |
| `Scheduler.LoadNonObject` | src/component/scheduler/index.ts:187-188 | A configured entry that is a primitive (or null or undefined) ends the load with a TypeError when its code is assigned. |
| `Scheduler.LoadStopsAtError` | src/component/scheduler/index.ts:186-205 | A failing round's error is the load's result and the later rounds do not run. |
| `Scheduler.LoadOk` | src/component/scheduler/index.ts:186-206 | A load that succeeds ran every round without error and resolves to `undefined`. |
| `Scheduler.Scheduler.ScheduleAll` | src/component/scheduler/index.ts:150-155 | The loop leaves the store and group queues as `Polled` over all the given jobs, each scheduled after the previous one; the ids listed are those of the jobs, in order. |
| `Scheduler.Scheduler.GroupQueue` | src/component/scheduler/index.ts:92-97 | The group's queue is the one already kept, or a new one in the state `Queue.Fresh` gives for the group's configuration (`QueueOf`); no other queue changes. |
| `Scheduler.Scheduler.AddQueue` | src/component/scheduler/index.ts:91-97 | A new idle queue with the group's configuration and a runner on the store is kept under the group's key; the other queues are kept. |
| `Scheduler.Scheduler.Take` | src/component/scheduler/index.ts:99 | The group's queue is admitted the job as `Queue.Admitted` gives; the other queues keep their states. |
| `Scheduler.Scheduler.Refused` | src/component/scheduler/index.ts:121-124 | A taken job leaves the store as it is; a refused one is updated back to ready by criteria. |
| `Scheduler.EnqueuedGroup` | src/component/scheduler/index.ts:90-100 | `queue(job)` changes the job's group queue only; the job is taken exactly when its id is neither pending nor locked there; a taken job starts at once on an idle queue and is appended to a busy one; a refused job changes nothing. |
| `Scheduler.ResolvedLost` | src/component/scheduler/index.ts:114-116 | A re-read that finds nothing changes neither the store nor the queues. |
| `Scheduler.ResolvedWon` | src/component/scheduler/index.ts:114-124 | A re-read that finds a record schedules and queues the first record found. |
| `Scheduler.PendingById` | src/component/scheduler/queue.ts:31-35 | Whether a job is pending depends on its id only. |
| `Scheduler.IdsSnoc` | src/component/scheduler/index.ts:150-155 | Listing one more job appends its id. |
| `Scheduler.LoadArray` | src/component/scheduler/index.ts:186-204 | A configured entry that is an array writes nothing: with no stored job of that code the create fails for want of `run`; with one, its undefined `version` is never above the stored one. |
| `Scheduler.VersionKept` | src/component/scheduler/index.ts:187-192 | Assigning the code leaves the configured `version` as it is. |
| `Js.LessThanIrreflexive` | src/component/scheduler/index.ts:192 | `<` is irreflexive on every value, so equal versions never trigger an upgrade. |
| `Js.LessThan` | src/component/scheduler/index.ts:192 | `a < b` on values; its properties are `Js.LessThanNumbers`, `Js.LessThanNumericString`, `Js.NumericStringLessThan`, `Js.LessThanIrreflexive` and `Js.NothingBelowUndefined`. |
| `Js.LessThanNumbers` | src/component/scheduler/index.ts:192 | Unless both sides are strings after `ToPrimitive`, `<` compares the numbers the values convert to, and NaN compares false. |
| `Js.LessThanNumericString` | src/component/scheduler/index.ts:192 | A number compared with another integer's decimal string compares as the two integers. |
| `Js.NumericStringLessThan` | src/component/scheduler/index.ts:192 | An integer's decimal string compared with a number compares as the two integers. |
| `Js.NothingBelowUndefined` | src/component/scheduler/index.ts:192 | No value is below `undefined`, which converts to NaN. |
| `Scheduler.ArrayCreateFails` | src/component/scheduler/index.ts:197-200 | Creating a job from an array fails with "Job must have run definition" and writes nothing. |
| `Js.ArrayNamedUndefined` | src/component/scheduler/index.ts:192 | An array has no own property besides its indices and `length`: any name not starting with a digit reads undefined. |

## Left out

- The MongoDB driver is reduced to the abstract `_jobs` store contract: URL building, query translation, projection, sort and database errors are out of scope. Other collections (roles, users, tokens, audit) are parameters or logs.
- Object property order: objects are finite maps. Where the code enumerates properties (`loadJobs`, `registerJobTypes`, `environment`), the order is a parameter that must list each key exactly once.
- Strict equality of objects and arrays is structural in the model; JavaScript compares references.
- Merge.Merge: `merge` is modelled on values, returning the merged `dest` instead of mutating it in place, so aliasing between `dest` and `source` is not captured. It requires `Merge.Modelled`, which excludes named properties written onto an array and properties written onto a primitive; the outcome of those depends on the engine's array and strict-mode semantics.
- Util.ShallowMerge: on values, like `Merge.Merge`, and it requires `Util.ShallowModelled` for the same reason.
- Configuration.Configuration.Init: requires that the final merge of the `engine_file_*` values into `conf.file` be representable (`Merge.Modelled`). `Configuration.Environment` requires the same.
- Tree: the routing trie is a value, not the linked `TreeNode` objects. Parent pointers, aliasing of nodes and the side effect of `add` and `resolve` consuming their path argument through `splice` are not modelled.
- Runner.JobRunner.Start: requires the job's `_uuid` to be a string, as every stored record's id is (`Store.StringIds`, which every store write keeps). A non-string id would turn the by-id update into a criteria update. `Runner.JobRunner.Mark`, `Runner.JobRunner.FollowUp`, `Runner.JobRunner.Complete`, `Runner.JobRunner.Fail` and `Runner.JobRunner.Reschedule` require the same.
- Queue.JobQueue.Queue: requires the job's `_uuid` to be a string, as every record the scheduler queues has. `Scheduler.Scheduler.QueueJob` and `Scheduler.Scheduler.Schedule` require the same.
- Auth.Issue: requires the user data not to be an array. The in-place update of the caller's `userData` object is not modelled, because the model works on values. The token store's `create` is not modelled: the result is what `issue` hands to it, the user record and the lifetime, with the `auth` section of the configuration as the parameter `config`.
- Delegate.CreateStampsCodeAndStatus: `create` writing the fresh code and status into the caller's object is modelled on a copy.
- Concurrency: timers and asynchronous code are sequential steps. Overlapping heartbeat ticks, claim races between processes and other interleavings are not modelled, and each store call is atomic. The audit writes and the `fail`, `reschedule` and `complete` calls that `start` does not await are modelled as taking effect before `start` settles, with their outcome ignored as the code ignores it.
- Heartbeat: the re-entrancy of a subscriber callback that subscribes or unsubscribes during a tick is not modelled; a tick returns the calls it makes.
- The clock, uuid and shortid generation, `process.env`, `__dirname`, `require` of handlers and modules, and the swagger-parser validation of service descriptions are parameters.
- Network and I/O are out of scope:
  - Express startup, response writing and `ApplicationError.send`;
  - the authorisation middleware after the route checks;
  - Redis memory, sessions and tokens;
  - file protocols, connectors and mailgun delivery;
  - template rendering;
  - writing log lines to the `debug` streams.
- Cryptography: the password hash is an uninterpreted function parameter, and HMACs and ciphers are out of scope.
- Cache: the global mode is modelled only in the key it hands to the memory component. The memory component itself is out of scope. `getGlobal` returns the promise of the memory `get` without awaiting it, so a `get` that fails by rejecting (`system_error` "sys_mem_get1") makes `getGlobal` reject as well; only a synchronous throw, such as a missing `_memory`, reaches its `catch` and gives null. Neither path is modelled.
- Logger: `Log.error` and `Log.emergency` formatting of native errors and stacks is out of scope. The `debug`, `info` and `warn` rendering is modelled.
- Role and User: store operations that only forward to the store are out of scope. These are `find`, `create`, `update`, `remove`, `listPermissions`, `init`, `getUserPermissions` and the role-mapping CRUD. Only the operations listed in the table are modelled.
- Scheduler: `create`, `find`, `get` and `update` only forward to `Jobs`, which is modelled. `init` and `release` only sequence the modelled steps and log. Subscribing the poll to the heartbeat is modelled as `Scheduler.Scheduler.Tick` plus its period `Scheduler.Frequency`.
- Numbers are integers and NaN is a single value; floating point is not modelled. `Js.ToNumber` follows `Number(s)` for integers: trimmed decimal with an optional sign, the `0x`, `0o` and `0b` prefixes, and an empty string as 0. A string spelling a fraction, an exponent or `Infinity` converts to NaN in the model, where JavaScript gives a number. This affects `Queue.Delay`, `Cache.ExpiryOf`, `User.ValidateUpdatePassword` and the version test of `Scheduler.LoadStep` only on such strings.
- Tree.Resolve: children are a map holding only the names added. In the code, `children` is a plain object, so a segment such as `constructor`, `toString`, `valueOf`, `hasOwnProperty` or `__proto__` reads an inherited value, and `resolve` calls `value()` on it and throws a TypeError. The model resolves such a segment like any other unused name.
- Tree.Add: for the same reason, `add` of an inherited name such as `toString` throws "already exists" in the code; the model adds it.
- Tree.AddToFresh: does not cover inherited names such as `toString`, which the code refuses with "already exists".
- Cache.Cache.GetLocal: the local cache is a map holding only the contexts and keys written. In the code `_localCache` is a plain object (src/component/cache.ts:10), so a context or key named after an inherited property reads that property: `getLocal(c, "toString")` on an existing context returns undefined, and `getLocal("constructor")` lists the own names of `Object`. The model reads null for both.
- Cache.ClearedContext: for the same reason it does not hold for a context named after an inherited property such as `constructor`, which still reads after `clearLocal` in the code.
- Cache.Cache.Get: shares the inherited-name gap of `Cache.Cache.GetLocal`. A key argument "" stands for a missing key (`Cache.KeyArg`), so in global mode an explicit key "" asks for `${context}-undefined`, where the code asks for `${context}-`.
- Cache.Cache.Clear: an explicit key "" is a missing key here too, so in global mode it removes `${context}-undefined`, where the code removes `${context}-`. In local mode both clear the whole context, as the code does.
- Cache.Cache.Set: shares the inherited-name gap of `Cache.Cache.GetLocal` in local mode.
- Events.Events.Signal: subscribers are a map from message to list. In the code `eventSubscribers` is an array (src/component/events.ts:7), so a message named after an array member such as `push` reads a function and the `for ... of` throws a TypeError. The model signals nobody for such a message.
- Events.Events.Subscribe: for the same reason `subscribe("length", s)` throws a RangeError and `subscribe("push", s)` a TypeError in the code, where the model appends the subscriber.
- Events.SubscribeAppends: does not cover the messages `length` and `push` and the other array members, for which the code throws.
- Scheduler.Exec: the job types are a map holding only the codes registered. In the code `_jobTypes` is a plain object (src/component/scheduler/index.ts:12), so a code such as `toString` passes the registration test and `exec` throws a TypeError on the missing handler, where the model rejects with `system_error`.
- Scheduler.ExecDeregistered: shares that gap for codes named after an inherited property.
- Scheduler.Scheduler.GroupQueue: the queues are a map holding only the groups created. In the code `_queue` is a plain object (src/component/scheduler/index.ts:13), so for a group named `constructor` no queue is created and `queue(job)` throws a TypeError, which `schedule` swallows, leaving the record "scheduled". The model creates a queue for such a group. `Scheduler.Scheduler.QueueJob`, `Scheduler.Scheduler.Schedule` and `Scheduler.Scheduler.Tick` share this gap.
- Js.StrLess: compares characters as code points; JavaScript's `<` compares UTF-16 code units. The two orders differ only between a character above U+FFFF and one in U+E000..U+FFFF, which reaches the version test of `Scheduler.LoadStep` only for such strings.
- Tree.ResolveNothing: does not cover inherited names such as `constructor`, for which the code throws a TypeError instead of giving null.
- Listener.Dispatched: a path segment that is an inherited name is resolved as an unused name, where the code throws a TypeError in `resolve`.
- Listener.Listener.Handle: has the gap of `Listener.Dispatched` for inherited names.
- Listener.UnknownRouteRefused: does not cover inherited names, for which the code throws a TypeError instead of refusing with `sys_en_rs1`.
- Registry.Registry.Resolve: resolves through `Tree.Resolve` and shares its gap for inherited names.
- Services.Services.Resolve: resolves through `Tree.Resolve` and shares its gap for inherited names.
- Configuration.Configuration.Get: the sections are a map holding only the names set. In the code `conf` is a plain object, so `get("toString")` returns the inherited function, which is truthy, instead of `{}`. No caller asks for such a name.
- Listener.Listener.constructor: takes the service prefix as a string. The code reads `service_prefix` from the `system` section, which the configuration always writes as SERVICE_PREFIX or "" (`Configuration.SystemOverrides`); a non-string prefix, on which `split` would throw, is not modelled.
- Role.GetPermissionSet: a stored role's `permissions` is a list of strings (`Role.RoleRecord`). The code's `for ... of` throws a TypeError on a role without `permissions` and iterates a string character by character; such roles are not modelled.
- NextRun.DailyRule: does not tie `todayAt` to the job's `at` time or to the clock, because what `new DateTime(text)` yields depends on the date library, which is not part of this model.
- Role.GetScopedPermissionSet: the same restriction on stored roles as `Role.GetPermissionSet`. The order within each scope's list is not stated: the code builds it from the roles in the order the store returns them, and the model states membership and the absence of duplicates only.
- Role.PermissionSetProperties: states its properties for roles whose `permissions` is a list, the only roles the model holds.
- Js.Lower: lower-cases the ASCII letters only, where `toLowerCase` also maps other Unicode letters.
- User.Email: lower-cases ASCII letters only (`Js.Lower`); "ÉVA@X.FR" keeps its "É".
- User.SanitizeUser: its email is lower-cased on ASCII letters only.
- User.SanitizeUserProperties: "lower case" means ASCII lower case.
- Logger.NewLog: the context is lower-cased on ASCII letters only. The code writes `component` into the configuration object it was given, which the engine shares with every other logger; the model returns a new configuration value, so a later `log` call's overwrite of the shared object is not represented.
- Configuration.FileSlot: store and key names are lower-cased on ASCII letters only.
- Configuration.FileSlotSegments: the segments are lower-cased on ASCII letters only.
- Configuration.EnvVar: its own contract states only that the result is a string or undefined; which binding it reads is stated by `Configuration.EnvVarFirst`.
- Configuration.SystemStage: an array section is treated like a primitive and throws a TypeError. In the code, writing a named property onto an array succeeds, but the value model's arrays hold no named properties.
- Configuration.DebugStage: an array `log` section throws a TypeError in the model, as for `Configuration.SystemStage`.
- Configuration.MemoryStage: an array `memory` section throws a TypeError in the model, as for `Configuration.SystemStage`.
- Configuration.DbStage: an array `db` section throws a TypeError in the model, as for `Configuration.SystemStage`.
- Configuration.SectionsOutcome: counts array sections as non-objects, as the stages do.
- Errors.NewError: the status table is a map holding only the error names. In the code `codes` is a plain object (src/error.ts:56), so a name such as `constructor`, `toString` or `__proto__` reads an inherited value, which is truthy, and `code` becomes that function or object instead of 500. The model gives 500 for every name outside the table.
- User.GetUserRoles: the scoped lists are a map holding only the scopes seen. In the code `scopes` is a plain object (src/component/user.ts:350-351), so a mapping whose scope is `constructor`, `toString` or `__proto__` reads an inherited truthy value, and the `indexOf` call on it throws a TypeError. The model builds a list for such a scope.
- User.ScopedRolesOf: shares that gap; it does not cover scopes named after an inherited property, for which the code throws.
- Role.GetScopedPermissionSet: `index` and `permissions` are maps in the model and plain objects in the code (src/component/role.ts:104-105, 126-127). A role id or a scope named after an inherited property, such as `constructor`, reads an inherited truthy value, and the `indexOf` call on it throws a TypeError. The model indexes such a name like any other. `Role.IndexScopes`, `Role.IndexScope` and `Role.AddRole` share this gap.
- Configuration.FileConf: `fileconf` is a map in the model and a plain object in the code (src/component/configuration.ts:169-172). For a variable `ENGINE_FILE_CONSTRUCTOR_<key>`, `fileconf["constructor"]` is the inherited `Object` function, which is truthy, so the value is written onto `Object` and never reaches `conf.file`. The model stores it under "constructor". No other inherited name can occur, because the names are lower-cased and split on '_'. `Configuration.FileConfLands`, `Configuration.FileConfStores`, `Configuration.FileStage` and `Configuration.Configuration.Init` share this gap.
