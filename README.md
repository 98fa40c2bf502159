# transwarp adapters in Dafny

transwarp puts one `router.Router` interface over five Go HTTP routers:
gin, echo, fiber, net/http's `ServeMux` ("mux") and chi. Each adapter
does three things:

- It records the routes registered on it and on its groups.
- It rewrites transwarp's route syntax into its engine's syntax. transwarp
  writes a parameter as `:name`, allows an extension as in `:id.json`,
  and writes a catch-all as `*name`.
- Per request, it builds a `TranswarpState`. That state holds the
  parameter map and the body cached for repeated reads. The state is
  threaded through a net/http middleware onion to the handler.

This project models those cores and proves what they promise.

## Modules

- `Text` (text.dfy): the Go `strings` operations the adapters use.
  - `Split` with `JoinSplit` is a round-trip pair.
  - It also has `Index`, `ReplaceAll`, `Trim`, `TrimPrefix` and `TrimSuffix`.
- `TranswarpState` (state.dfy):
  - the request state, and a body that is nil or a byte sequence;
  - the map copy every adapter makes before it writes;
  - `newParams[k] = v` assignments as a sequence of writes, with a
    last-write-wins lemma;
  - ServeHTTP's "read the body unless GET" rule, and the lazy body rule.
- `Onion` (onion.dfy): a middleware passes or stops, and a handler is the
  onion built from middlewares. The module has:
  - the countdown composition loop;
  - the traces of one run;
  - the theorem that the handler runs exactly when every layer calls next.
- `Routing` (routing.dfy):
  - the shared route list;
  - `joinPaths` of echo, mux and chi, and the group and full-path rule of
    gin and fiber;
  - `getRouteScore`;
  - the stable score sort, specified by its unique result.
- `PathCommon` (common.dfy): `TranslatePath` of adapter/common.go. It is
  the regexp `:([a-zA-Z0-9._-]+)` replaced leftmost-greedy, written out
  as a scanner.
- `ShadowPlan` (zones.dfy): the `registerAll` that gin and echo share
  verbatim. Besides `registerAll` itself it models:
  - `getStaticBase`;
  - the `prefixTypes` loop;
  - the conflicting bases;
  - the placement of each route in a shadow zone or the native router.
- `Pattern` and `PatternFacts` (pattern.dfy, pattern_facts.dfy):
  - `buildRegex` is modelled as its exact rewrite steps:
    1. the placeholders `__P__` and `__W__`;
    2. `QuoteMeta`;
    3. the `__P__` rewrite;
    4. the `__W__` rewrite.
  - The result is a token pattern with Go's anchored, leftmost-first
    matcher.
  - The adapters deploy their zones with `buildRegex` as written, where
    the escaped dot ends a parameter name. `Compile` with dotted names on
    is the intended variant of the first finding below, and only
    `PatternFacts.DotParamCorrected` uses it.
  - It also has the shadow handler's first-match loop.
- `ShadowDispatch` (shadow.dfy): what gin and echo share once a shadow
  route matched:
  - the capture writes, with `_DOT_` restored;
  - the `*`/`path` mirror;
  - the cache key;
  - the coherence of the cache with cache-free resolution.
- `Gin`, `Echo`, `Fiber`, `FiberShared`, `Mux`, `Chi`: each adapter's
  entry points and its own rules. They cover:
  - the constructor, `Group`, `Use` and `register`;
  - the path rewriting, `Param` and the parameter merge;
  - the shadow cache (gin and echo);
  - gin's abort chain;
  - fiber's `syncParams` and `syncHeaders`;
  - mux's parameter cleaners;
  - chi's URL-parameter loop.

### Representation choices

- **Classes:**
  - An adapter or group is a `class` whose prefix and middleware list
    its methods update.
  - The route list shared through `*[]*routeEntry` is a `RouteList`
    object.
  - ServeMux and chi's mux are objects with a sequence of registrations.
  - The shadow cache of an adapter is one `ShadowCache` object: the
    cache map and its counter. Every zone handler of the adapter holds
    its own zone and shares that object. A ghost map records which zone
    stored each key.
- **Loops:** loops that rewrite path segments rewrite an `array` in
  place, as the Go code rewrites its split slice.
- **Middlewares:** a middleware is data: `Pass(before, after)` or
  `Stop(tag)`. A run of an onion is a trace of events.
- **Map order:** Go map iteration order is an input wherever the result
  depends on it. This covers the fuzzy `Param` scan (`order` enumerates
  the keys) and the choice among conflicting prefixes (a `:|` choice).
- **Native routing:** what the native engines capture is an input:
  - gin's `c.Params`;
  - echo's `PathValues`;
  - fiber's route parameters and queries;
  - ServeMux's `PathValue`;
  - chi's `URLParams`.

## Model

| member | source | states |
|---|---|---|
| Text.Split | adapter/ginadapter/gin.go:177 | `strings.Split` on one separator: at least one piece, no piece holds the separator, and joining the pieces gives the input back |
| Text.JoinSplit | adapter/ginadapter/gin.go:177-186 | splitting a join of separator-free pieces gives the pieces back (the other half of the round trip) |
| Text.IndexOf | adapter/ginadapter/gin.go:169 | `strings.Index` on one character: -1 exactly when absent, else the first occurrence |
| TranswarpState.CopyParams | adapter/ginadapter/gin.go:240-243 | the copy loop builds a map equal to the old one whatever order the map is walked in |
| TranswarpState.ApplyAt | adapter/ginadapter/gin.go:246-256 | after a run of map assignments a key is present iff it was before or was assigned; it holds its last assigned value, and an unassigned key keeps its old value |
| TranswarpState.ApplyWrites | adapter/muxadapter/mux.go:167-172 | a loop of in-order map assignments gives the map the write sequence denotes |
| TranswarpState.EntryState | adapter/echoadapter/echo.go:111-118 | the entry state has no parameters, and a body exactly when the method is not GET and the request body is neither nil nor `NoBody`, with the request's bytes |
| TranswarpState.ReadBody | adapter/echoadapter/echo.go:114-117 | the body is cached exactly when the request has a readable body, and holds its bytes |
| TranswarpState.LazyBody | adapter/muxadapter/mux.go:175-179 | a body an outer layer cached is reused; otherwise the request body is read, whatever the method |
| Onion.Compose | adapter/ginadapter/gin.go:262-268 | the countdown wrapping loop builds the onion with `mws[0]` outermost |
| Onion.NestAppend | adapter/chiadapter/chi.go:184-194 | the route loop followed by the group loop builds one onion over `group + route`: group middlewares run outside route middlewares |
| Onion.RunAllPass | adapter/echoadapter/echo.go:276-284 | when every layer calls next: every `before` outer to inner, the handler, every `after` inner to outer |
| Onion.RunStops | adapter/adapter.go:258-281 | when layer k is the first that stops: the outer layers' work around its response, and nothing of the inner layers or the handler |
| Onion.HandlerRunsIff | adapter/adapter.go:258-281 | the terminal handler is reached iff every middleware calls next |
| Routing.RouteList.Add | adapter/ginadapter/gin.go:165 | a registration appends exactly one route to the shared list |
| Routing.JoinPathsShape | adapter/echoadapter/echo.go:339-344 | `joinPaths` of two paths without `//` has no `//`, and starts with `/` when the base is empty or rooted |
| Routing.GroupPrefixShape | adapter/ginadapter/gin.go:93-105 | gin's and fiber's group prefix stays `""` or rooted, and never ends in `/` |
| Routing.FullPathShape | adapter/ginadapter/gin.go:163-164 | a full path built under a group prefix starts with `/` |
| Routing.RouteScore | adapter/ginadapter/gin.go:409-417 | the score is 3 iff the path holds `*`, 2 iff it holds `:` and no `*`, 1 otherwise |
| Routing.SortByScoreSpec | adapter/fiberadapter/fiber.go:61-63 | the stable sort is a permutation, ordered by score, and keeps the relative order of each score's routes |
| Routing.CatchAllName | adapter/muxadapter/mux.go:202-206 | the catch-all name is the text after the first `*`, or `any` when that is empty |
| PathCommon.NameRun | adapter/common.go:9 | the greedy name run: every character in `[a-zA-Z0-9._-]`, and stops at the first that is not |
| PathCommon.TranslateNoToken | adapter/common.go:14-19 | the translated path holds no `:name` placeholder |
| PathCommon.TranslateCounts | adapter/common.go:14-19 | each rewritten placeholder removes one `:` and adds one `{`; no other `:` or `{` appears or disappears |
| PathCommon.TranslateUnchangedIff | adapter/common.go:9-19 | a path is returned unchanged iff it holds no `:` followed by a name character |
| PathCommon.TranslateIdempotent | adapter/common.go:14-19 | translating twice is translating once |
| PathCommon.TranslateLiteral | adapter/common.go:14-19 | text without a colon is copied unchanged in front of the rest's translation |
| PathCommon.TranslateTrailing | adapter/common.go:9 | `dir:name.json` becomes `dir{name.json}`: the dot belongs to the name |
| PathCommon.TranslateBareColon | adapter/common.go:9 | a colon not followed by a name character is copied as it is |
| ShadowPlan.FirstDynamic | adapter/ginadapter/gin.go:398-399 | the first segment starting with `:` or `*`, every earlier segment static |
| ShadowPlan.StaticBaseShape | adapter/ginadapter/gin.go:396-407 | a base other than `/` is the text of the path in front of a `/` that starts a dynamic segment |
| ShadowPlan.StaticBaseOf | adapter/ginadapter/gin.go:396-407 | for static segments, a dynamic one and the rest, the base is the static segments joined |
| ShadowPlan.StaticBaseNoDynamic | adapter/ginadapter/gin.go:405-406 | a path with no dynamic segment has base `/` |
| ShadowPlan.ConflictingIff | adapter/ginadapter/gin.go:332-349 | a base is conflicting iff some route on it holds `:` and some route on it holds `*` |
| ShadowPlan.CollectTypes | adapter/ginadapter/gin.go:332-343 | the `prefixTypes` map has one key per route base, marked `:` iff a route on that base holds `:`, and `*` likewise |
| ShadowPlan.FindConflicts | adapter/ginadapter/gin.go:345-349 | the conflicting set holds exactly the bases marked both `:` and `*` |
| ShadowPlan.ChooseZone | adapter/ginadapter/gin.go:352-359 | the inner loop picks a conflicting prefix covering the path (equal to it, or followed by `/`), and returns none only when no conflicting prefix covers it |
| ShadowPlan.PlacedIn | adapter/ginadapter/gin.go:355 | a route is in a zone, or in the native list, iff it was assigned that placement |
| ShadowPlan.AssignZones | adapter/ginadapter/gin.go:351-363 | each route goes to a covering conflicting prefix or, when none covers it, to the native list; zones keep registration order and exist only for prefixes that got a route |
| ShadowPlan.RegisterAll | adapter/ginadapter/gin.go:327-363 | the whole plan: a route is shadowed exactly under a conflicting base that covers it, and the rest are registered natively, in order |
| Pattern.ParamRun | adapter/ginadapter/gin.go:376 | the `__P__` name run is greedy over `[a-zA-Z0-9_.]` (as written, `.` is already escaped) |
| Pattern.WName | adapter/ginadapter/gin.go:383 | the `__W__` name is the greedy run of word characters that are still literal |
| Pattern.MatchIff | adapter/ginadapter/gin.go:393 | the anchored pattern matches a path iff the path can be cut into one fitting piece per token |
| Pattern.MatchGreedy | adapter/ginadapter/gin.go:238 | the submatch found is Go's leftmost-first one: preferred to every other cut |
| Pattern.FirstMatch | adapter/ginadapter/gin.go:210-214 | the chosen route has the request's method and a matching pattern, and no earlier route of the zone does; none means no route does |
| Pattern.FindFirst | adapter/ginadapter/gin.go:210-231 | the dispatch loop returns exactly the first candidate |
| Pattern.CompileZone | adapter/ginadapter/gin.go:190-196 | the zone is compiled route by route of the sorted list, and fails iff some route's pattern fails to compile |
| PatternFacts.CompileStatic | adapter/ginadapter/gin.go:370-394 | a path without `:`, `*` or `__` (a single `_`, as in `/user_info`, is fine) compiles to its own literal text and no wildcard |
| PatternFacts.CompileParam | adapter/ginadapter/gin.go:372-381 | a one-parameter route whose literal text has no `:`, `*` or `__` (such as `/user_info/:id`) compiles to that text around one `[^/]+` group named by the parameter |
| PatternFacts.CompileWildcard | adapter/ginadapter/gin.go:383-391 | a route ending in `*name`, with literal text and name free of `__` (such as `*file_path`), compiles to its literal text and one `.*` group; the wildcard name is the whole `name`, or `any` when empty |
| PatternFacts.MatchStatic | adapter/ginadapter/gin.go:393 | a static pattern matches its own text and nothing else |
| PatternFacts.ParamRouteMatch | adapter/ginadapter/gin.go:238-250 | a one-parameter pattern matches `dir + v + tail` for any non-empty `v` without `/`, and captures exactly `v` |
| PatternFacts.WildcardRouteMatch | adapter/ginadapter/gin.go:238-257 | a wildcard pattern matches every one-line path below its text and captures the rest of the path |
| PatternFacts.RestoreSafeName | adapter/ginadapter/gin.go:248 | turning `_DOT_` back into `.` undoes the renaming of a name without `_` |
| PatternFacts.DotParamAsWritten | adapter/ginadapter/gin.go:372-381 | as written, `:name.json` compiles to a `name` group then the literal `.json`, so `name.json` is never a parameter key |
| PatternFacts.DotParamCorrected | adapter/ginadapter/gin.go:376-381 | with dots in the name, the group `name_DOT_json` captures `v.json`, stored back under `name.json` |
| PatternFacts.StaticRouteWins | adapter/ginadapter/gin.go:190-214 | a request for the exact path of a static route without `__` in a shadow zone is served by a static route |
| ShadowDispatch.CaptureWrites | adapter/ginadapter/gin.go:245-251 | one assignment per capture group, in order, under the group name with `_DOT_` restored |
| ShadowDispatch.ApplyMirror | adapter/ginadapter/gin.go:253-257 | a wildcard route copies its value to `*` and `path`, and a route without one writes nothing more |
| ShadowDispatch.ShadowParamRoute | adapter/ginadapter/gin.go:236-259 | a one-parameter shadow route stores the captured value under the parameter's key over the prior map, and writes nothing else |
| ShadowDispatch.ShadowWildcardRoute | adapter/ginadapter/gin.go:245-257 | a wildcard shadow route stores the rest of the path under its name, `*` and `path` |
| ShadowDispatch.CacheKeyDecode | adapter/ginadapter/gin.go:201 | the cache key gives back the method and the path it was built from |
| ShadowDispatch.CacheKeyInjective | adapter/ginadapter/gin.go:201 | two requests share a cache key iff they have the same method and path |
| ShadowDispatch.ResolveFirst | adapter/ginadapter/gin.go:209-231 | a request resolves iff some route of the zone is a candidate, and then to the first candidate |
| ShadowDispatch.CoherentHit | adapter/ginadapter/gin.go:204-206 | in a coherent cache a hit is the route that the zone which stored the key resolves the request to |
| ShadowDispatch.CoherentStore | adapter/ginadapter/gin.go:225 | storing a zone's resolved route, with that zone as its origin, keeps the cache coherent |
| ShadowDispatch.AnswerIsResolve | adapter/ginadapter/gin.go:198-231 | when a request's key was stored by the zone now asked, or is not cached, the cached answer is the zone's cache-free resolution |
| Gin.PrefixScan | adapter/ginadapter/gin.go:76-80 | the fuzzy scan returns the value of a key extending `key` with a dotted suffix, and misses only when no walked key does |
| Gin.PrefixScanComplete | adapter/ginadapter/gin.go:76-80 | when the walk covers the map, a miss means no stored key extends `key` |
| Gin.Param | adapter/ginadapter/gin.go:66-90 | `""` without a state; then the exact key; else a value of some key extending `key`; else the value under the text before the first dot; else `""` |
| Gin.AnyExtensionCanWin | adapter/ginadapter/gin.go:76-80 | with several extending keys, whichever the map walk meets first answers |
| Gin.ParamFindsBase | adapter/ginadapter/gin.go:82-87 | for every map with `name` but neither `name.ext` nor a key extending it, `Param("name.ext")` is the value under `name` |
| Gin.EntryState | adapter/ginadapter/gin.go:118-127 | the request's state is reused, or a fresh one is made; a body is read only when none is cached, the method is not GET and the body is readable |
| Gin.CutParam | adapter/ginadapter/gin.go:179-184 | a `:` segment is cut before its first dot, and other segments are kept |
| Gin.PreparePathWildcard | adapter/ginadapter/gin.go:169-175 | on a path with a `*`, gin gets the text before it, `*` and the name (`any` when empty), and the name is returned |
| Gin.PreparePathSegments | adapter/ginadapter/gin.go:177-186 | on a path without `*`: no wildcard name, the same segments, and each `:` segment cut at its first dot |
| Gin.PrepareAll | adapter/ginadapter/gin.go:360-362 | every native route is prepared for gin, one per route, in order |
| Gin.DeployAll | adapter/ginadapter/gin.go:365-367 | every zone is deployed with `buildRegex` as written, under its own prefix, whatever order the map is walked in; it fails iff some zone fails to compile |
| Gin.GinAdapter.constructor | adapter/ginadapter/gin.go:46-57 | an empty prefix, no middlewares, a fresh empty route list, a fresh empty shadow cache with counter 0, and the default cache limit 10000 |
| Gin.GinAdapter.SetMaxShadowCacheSize | adapter/ginadapter/gin.go:60-62 | only the cache limit changes |
| Gin.GinAdapter.Group | adapter/ginadapter/gin.go:93-106 | the child has the normalized prefix and a copy of the middlewares, and shares the route list, the cache limit and the shadow cache |
| Gin.GinAdapter.Use | adapter/ginadapter/gin.go:109-111 | the middlewares are appended, and nothing else changes |
| Gin.GinAdapter.Register | adapter/ginadapter/gin.go:162-166 | one route is appended with the rooted full path and the stack as it is now, followed by the route's middlewares |
| Gin.GinAdapter.RegisterAll | adapter/ginadapter/gin.go:327-368 | the shadow plan over the registered routes, the native routes prepared for gin, every zone deployed with `buildRegex` as written, and one handler per zone, all over the adapter's one cache |
| Gin.DispatchWithParams | adapter/ginadapter/gin.go:236-259 | the new state's parameters are the prior map with the captures and their mirror over it, and the body is unchanged |
| Gin.ByName | adapter/ginadapter/gin.go:314 | `c.Param`: the value of the first parameter with that key, `""` when none |
| Gin.NativeLink | adapter/ginadapter/gin.go:303-320 | the last link copies the state, writes gin's parameters in order and mirrors the wildcard value; the body is unchanged |
| Gin.NativeParamsAt | adapter/ginadapter/gin.go:309-317 | under a wildcard route, `*` and `path` hold gin's value for the wildcard name; other keys hold the last native value or the prior one |
| Gin.GinShadow.Lookup | adapter/ginadapter/gin.go:198-231 | a hit answers the entry cached by whichever zone stored it, which is what that zone resolves; a miss is the zone's first match; a matching miss purges a full cache shared by all zones, then stores and counts; the counter equals the cache size and stays within its bound |
| Gin.GinShadow.Handle | adapter/ginadapter/gin.go:198-233 | 404 when the shared cache and the zone give no route; otherwise that route is served with the merged state through its onion |
| Gin.SharedPurge | adapter/ginadapter/gin.go:215-226 | with limit 1, a miss in one zone purges the entry another zone stored: the shared cache holds just the new entry |
| Gin.InstallShadows | adapter/ginadapter/gin.go:198 | one handler per zone, each over its own zone and the adapter's one cache |
| Gin.GinContext.Next | adapter/ginadapter/gin.go:284-295 | `c.Next` runs the rest of the chain; the context is aborted iff some remaining middleware did not call next |
| Gin.GinContext.Step | adapter/ginadapter/gin.go:282-301 | one link of the chain runs its middleware around the rest, or the handler when it is not aborted |
| Gin.RunChain | adapter/ginadapter/gin.go:279-325 | the gin stack gives the same trace as the net/http onion, and reaches the handler iff every middleware calls next |
| Echo.PrefixScan | adapter/echoadapter/echo.go:72-76 | echo's walk returns a key equal to or extending `key`, and misses only when none does |
| Echo.PrefixScanIsGin | adapter/echoadapter/echo.go:73 | once the exact key is absent, the loop's `k == key` test never fires, and the walk is gin's |
| Echo.ParamIsGin | adapter/echoadapter/echo.go:60-87 | echo's `Param` answers exactly what gin's does, on every state, key and walk order |
| Echo.GroupNormalization | adapter/adapter.go:348-361 | `Group("/api/")` on the root and then `/health` give `/api/health` |
| Echo.EchoAdapter.constructor | adapter/echoadapter/echo.go:47-57 | an empty prefix, no middlewares, a fresh empty route list, a fresh empty shadow cache with counter 0, and the cache limit 10000 |
| Echo.EchoAdapter.Group | adapter/echoadapter/echo.go:90-100 | the child's prefix is the joined path, the middlewares are copied, and the route list and shadow cache are shared; no `//` is introduced |
| Echo.EchoAdapter.Use | adapter/echoadapter/echo.go:103-105 | the middlewares are appended, and the prefix is unchanged |
| Echo.EchoAdapter.Register | adapter/echoadapter/echo.go:346-355 | one route is appended with the joined path as it is and the stack followed by the route's middlewares |
| Echo.EchoAdapter.RegisterAll | adapter/echoadapter/echo.go:146-188 | the shadow plan over the registered routes, the native routes, every zone deployed with `buildRegex` as written, and one handler per zone, all over the adapter's one cache |
| Echo.PlanAndDeploy | adapter/echoadapter/echo.go:146-197 | the plan, the native list and the zones deployed with `buildRegex` as written, stated over the route sequence |
| Echo.GroupIsolation | adapter/adapter.go:301-330 | a middleware used on `/admin` reaches its routes only; the root and a sibling group keep their lists |
| Echo.Wrap | adapter/echoadapter/echo.go:229-287 | the new state is the prior map with echo's path values, then the shadow captures and mirror; the body is unchanged; the route's onion runs |
| Echo.WrapNative | adapter/echoadapter/echo.go:239-242 | a native route keeps exactly the prior keys and echo's path values, with no mirror |
| Echo.WrapParamRoute | adapter/echoadapter/echo.go:244-258 | a one-parameter shadow route stores the capture under the parameter's key on top of echo's values |
| Echo.DeepNesting | adapter/adapter.go:384-415 | four nested groups with one middleware each, and a route middleware, give the trace `(1(2(3(4(5X5)4)3)2)1)` |
| Echo.DeepOnion | adapter/adapter.go:384-415 | the five layers of that scenario render `(1(2(3(4(5` + handler + `5)4)3)2)1)` |
| Echo.FiveLayers | adapter/echoadapter/echo.go:280-284 | five passing layers write their `before` texts outer to inner, the handler, and their `after` texts inner to outer |
| Echo.StoreAsWritten | adapter/echoadapter/echo.go:216-220 | as written, a miss stores the entry after the counter was bumped (and reset when full) |
| Echo.StoreAsWrittenDrift | adapter/echoadapter/echo.go:216-220 | as written, the counter stays within `max`, but after a purge the cache holds one entry more than the counter says |
| Echo.StoreAsWrittenOverfills | adapter/echoadapter/echo.go:216-220 | as written, with `max` 1, three different misses leave two entries in the cache |
| Echo.Store | adapter/echoadapter/echo.go:216-220 | the intended store: past `max` the cache is just the new entry, otherwise the entry is added, always counted |
| Echo.StoreCounts | adapter/echoadapter/echo.go:216-220 | the intended store keeps the counter equal to the cache size and within its bound |
| Echo.EchoShadow.Lookup | adapter/echoadapter/echo.go:199-224 | a hit answers the entry cached by whichever zone stored it, which is what that zone resolves; a miss is the zone's first match; a matching miss applies the store as written to the shared cache; the counter stays in `0..max` and undercounts the cache by at most one |
| Echo.EchoShadow.Handle | adapter/echoadapter/echo.go:199-226 | 404 when the shared cache and the zone give no route; otherwise that route is served through `wrap` |
| Echo.InstallShadows | adapter/echoadapter/echo.go:199 | one handler per zone, each over its own zone and the adapter's one cache |
| Fiber.FirstStar | adapter/fiberadapter/fiber.go:168 | the first segment starting with `*`, with no earlier one |
| Fiber.TransformPathForFiber | adapter/fiberadapter/fiber.go:160-176 | fiber's path: the segments up to the first catch-all, `:` segments cut at their dot, the catch-all as a bare `*`, and nothing after it |
| Fiber.SegmentLoop | adapter/fiberadapter/fiber.go:161-175 | the in-place loop over the segments, with its early return at the catch-all, joins fiber's segments |
| Fiber.SplitFiberPath | adapter/fiberadapter/fiber.go:160-176 | splitting fiber's path gives back fiber's segments |
| Fiber.FiberPathShape | adapter/fiberadapter/fiber.go:160-176 | no `:` segment keeps a dot, a catch-all is a bare `*` and is last |
| Fiber.FiberPathIdempotent | adapter/fiberadapter/fiber.go:160-176 | transforming fiber's path again changes nothing |
| Fiber.Param | adapter/fiberadapter/fiber.go:178-203 | `""` without a state; the exact key's value; else the catch-all value under `*`; else, for a dotted key, the value under the text before the first dot or `""`; else `""` |
| Fiber.CatchAllAnswersEveryKey | adapter/fiberadapter/fiber.go:189-193 | after `syncParams` on any route ending in a catch-all, every key not synced answers the decoded catch-all value |
| Fiber.ParamFindsBase | adapter/fiberadapter/fiber.go:195-200 | for every map without `*` and without `name.ext`, `Param("name.ext")` is the value under `name`, or `""` when absent |
| Fiber.FiberAdapter.constructor | adapter/fiberadapter/fiber.go:34-43 | an empty prefix, no middlewares and a fresh empty route list |
| Fiber.FiberAdapter.Group | adapter/fiberadapter/fiber.go:45-58 | the gin-style normalized prefix, a copy of the middlewares and the shared route list |
| Fiber.FiberAdapter.Use | adapter/fiberadapter/fiber.go:215-217 | the middlewares are appended, and the prefix is unchanged |
| Fiber.FiberAdapter.Register | adapter/fiberadapter/fiber.go:235-242 | one route is appended with the rooted full path and a copy of the stack followed by the route's middlewares |
| Fiber.FiberAdapter.RegisterAll | adapter/fiberadapter/fiber.go:60-74 | the shared list is stably sorted by score in place (a permutation, in score order), and each route is installed with fiber's path and its onion |
| Fiber.InstallAll | adapter/fiberadapter/fiber.go:65-72 | one installed route per route, in order |
| FiberShared.Clone | adapter/fiberadapter/shared.go:14-21 | the copy equals its argument |
| FiberShared.Unescape | adapter/fiberadapter/shared.go:38-41 | percent-decoding never lengthens the text |
| FiberShared.UnescapeEscape | adapter/fiberadapter/shared.go:38 | decoding undoes percent-encoding, in path and in query mode |
| FiberShared.UnescapePlain | adapter/fiberadapter/shared.go:54 | a value without `%` (and, for a query, without `+`) decodes to itself |
| FiberShared.UnescapeBadPercent | adapter/fiberadapter/shared.go:38-41 | a `%` not followed by two hexadecimal digits makes decoding fail |
| FiberShared.PathValue | adapter/fiberadapter/shared.go:38-43 | a route parameter is stored decoded, or raw when decoding fails |
| FiberShared.QueryValue | adapter/fiberadapter/shared.go:54 | a query value is stored decoded, or `""` when decoding fails |
| FiberShared.ParamWrites | adapter/fiberadapter/shared.go:36-49 | an empty raw value writes nothing; otherwise the name gets the value, and a `*` name also writes `path` and `*` |
| FiberShared.SyncParamsLoop | adapter/fiberadapter/shared.go:24-59 | the three loops build the prior parameters, then the route parameters in order, then the queries over both |
| FiberShared.RouteParamsLoop | adapter/fiberadapter/shared.go:35-50 | the route-parameter loop applies each parameter's writes in route order |
| FiberShared.QueryLoop | adapter/fiberadapter/shared.go:53-56 | the query loop gives the map with every decoded query over it, whatever order the queries are walked in |
| FiberShared.QueryParams | adapter/fiberadapter/shared.go:53-56 | the decoded queries: one key per query, each with its decoded value |
| FiberShared.QueryOverrides | adapter/fiberadapter/shared.go:53-56 | a query value wins over a route parameter of the same name |
| FiberShared.EmptySkipped | adapter/fiberadapter/shared.go:37 | a key whose route parameters all came empty is never written by the route loop |
| FiberShared.WildcardMirrored | adapter/fiberadapter/shared.go:45-48 | a catch-all value answers under its name, `path` and `*`, unless a query of that name overrides it |
| FiberShared.HeaderAdd | adapter/fiberadapter/shared.go:66 | `Header.Add` appends the value to the list of the canonical form of its key, and no other key changes |
| FiberShared.SameHeaderName | adapter/fiberadapter/shared.go:65-66 | two spellings of a token name that differ only in ASCII case have one canonical key |
| FiberShared.TokensCaseless | adapter/fiberadapter/shared.go:65-66 | changing the ASCII case of a name does not change whether it is a token |
| FiberShared.CanonicalKeyIdempotent | adapter/fiberadapter/shared.go:65-66 | canonicalizing a canonical key changes nothing |
| FiberShared.SyncHeaders | adapter/fiberadapter/shared.go:62-69 | the visit of fiber's headers gives the synced header map |
| FiberShared.SyncKeepsExisting | adapter/fiberadapter/shared.go:65-67 | headers are only added: every key keeps its earlier values, and a canonical key the Go side already answers keeps exactly its values |
| FiberShared.SyncFillsMissing | adapter/fiberadapter/shared.go:63-67 | a name missing on the Go side takes the value of the first fiber header with the same canonical key, and `Header.Get` in any spelling returns it |
| FiberShared.CaseVariantSkipped | adapter/fiberadapter/shared.go:65-67 | a fiber header whose name differs only in case from a token name the Go side answers changes nothing |
| Mux.ReplazorShape | adapter/muxadapter/mux.go:16 | the placeholder is `___replazor___`: no dot, no slash, three underscores at each end |
| Mux.EncodeClean | adapter/muxadapter/mux.go:30-48 | the simple cleaner leaves no dot and adds no slash; the default cleaner is the identity both ways |
| Mux.RoundTrip | adapter/muxadapter/mux.go:38-48 | decoding undoes encoding: for every name under the default cleaner, and for names without `replazor` under the simple one |
| Mux.RoundTripNeedsCondition | adapter/muxadapter/mux.go:38-48 | `___replazor.` does not survive the simple cleaner's round trip, so the condition is needed |
| Mux.TranslateLoop | adapter/muxadapter/mux.go:198-227 | `translate`: a catch-all becomes `{name...}` with one key; otherwise the segment loop |
| Mux.SegmentLoop | adapter/muxadapter/mux.go:215-226 | the in-place segment loop rewrites each `:name` as `{encoded name}` and collects the keys in order |
| Mux.SegmentKeysIn | adapter/muxadapter/mux.go:217-218 | a key is collected iff some segment is `:key` |
| Mux.SplitPattern | adapter/muxadapter/mux.go:215-226 | the pattern splits back into the rewritten segments |
| Mux.TranslateKeys | adapter/muxadapter/mux.go:214-226 | every key comes from a `:key` segment, and the pattern holds its encoded name there; under the simple cleaner that name has no dot and decodes back |
| Mux.TranslateWildcard | adapter/muxadapter/mux.go:202-212 | a catch-all keeps the text before `*` and captures one key, `any` when unnamed |
| Mux.Param | adapter/muxadapter/mux.go:69-96 | `""` without a state; the exact key's value; else the value of some key extending `key` with a dotted suffix; else, for `*`, the value under `any`; else `""` |
| Mux.NoBaseFallback | adapter/muxadapter/mux.go:69-96 | unlike gin, mux has no base-key fallback: for every map with `name` but no key extending `name.ext`, mux answers `""` where gin answers the value under `name` |
| Mux.StarFindsAny | adapter/muxadapter/mux.go:88-93 | for every map with `any` and no `*` or key extending it, `Param("*")` is the value of the unnamed catch-all |
| Mux.WrapStateLoop | adapter/muxadapter/mux.go:157-185 | `wrapState` copies the state, writes each key with a non-empty ServeMux value, and takes the lazy body |
| Mux.KeyWritesAt | adapter/muxadapter/mux.go:167-172 | the last write to a key is its ServeMux value when the key is the route's and the value is non-empty, and there is none otherwise |
| Mux.WrapStateAt | adapter/muxadapter/mux.go:157-185 | a key with a non-empty value holds it; any other key keeps its incoming value, or stays absent |
| Mux.MuxAdapter.constructor | adapter/muxadapter/mux.go:59-67 | a missing configuration means the default cleaner; empty prefix and middlewares; a fresh ServeMux |
| Mux.MuxAdapter.Group | adapter/muxadapter/mux.go:114-123 | the joined prefix, a copy of the middlewares, the same cleaner and ServeMux; no `//` is introduced |
| Mux.MuxAdapter.Use | adapter/muxadapter/mux.go:125-127 | the middlewares are appended, and the prefix is unchanged |
| Mux.MuxAdapter.Register | adapter/muxadapter/mux.go:138-155 | one pattern `METHOD path` with the translated path joined to the prefix, its keys, and the onion with the group's middlewares outside the route's |
| Mux.ServeMux.Handle | adapter/muxadapter/mux.go:154 | `Handle` appends exactly one pattern to the shared ServeMux |
| Mux.GlobalThenLocal | adapter/adapter.go:72-102 | a global middleware, a route middleware and the handler write `A`, `B`, `C` in that order |
| Chi.CutDot | adapter/chiadapter/chi.go:128-130 | the name is cut before its first dot, and is kept when it has none |
| Chi.TransformLoop | adapter/chiadapter/chi.go:114-135 | `transformPathForChi`: the path cut after its first `*`, then the segment loop, and the catch-all's name |
| Chi.SegmentLoop | adapter/chiadapter/chi.go:124-134 | the in-place segment loop rewrites each `:name.ext` as `{name}` |
| Chi.RewriteParam | adapter/chiadapter/chi.go:126-131 | the body of the loop for a `:` segment |
| Chi.NoDotLeft | adapter/chiadapter/chi.go:126-131 | a rewritten `:` segment keeps no dot |
| Chi.SplitChiPath | adapter/chiadapter/chi.go:114-135 | chi's pattern splits back into the rewritten segments, and no `:` segment keeps a dot |
| Chi.TransformWildcard | adapter/chiadapter/chi.go:116-122 | a catch-all drops what follows `*` from the pattern and gives it as the name, `any` when empty |
| Chi.TransformNoWildcard | adapter/chiadapter/chi.go:114-135 | a path without `*` has no catch-all name |
| Chi.Param | adapter/chiadapter/chi.go:31-48 | `""` without a state; the exact key's value when present; `""` for an absent key without a dot; for an absent dotted key, the value under its text before the dot, or `""` |
| Chi.DottedParamServed | adapter/chiadapter/chi.go:40-46 | chi registers `:name.ext` as `{name}`, and for every map without `name.ext`, `Param("name.ext")` is the value under `name` |
| Chi.WrapStateLoop | adapter/chiadapter/chi.go:137-175 | `wrapState` copies the state, writes chi's URL parameters, and takes the lazy body |
| Chi.UrlWritesUntouched | adapter/chiadapter/chi.go:153-161 | the loop assigns only chi's keys, and the catch-all's name when chi reports `*` |
| Chi.UntouchedKept | adapter/chiadapter/chi.go:144-161 | a key chi did not report keeps its incoming value, or stays absent |
| Chi.LastParamWins | adapter/chiadapter/chi.go:153-161 | the last parameter chi reports wins; a catch-all value lands under its name and `*` |
| Chi.BodyWhateverTheMethod | adapter/chiadapter/chi.go:165-169 | `ServeHTTP` skips the body of a GET, and `wrapState` then reads it anyway: the handler sees the body whatever the method |
| Chi.ChiAdapter.constructor | adapter/chiadapter/chi.go:24-28 | an empty prefix, no middlewares and a fresh chi router |
| Chi.ChiAdapter.Group | adapter/chiadapter/chi.go:73-83 | the joined prefix, a copy of the middlewares and the shared router |
| Chi.ChiAdapter.Use | adapter/chiadapter/chi.go:66-70 | the middlewares are kept on the adapter, not on chi's router |
| Chi.ChiAdapter.Register | adapter/chiadapter/chi.go:177-197 | one route with chi's pattern joined to the prefix, its catch-all name, and the onion with the group's middlewares outside the route's |
| Chi.ChiMux.Method | adapter/chiadapter/chi.go:196 | `Method` appends exactly one route to the shared chi router |

## Left out

- The bridges for foreign middlewares are not modelled: `FromGin`,
  `FromEcho`, `FromFiber` and the fiber middleware bridge. They are not
  part of the adapters' core.
- fiber's `ServeHTTP` and `wrapAtomic` are not modelled: the fasthttp
  context pool, the request rebuilt from fiber's context and the header
  copy. What reaches the model is `syncParams` and `syncHeaders`, with
  fiber's data as inputs.
- Concurrency is not modelled. This covers `sync.Once`, `sync.Map` and
  the atomic counter. `registerAll` is modelled as one call, and each
  cache step as atomic.
- Go's regexp engine and `QuoteMeta` are replaced by the token matcher.
  That matcher follows the rewrite steps of `buildRegex`, and assumes
  route paths with no regexp metacharacters other than `.`.
- The routing inside gin, echo, fiber, ServeMux and chi is not modelled.
  What an engine captures for a request is an input to the model.
- Slice aliasing is not modelled. gin's and echo's `register`
  (gin.go:165, echo.go:353) build a route's stack with
  `append(a.middlewares, mws...)`. When the adapter's slice has spare
  capacity (after three `Use` calls its length is 3 and its capacity 4),
  two routes registered in a row share that spare slot: registering
  route B overwrites the last route middleware of route A. The model
  copies values, so each route keeps its own stack. fiber copies the
  slice first, so it is not affected.
- Strings stand for Go byte strings, one `char` per byte. Unicode text is
  its UTF-8 bytes: `FiberShared.Unescape` decodes `%C3%A9` to two
  characters, and `FiberShared.Escape` takes characters below 256.
- CompileStatic: stated only for paths without `__`. A `__` in the literal
  text can run into a `__P__` or `__W__` marker (`/x__P:id` gives the
  group `P__id`), so the lemma leaves it out. A single `_` is covered.
- CompileParam: stated only for literal text without `__`, for the same
  reason.
- CompileWildcard: stated only for literal text and a wildcard name
  without `__`, for the same reason.
- StaticRouteWins: stated only for static paths without `__`, because it
  rests on CompileStatic.
- Request bodies are an optional byte sequence. Stream reading and read
  errors are left out.
- The server, recovery, validator and `transwarp.go` packages are not
  part of this model.
- Go map iteration order is not modelled. It is an input (`order`) or a
  `:|` choice.
- chi without a route context (`rctx == nil`) is not modelled. The URL
  parameters are an input.
- Mux.RoundTrip: stated only for names that do not contain `replazor`.
  Mux.RoundTripNeedsCondition shows that the condition is needed.
- ShadowDispatch.CacheKeyInjective: stated only for methods without
  `|`. Every method transwarp registers qualifies.
- Gin.GinShadow.Lookup and Echo.EchoShadow.Lookup require a method
  without `|`, for the same reason.
- FiberShared.Unescape: models the percent-decoding of section 2.1 of
  RFC 3986, as Go's `url.PathUnescape` and `url.QueryUnescape` do it.
  Go's extra checks on host and zone escapes are out of scope.
- Gin.GinAdapter.Group and Echo.EchoAdapter.Group: a group shares the
  adapter's cache object. In Go a group copies the pointer to the cache
  map and starts its own counter at 0. Only the adapter that runs
  `registerAll` ever uses its cache, so the difference is not observable.
- ShadowDispatch.AnswerIsResolve: relies on the native router sending a
  given method and path to one zone handler. Without that, a hit can
  return another zone's route, as Gin.GinShadow.Lookup states.
- FiberShared.CanonicalKey: ASCII case only, as Go's
  `CanonicalMIMEHeaderKey` does. Keys written directly into Go's header
  map are not canonicalized, and neither are they in the model.
- The 32-bit width of the cache counter is not modelled, because it
  never nears 2^31 below the default limit.
- `OPTIONS`, `GET`, `POST`, `PUT` and `DELETE` are modelled as the one
  `Register` that each of them calls. `Engine()` returns the native
  object, so it is not modelled.

## Findings

The adapters and their shadow handlers follow the code as written. Each
corrected member states the evidently intended behaviour beside it.

| source | as written | input that shows it | evidently intended | confidence | as-written member | corrected member |
|---|---|---|---|---|---|---|
| adapter/ginadapter/gin.go:370-394 | `QuoteMeta` runs before the `__P__([a-zA-Z0-9_.]+)` rewrite, so a dot is already `\.` and never part of a parameter name; the `_DOT_` renaming never fires | route `/f/:name.json` in a shadow zone, request `/f/config.json`: the key `name` gets `config`, and `name.json` is never set | the group keeps the dotted name, captures `config.json` and stores it under `name.json`, as the gin native path does with its own cut name | not executed | PatternFacts.DotParamAsWritten | PatternFacts.DotParamCorrected |
| adapter/echoadapter/echo.go:211-220 | the counter is bumped before the limit test; past the limit the cache is replaced and the counter set to 0, and the entry is then stored uncounted | `max` 1 and misses `a`, `b`, `c`: the cache holds 2 entries | the purge leaves the new entry, counted, so the cache never exceeds `max` | not executed | Echo.StoreAsWrittenOverfills | Echo.StoreCounts |
