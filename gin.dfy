/** The gin adapter: route bookkeeping over one shared route list, the
    fuzzy `Param` lookup, the path rewrite for gin's own router, the bounded
    cache and dispatch of a shadow zone, the parameter merge of both
    dispatch paths, and the abort chain gin runs middlewares through. */
module Gin {
  import opened Text
  import opened TranswarpState
  import opened Onion
  import opened Routing
  import opened Pattern
  import opened ShadowPlan
  import opened PatternFacts
  import opened ShadowDispatch

  const DefaultMaxShadowCacheSize := 10000

  // ---------------------------------------------------------------------
  // Param

  /** `order` lists the keys of `m`: the order one `range` over it visits them. */
  predicate Enumerates(order: seq<string>, m: Params)
  {
    (forall i :: 0 <= i < |order| ==> order[i] in m) && (forall k :: k in m ==> k in order)
  }

  /** A stored key that extends `key` with a dotted suffix (`id.json` for `id`). */
  predicate Extends(k: string, key: string)
  {
    HasPrefix(k, key + ".")
  }

  /** The value of the first key met, in `order`, that extends `key`. */
  function PrefixScan(m: Params, order: seq<string>, key: string): (r: Option<string>)
    ensures r.Some? ==> exists i :: 0 <= i < |order| && order[i] in m && Extends(order[i], key) && r.value == m[order[i]]
    ensures r.None? ==> forall i :: 0 <= i < |order| && order[i] in m ==> !Extends(order[i], key)
  {
    if order == [] then None
    else if order[0] in m && Extends(order[0], key) then Some(m[order[0]])
    else PrefixScan(m, order[1..], key)
  }

  /** The scan misses only when no key of the map extends `key`. */
  lemma PrefixScanComplete(m: Params, order: seq<string>, key: string)
    requires forall k :: k in m ==> k in order
    ensures PrefixScan(m, order, key).None? ==> forall k :: k in m ==> !Extends(k, key)
  {
    if PrefixScan(m, order, key).None? {
      forall k | k in m
        ensures !Extends(k, key)
      {
        var i :| 0 <= i < |order| && order[i] == k;
      }
    }
  }

  /** The text of `key` before its first dot. */
  function BaseKey(key: string): string
    requires '.' in key
  {
    key[..IndexOf(key, '.')]
  }

  /** `Param`: nothing without a state; then the exact key; then a stored
      key extending `key`; then the key's text before its first dot;
      otherwise `""`. `order` is the walk order of the parameter map. */
  function Param(st: Option<State>, key: string, order: seq<string>): (v: string)
    requires st.Some? ==> Enumerates(order, st.value.params)
    ensures st.None? ==> v == ""
    ensures st.Some? && key in st.value.params ==> v == st.value.params[key]
    ensures st.Some? && key !in st.value.params && (exists k :: k in st.value.params && Extends(k, key)) ==>
      exists k :: k in st.value.params && Extends(k, key) && v == st.value.params[k]
    ensures st.Some? && key !in st.value.params && (forall k :: k in st.value.params ==> !Extends(k, key)) ==>
      v == (if '.' in key && BaseKey(key) in st.value.params then st.value.params[BaseKey(key)] else "")
  {
    if st.None? then ""
    else
      var m := st.value.params;
      if key in m then m[key]
      else
        var hit := PrefixScan(m, order, key);
        if hit.Some? then hit.value
        else
          PrefixScanComplete(m, order, key);
          var i := IndexOf(key, '.');
          if i != -1 && key[..i] in m then m[key[..i]] else ""
  }

  /** Which of several extending keys answers is up to the map's walk
      order: any of them wins when the walk meets it first. */
  lemma AnyExtensionCanWin(st: State, key: string, k: string, rest: seq<string>)
    requires key !in st.params && k in st.params && Extends(k, key)
    requires Enumerates([k] + rest, st.params)
    ensures Param(Some(st), key, [k] + rest) == st.params[k]
  {
  }

  /** A route registered as `:name.json` is served by gin's router under
      `name` (see `PreparePath`); `Param(r, "name.json")` still finds the
      value through the text before the dot. */
  lemma ParamFindsBase(st: State, base: string, ext: string, order: seq<string>)
    requires '.' !in base && ext != [] && ext[0] == '.'
    requires Enumerates(order, st.params)
    requires base in st.params && base + ext !in st.params
    requires forall k :: k in st.params ==> !Extends(k, base + ext)
    ensures Param(Some(st), base + ext, order) == st.params[base]
  {
    var key := base + ext;
    assert key[|base|] == '.' && key[..|base|] == base;
    assert IndexOf(key, '.') == |base|;
  }

  // ---------------------------------------------------------------------
  // ServeHTTP

  /** The state `ServeHTTP` hands to gin: the request's state when it has
      one, otherwise an empty one; a body not yet cached is captured for a
      request that is not a GET and whose body is neither nil nor
      `http.NoBody`. */
  function EntryState(existing: Option<State>, verb: string, req: RequestBody): (s: State)
    ensures s.params == (if existing.Some? then existing.value.params else map[])
    ensures existing.Some? && existing.value.body.Some? ==> s.body == existing.value.body
    ensures existing.None? || existing.value.body.None? ==>
      (s.body.Some? <==> verb != "GET" && req.Content?) && (s.body.Some? ==> s.body.value == req.bytes)
  {
    var st := if existing.Some? then existing.value else State(map[], None);
    if st.body.None? && verb != "GET" then State(st.params, ReadBody(req)) else st
  }

  // ---------------------------------------------------------------------
  // preparePath: the path handed to gin's own router

  /** A `:` segment cut at its first dot; other segments are kept. */
  function CutParam(seg: string): (r: string)
    ensures r <= seg
    ensures HasPrefix(seg, ":") ==> '.' !in r && HasPrefix(r, ":") && (|r| < |seg| ==> seg[|r|] == '.')
    ensures !HasPrefix(seg, ":") ==> r == seg
  {
    if HasPrefix(seg, ":") && '.' in seg then seg[..IndexOf(seg, '.')] else seg
  }

  function CutAll(segs: seq<string>): (r: seq<string>)
    ensures |r| == |segs|
    ensures forall i :: 0 <= i < |segs| ==> r[i] == CutParam(segs[i])
  {
    seq(|segs|, i requires 0 <= i < |segs| => CutParam(segs[i]))
  }

  /** The gin path of a route and its wildcard name (`""` when none). */
  function PreparePath(path: string): (string, string)
  {
    var idx := IndexOf(path, '*');
    if idx != -1 then
      var name := if path[idx + 1..] == "" then "any" else path[idx + 1..];
      (path[..idx] + "*" + name, name)
    else
      (Join(CutAll(Split(path, '/')), '/'), "")
  }

  /** On a path whose first `*` is at `i`: the text before it, the star and
      the wildcard name, which is the text after the star or `any`. */
  lemma PreparePathWildcard(path: string, i: nat)
    requires i < |path| && path[i] == '*' && '*' !in path[..i]
    ensures PreparePath(path).1 == (if path[i + 1..] == "" then "any" else path[i + 1..])
    ensures PreparePath(path).0 == path[..i] + "*" + PreparePath(path).1
    ensures PreparePath(path).1 != ""
  {
  }

  /** On a path without `*`: no wildcard name, the same number of segments,
      each `:` segment cut just before its first dot, every other segment
      kept. */
  lemma PreparePathSegments(path: string)
    requires '*' !in path
    ensures PreparePath(path).1 == ""
    ensures |Split(PreparePath(path).0, '/')| == |Split(path, '/')|
    ensures forall i :: 0 <= i < |Split(path, '/')| ==>
      var seg, out := Split(path, '/')[i], Split(PreparePath(path).0, '/')[i];
      out <= seg
      && (HasPrefix(seg, ":") ==> '.' !in out && HasPrefix(out, ":") && (|out| < |seg| ==> seg[|out|] == '.'))
      && (!HasPrefix(seg, ":") ==> out == seg)
  {
    var segs := Split(path, '/');
    var cut := CutAll(segs);
    forall i | 0 <= i < |cut|
      ensures '/' !in cut[i]
    {
      assert cut[i] <= segs[i];
    }
    JoinSplit(cut, '/');
  }

  // ---------------------------------------------------------------------
  // The adapter and its groups

  /** A route for gin's own router: its gin path and wildcard name. */
  datatype NativeRoute = NativeRoute(ginPath: string, wildcard: string, route: Route)

  function Prepare(r: Route): NativeRoute
  {
    NativeRoute(PreparePath(r.path).0, PreparePath(r.path).1, r)
  }

  /** The loop of `registerAll` that hands the native routes to gin. */
  method PrepareAll(rs: seq<Route>) returns (ns: seq<NativeRoute>)
    ensures ns == Prepared(rs)
  {
    ns := [];
    for i := 0 to |rs|
      invariant |ns| == i
      invariant forall j :: 0 <= j < i ==> ns[j] == Prepare(rs[j])
    {
      ns := ns + [Prepare(rs[i])];
    }
  }

  /** The last loop of `registerAll`: every zone deployed, in whatever order
      the map is walked, until one of them does not compile. */
  method DeployAll(raw: map<string, seq<Route>>) returns (zones: map<string, seq<Entry>>, ok: bool)
    ensures ok <==> forall b :: b in raw ==> DeployZone(raw[b], false).Some?
    ensures ok ==> zones.Keys == raw.Keys
    ensures ok ==> forall b :: b in zones ==> DeployZone(raw[b], false) == Some(zones[b])
  {
    zones := map[];
    ok := true;
    var todo := raw.Keys;
    while todo != {} && ok
      invariant todo <= raw.Keys
      invariant ok ==> zones.Keys == raw.Keys - todo
      invariant ok ==> forall b :: b in zones ==> DeployZone(raw[b], false) == Some(zones[b])
      invariant !ok ==> exists b :: b in raw && DeployZone(raw[b], false).None?
      decreases |todo|
    {
      var b :| b in todo;
      var z := DeployZone(raw[b], false);
      if z.None? {
        ok := false;
      } else {
        zones := zones[b := z.value];
      }
      todo := todo - {b};
    }
  }

  /** The native routes as gin is given them, one per route, in order. */
  function Prepared(rs: seq<Route>): seq<NativeRoute>
  {
    seq(|rs|, i requires 0 <= i < |rs| => Prepare(rs[i]))
  }

  /** One gin adapter or group: its prefix, its middleware list, the route
      list it shares with every group of the same adapter, and the limit of
      the shadow cache. */
  class GinAdapter {
    var prefix: string
    var middlewares: seq<Middleware>
    const routes: RouteList
    var maxCacheSize: int
    const shadow: ShadowCache

    /** `NewGinAdapter`. */
    constructor()
      ensures prefix == "" && middlewares == [] && maxCacheSize == DefaultMaxShadowCacheSize
      ensures fresh(routes) && routes.entries == []
      ensures fresh(shadow) && shadow.cache == map[] && shadow.size == 0 && shadow.Valid()
    {
      prefix := "";
      middlewares := [];
      routes := new RouteList();
      maxCacheSize := DefaultMaxShadowCacheSize;
      shadow := new ShadowCache();
    }

    constructor Child(p: string, mws: seq<Middleware>, shared: RouteList, max: int, c: ShadowCache)
      ensures prefix == p && middlewares == mws && routes == shared && maxCacheSize == max && shadow == c
    {
      prefix := p;
      middlewares := mws;
      routes := shared;
      maxCacheSize := max;
      shadow := c;
    }

    method SetMaxShadowCacheSize(size: int)
      modifies this
      ensures maxCacheSize == size
      ensures prefix == old(prefix) && middlewares == old(middlewares)
    {
      maxCacheSize := size;
    }

    /** A group shares the route list and copies the middleware list, so a
        later `Use` on either side is invisible to the other. */
    method Group(p: string) returns (child: GinAdapter)
      ensures fresh(child)
      ensures child.prefix == GroupPrefix(prefix, p) && child.middlewares == middlewares
      ensures child.routes == routes && child.maxCacheSize == maxCacheSize && child.shadow == shadow
      ensures IsGroupPrefix(prefix) ==> IsGroupPrefix(child.prefix)
    {
      if IsGroupPrefix(prefix) {
        GroupPrefixShape(prefix, p);
      }
      child := new GinAdapter.Child(GroupPrefix(prefix, p), middlewares, routes, maxCacheSize, shadow);
    }

    method Use(mws: seq<Middleware>)
      modifies this
      ensures middlewares == old(middlewares) + mws
      ensures prefix == old(prefix) && maxCacheSize == old(maxCacheSize)
    {
      middlewares := middlewares + mws;
    }

    /** `register`: the full path, and the stack as it is now followed by
        the route's own middlewares. */
    method Register(verb: string, p: string, h: string, mws: seq<Middleware>)
      modifies routes
      ensures routes.entries == old(routes.entries) + [Route(verb, FullPath(prefix, p), h, middlewares + mws)]
      ensures IsGroupPrefix(prefix) ==> FullPath(prefix, p) != [] && FullPath(prefix, p)[0] == '/'
    {
      if IsGroupPrefix(prefix) {
        FullPathShape(prefix, p);
      }
      routes.Add(Route(verb, FullPath(prefix, p), h, middlewares + mws));
    }

    /** `registerAll`, run once before the first request: the routes no
        conflicting base covers go to gin's own router with their gin path,
        every shadow zone is sorted and compiled, and a pattern that does
        not compile stops the adapter (`regexp.MustCompile` panics). Every
        zone handler it installs answers from this adapter's one cache. */
    method RegisterAll() returns (assign: seq<Option<string>>, natives: seq<NativeRoute>,
                                  zones: map<string, seq<Entry>>, ok: bool, handlers: map<string, GinShadow>)
      ensures |assign| == |routes.entries|
      ensures forall j :: 0 <= j < |assign| && assign[j].Some? ==>
        Conflicting(routes.entries, assign[j].value) && Covers(assign[j].value, routes.entries[j].path)
      ensures forall j :: 0 <= j < |assign| && assign[j].None? ==>
        forall b :: Conflicting(routes.entries, b) ==> !Covers(b, routes.entries[j].path)
      ensures natives == Prepared(Placed(routes.entries, assign, None))
      ensures ok <==> forall j :: 0 <= j < |assign| && assign[j].Some? ==>
        DeployZone(Placed(routes.entries, assign, assign[j]), false).Some?
      ensures ok ==> forall b :: b in zones <==> exists j :: 0 <= j < |assign| && assign[j] == Some(b)
      ensures ok ==> forall b :: b in zones ==> DeployZone(Placed(routes.entries, assign, Some(b)), false) == Some(zones[b])
      ensures ok ==> handlers.Keys == zones.Keys
      ensures ok ==> forall b :: b in handlers ==> handlers[b].zone == zones[b] && handlers[b].shared == shadow
    {
      var rs := routes.entries;
      var native, raw, a := ShadowPlan.RegisterAll(rs);
      assign := a;
      natives := PrepareAll(native);
      zones, ok := DeployAll(raw);
      handlers := map[];
      if ok {
        handlers := InstallShadows(zones, shadow);
        forall j | 0 <= j < |assign| && assign[j].Some?
          ensures DeployZone(Placed(rs, assign, assign[j]), false).Some?
        {
          assert assign[j].value in raw;
        }
      } else {
        var b :| b in raw && DeployZone(raw[b], false).None?;
        var j :| 0 <= j < |rs| && assign[j] == Some(b);
        assert DeployZone(Placed(rs, assign, assign[j]), false).None?;
      }
    }
  }

  // ---------------------------------------------------------------------
  // Parameter merge

  /** `dispatchWithParams` up to the onion: a new state whose map is built
      from a copy of the prior one; the body is carried over. */
  method DispatchWithParams(st: State, e: Entry, path: string) returns (ns: State)
    ensures ns.params == ShadowParams(st.params, e.pat, path)
    ensures ns.body == st.body
  {
    var newParams := CopyParams(st.params);
    newParams := ApplyWrites(newParams, CaptureWrites(GroupsOf(e.pat, path)));
    ghost var m := newParams;
    if e.pat.wildcard != "" {
      var val := Lookup(newParams, e.pat.wildcard);
      newParams := newParams["*" := val];
      newParams := newParams["path" := val];
    }
    ApplyMirror(m, Lookup(m, e.pat.wildcard), e.pat.wildcard);
    ns := State(newParams, st.body);
  }

  /** `c.Param(name)` on gin's own parameter list: the first with that key. */
  function ByName(gps: seq<(string, string)>, name: string): (v: string)
    ensures (exists i :: 0 <= i < |gps| && gps[i].0 == name) ==>
      exists i :: 0 <= i < |gps| && gps[i].0 == name && v == gps[i].1 && forall j :: 0 <= j < i ==> gps[j].0 != name
    ensures (forall i :: 0 <= i < |gps| ==> gps[i].0 != name) ==> v == ""
  {
    if gps == [] then ""
    else if gps[0].0 == name then gps[0].1
    else
      var v := ByName(gps[1..], name);
      assert forall i :: 1 <= i < |gps| ==> gps[i] == gps[1..][i - 1];
      v
  }

  /** The parameters the last link of `createGinStack` hands on: the prior
      ones, gin's own parameters, then the wildcard's value mirrored. */
  function NativeParams(prior: Params, gps: seq<(string, string)>, wc: string): Params
  {
    Apply(Apply(prior, PairWrites(gps)), Mirror(ByName(gps, wc), wc))
  }

  /** The last link of `createGinStack` up to the handler call. */
  method NativeLink(st: State, gps: seq<(string, string)>, wc: string) returns (ns: State)
    ensures ns.params == NativeParams(st.params, gps, wc)
    ensures ns.body == st.body
  {
    var newParams := CopyParams(st.params);
    newParams := ApplyWrites(newParams, PairWrites(gps));
    ghost var m := newParams;
    if wc != "" {
      var val := ByName(gps, wc);
      newParams := newParams["*" := val];
      newParams := newParams["path" := val];
    }
    ApplyMirror(m, ByName(gps, wc), wc);
    ns := State(newParams, st.body);
  }

  /** Under a wildcard route `"*"` and `"path"` hold the value gin gives
      the wildcard; every other key holds its last value in gin's list, or
      its prior value when gin has none. */
  lemma NativeParamsAt(prior: Params, gps: seq<(string, string)>, wc: string, k: string)
    ensures wc != "" && (k == "*" || k == "path") ==>
      k in NativeParams(prior, gps, wc) && NativeParams(prior, gps, wc)[k] == ByName(gps, wc)
    ensures (wc == "" || (k != "*" && k != "path")) ==>
      (k in NativeParams(prior, gps, wc) <==> k in prior || LastWrite(PairWrites(gps), k).Some?)
      && (LastWrite(PairWrites(gps), k).Some? ==> NativeParams(prior, gps, wc)[k] == LastWrite(PairWrites(gps), k).value)
      && (LastWrite(PairWrites(gps), k).None? && k in prior ==> NativeParams(prior, gps, wc)[k] == prior[k])
  {
    ApplyAt(prior, PairWrites(gps), k);
    ApplyMirror(Apply(prior, PairWrites(gps)), ByName(gps, wc), wc);
  }

  // ---------------------------------------------------------------------
  // The shadow cache

  /** The handler `deployShadowRouter` installs for one zone: the zone in its
      sorted, compiled form, and the cache of the adapter, which every zone
      handler of the adapter shares. */
  class GinShadow {
    const zone: seq<Entry>
    const shared: ShadowCache

    /** The counter counts the cached entries, and each entry is what the
        zone that stored it resolves the key's request to. */
    ghost predicate Valid()
      reads shared
    {
      shared.Valid() && shared.size == |shared.cache|
    }

    constructor(z: seq<Entry>, c: ShadowCache)
      ensures zone == z && shared == c
    {
      zone := z;
      shared := c;
    }

    /** Lookup and first-match dispatch. A hit returns the cached entry,
        whichever zone stored it; a miss that matches empties a full cache,
        stores the entry and counts it. */
    method Lookup(verb: string, path: string, max: int) returns (r: Option<Entry>)
      requires Valid() && '|' !in verb
      modifies shared
      ensures Valid()
      ensures r == Answer(zone, old(shared.cache), verb, path)
      ensures CacheKey(verb, path) in old(shared.cache) ==>
        r == Resolve(old(shared.origin)[CacheKey(verb, path)], verb, path)
      ensures CacheKey(verb, path) in old(shared.cache) || r.None? ==>
        shared.cache == old(shared.cache) && shared.size == old(shared.size) && shared.origin == old(shared.origin)
      ensures CacheKey(verb, path) !in old(shared.cache) && r.Some? ==>
        if old(shared.size) >= max then
          shared.cache == map[CacheKey(verb, path) := r.value] && shared.size == 1
          && shared.origin == map[CacheKey(verb, path) := zone]
        else
          shared.cache == old(shared.cache)[CacheKey(verb, path) := r.value] && shared.size == old(shared.size) + 1
          && shared.origin == old(shared.origin)[CacheKey(verb, path) := zone]
      ensures old(shared.size) <= Bound(max) ==> shared.size <= Bound(max)
    {
      var key := CacheKey(verb, path);
      if key in shared.cache {
        CoherentHit(shared.origin, shared.cache, verb, path);
        return Some(shared.cache[key]);
      }
      var i := FindFirst(zone, verb, path);
      if i.None? {
        return None;
      }
      r := Some(zone[i.value]);
      if shared.size >= max {
        shared.cache := map[];
        shared.size := 0;
        shared.origin := map[];
      }
      CoherentStore(shared.origin, shared.cache, zone, verb, path, zone[i.value]);
      shared.cache := shared.cache[key := zone[i.value]];
      shared.origin := shared.origin[key := zone];
      shared.size := shared.size + 1;
    }

    /** The shadow handler: 404 when no route answers; otherwise the new
        state handed through the route's onion to its handler. */
    method Handle(st: State, verb: string, path: string, max: int) returns (reply: Reply)
      requires Valid() && '|' !in verb
      modifies shared
      ensures Valid()
      ensures Answer(zone, old(shared.cache), verb, path).None? ==> reply == NotFound
      ensures Answer(zone, old(shared.cache), verb, path).Some? ==>
        var e := Answer(zone, old(shared.cache), verb, path).value;
        reply == Served(e.route, State(ShadowParams(st.params, e.pat, path), st.body),
                        Exec(Nest(e.route.mws, Endpoint(e.route.handler))))
    {
      var r := Lookup(verb, path, max);
      if r.None? {
        return NotFound;
      }
      var e := r.value;
      var ns := DispatchWithParams(st, e, path);
      var h := Compose(e.route.mws, Endpoint(e.route.handler));
      reply := Served(e.route, ns, Exec(h));
    }
  }

  /** Two zones over one cache of size 1: the second zone's miss purges the
      entry the first zone stored, and the cache holds one entry. */
  method SharedPurge(zoneA: seq<Entry>, zoneB: seq<Entry>, c: ShadowCache, verb: string, pa: string, pb: string)
    requires c.cache == map[] && c.size == 0 && c.Valid() && '|' !in verb && pa != pb
    requires Resolve(zoneA, verb, pa).Some? && Resolve(zoneB, verb, pb).Some?
    modifies c
    ensures c.cache == map[CacheKey(verb, pb) := Resolve(zoneB, verb, pb).value] && c.size == 1
  {
    var a := new GinShadow(zoneA, c);
    var b := new GinShadow(zoneB, c);
    var ra := a.Lookup(verb, pa, 1);
    CacheKeyInjective(verb, pa, verb, pb);
    var rb := b.Lookup(verb, pb, 1);
  }

  /** The `a.engine.Any` calls of `registerAll`: one handler per zone, each
      over its own zone and the adapter's one cache. */
  method InstallShadows(zones: map<string, seq<Entry>>, c: ShadowCache) returns (hs: map<string, GinShadow>)
    ensures hs.Keys == zones.Keys
    ensures forall b :: b in hs ==> hs[b].zone == zones[b] && hs[b].shared == c
  {
    hs := map[];
    var todo := zones.Keys;
    while todo != {}
      invariant todo <= zones.Keys && hs.Keys == zones.Keys - todo
      invariant forall b :: b in hs ==> hs[b].zone == zones[b] && hs[b].shared == c
      decreases |todo|
    {
      var b :| b in todo;
      var h := new GinShadow(zones[b], c);
      hs := hs[b := h];
      todo := todo - {b};
    }
  }

  // ---------------------------------------------------------------------
  // The abort chain of createGinStack

  /** Gin's abort index: `Abort` moves the handler index there, past every
      handler; gin refuses longer chains. */
  const AbortIndex := 63

  /** A gin context running the chain `createGinStack` builds: one wrapper
      per middleware, then the final link that calls the handler. */
  class GinContext {
    const wrapped: seq<Middleware>
    const handler: string
    var index: int
    var aborted: bool
    var trace: seq<Event>

    constructor(mws: seq<Middleware>, h: string)
      ensures wrapped == mws && handler == h
      ensures index == -1 && !aborted && trace == []
    {
      wrapped := mws;
      handler := h;
      index := -1;
      aborted := false;
      trace := [];
    }

    /** `c.Next()`: the handlers after the current one, until the end of the
        chain or an abort. */
    method Next()
      requires |wrapped| + 1 < AbortIndex
      requires -1 <= index < |wrapped| && !aborted
      modifies this
      decreases 2 * (|wrapped| - index)
      ensures trace == old(trace) + Exec(Nest(wrapped[old(index) + 1..], Endpoint(handler)))
      ensures aborted <==> !AllPass(wrapped[old(index) + 1..])
      ensures index > |wrapped|
    {
      ghost var start := index;
      index := index + 1;
      while index <= |wrapped|
        invariant (index == start + 1 && trace == old(trace) && !aborted)
          || (index > |wrapped|
              && trace == old(trace) + Exec(Nest(wrapped[start + 1..], Endpoint(handler)))
              && (aborted <==> !AllPass(wrapped[start + 1..])))
        decreases if index <= |wrapped| then 1 else 0
      {
        Step(index);
        index := index + 1;
      }
    }

    /** Handler `i` of the chain: a wrapper runs its middleware with a next
        that records the call and continues the chain, and aborts when the
        middleware never called it; the final link calls the handler unless
        the chain was aborted. */
    method Step(i: int)
      requires |wrapped| + 1 < AbortIndex
      requires 0 <= i <= |wrapped| && index == i && !aborted
      modifies this
      decreases 2 * (|wrapped| - i) + 1
      ensures trace == old(trace) + Exec(Nest(wrapped[i..], Endpoint(handler)))
      ensures aborted <==> !AllPass(wrapped[i..])
      ensures index >= |wrapped|
    {
      if i == |wrapped| {
        if !aborted {
          trace := trace + [Reached(handler)];
        }
      } else {
        var calledNext := false;
        match wrapped[i] {
          case Pass(b, a) =>
            trace := trace + [Enter(b)];
            calledNext := true;
            Next();
            trace := trace + [Leave(a)];
          case Stop(t) =>
            trace := trace + [Halt(t)];
        }
        if !calledNext {
          aborted := true;
          index := AbortIndex;
        }
        PeelLayer(wrapped, i, handler);
      }
    }
  }

  lemma PeelLayer(mws: seq<Middleware>, i: nat, h: string)
    requires i < |mws|
    ensures Nest(mws[i..], Endpoint(h)) == Layer(mws[i], Nest(mws[i + 1..], Endpoint(h)))
    ensures AllPass(mws[i..]) <==> mws[i].Pass? && AllPass(mws[i + 1..])
  {
    assert mws[i..][1..] == mws[i + 1..];
    if AllPass(mws[i + 1..]) && mws[i].Pass? {
      forall j | 0 <= j < |mws[i..]|
        ensures mws[i..][j].Pass?
      {
        if j > 0 {
          assert mws[i..][j] == mws[i + 1..][j - 1];
        }
      }
    }
  }

  /** A request through a natively registered route: the handler runs
      exactly when every middleware called next, and the trace is the
      onion's. */
  method RunChain(mws: seq<Middleware>, h: string) returns (trace: seq<Event>)
    requires |mws| + 1 < AbortIndex
    ensures trace == Exec(Nest(mws, Endpoint(h)))
    ensures Reached(h) in trace <==> AllPass(mws)
  {
    var c := new GinContext(mws, h);
    c.Next();
    trace := c.trace;
    assert mws[0..] == mws;
    HandlerRunsIff(mws, h);
  }
}
