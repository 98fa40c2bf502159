/** The echo adapter: the same route list, conflict plan and shadow zones as
    gin, with its own `Param` loop, `joinPaths` groups, a fresh state per
    request, the `wrap` merge that serves native and shadow routes alike,
    and a cache that counts before it stores. */
module Echo {
  import opened Text
  import opened TranswarpState
  import opened Onion
  import opened Routing
  import opened Pattern
  import opened PatternFacts
  import opened ShadowPlan
  import opened ShadowDispatch
  import Gin

  const DefaultMaxShadowCacheSize := 10000

  // ---------------------------------------------------------------------
  // Param

  /** The walk of echo's `Param`, which also tests the exact key. */
  function PrefixScan(m: Params, order: seq<string>, key: string): (r: Option<string>)
    ensures r.Some? ==>
      exists i :: 0 <= i < |order| && order[i] in m && (order[i] == key || Gin.Extends(order[i], key)) && r.value == m[order[i]]
    ensures r.None? ==> forall i :: 0 <= i < |order| && order[i] in m ==> order[i] != key && !Gin.Extends(order[i], key)
  {
    if order == [] then None
    else if order[0] in m && (order[0] == key || Gin.Extends(order[0], key)) then Some(m[order[0]])
    else PrefixScan(m, order[1..], key)
  }

  /** `Param`: the exact key, then a key equal to or extending `key` in walk
      order, then the key's text before its first dot, otherwise `""`. */
  function Param(st: Option<State>, key: string, order: seq<string>): (v: string)
    requires st.Some? ==> Gin.Enumerates(order, st.value.params)
  {
    if st.None? then ""
    else
      var m := st.value.params;
      if key in m then m[key]
      else
        var hit := PrefixScan(m, order, key);
        if hit.Some? then hit.value
        else
          var i := IndexOf(key, '.');
          if i != -1 && key[..i] in m then m[key[..i]] else ""
  }

  /** Once the exact key is absent, the loop's `k == key` test never fires:
      echo's walk is gin's, and so is the whole lookup. */
  lemma {:induction false} PrefixScanIsGin(m: Params, order: seq<string>, key: string)
    requires key !in m
    ensures PrefixScan(m, order, key) == Gin.PrefixScan(m, order, key)
  {
    if order != [] {
      PrefixScanIsGin(m, order[1..], key);
    }
  }

  lemma ParamIsGin(st: Option<State>, key: string, order: seq<string>)
    requires st.Some? ==> Gin.Enumerates(order, st.value.params)
    ensures Param(st, key, order) == Gin.Param(st, key, order)
  {
    if st.Some? && key !in st.value.params {
      PrefixScanIsGin(st.value.params, order, key);
    }
  }

  // ---------------------------------------------------------------------
  // Groups and registration

  /** `Group("/api/")` on the root and `/health` give `/api/health`. */
  lemma GroupNormalization()
    ensures JoinPaths(JoinPaths("", "/api/"), "/health") == "/api/health"
  {
    assert TrimPrefix("/api/", "/") == "api/";
    assert JoinPaths("", "/api/") == "/api/";
    assert TrimSuffix("/api/", "/") == "/api";
    assert TrimPrefix("/health", "/") == "health";
  }

  /** One echo adapter or group. */
  class EchoAdapter {
    var prefix: string
    var middlewares: seq<Middleware>
    const routes: RouteList
    const maxCacheSize: int
    const shadow: ShadowCache

    /** `NewEchoAdapter`. */
    constructor()
      ensures prefix == "" && middlewares == [] && maxCacheSize == DefaultMaxShadowCacheSize
      ensures fresh(routes) && routes.entries == []
      ensures fresh(shadow) && shadow.cache == map[] && shadow.size == 0 && shadow.Valid()
    {
      prefix := "";
      middlewares := [];
      routes := new RouteList();
      maxCacheSize := DefaultMaxShadowCacheSize;
      shadow := new ShadowCache();
    }

    constructor Child(p: string, mws: seq<Middleware>, shared: RouteList, max: int, c: ShadowCache)
      ensures prefix == p && middlewares == mws && routes == shared && maxCacheSize == max && shadow == c
    {
      prefix := p;
      middlewares := mws;
      routes := shared;
      maxCacheSize := max;
      shadow := c;
    }

    /** A group joins its prefix to the parent's, shares the route list and
        copies the middleware list. */
    method Group(p: string) returns (child: EchoAdapter)
      ensures fresh(child)
      ensures child.prefix == JoinPaths(prefix, p) && child.middlewares == middlewares
      ensures child.routes == routes && child.maxCacheSize == maxCacheSize && child.shadow == shadow
      ensures NoDoubleSlash(prefix) && NoDoubleSlash(p) ==> NoDoubleSlash(child.prefix)
    {
      if NoDoubleSlash(prefix) && NoDoubleSlash(p) {
        JoinPathsShape(prefix, p);
      }
      child := new EchoAdapter.Child(JoinPaths(prefix, p), middlewares, routes, maxCacheSize, shadow);
    }

    method Use(mws: seq<Middleware>)
      modifies this
      ensures middlewares == old(middlewares) + mws && prefix == old(prefix)
    {
      middlewares := middlewares + mws;
    }

    /** `register`: the joined path as it is, and the stack as it is now
        followed by the route's own middlewares. */
    method Register(verb: string, p: string, h: string, mws: seq<Middleware>)
      modifies routes
      ensures routes.entries == old(routes.entries) + [Route(verb, JoinPaths(prefix, p), h, middlewares + mws)]
    {
      routes.Add(Route(verb, JoinPaths(prefix, p), h, middlewares + mws));
    }

    /** `registerAll`: the routes no conflicting base covers go to echo's
        router as they are; every zone is sorted and compiled, and a
        pattern that does not compile stops the adapter. Every zone handler
        answers from this adapter's one cache. */
    method RegisterAll() returns (assign: seq<Option<string>>, natives: seq<Route>,
                                  zones: map<string, seq<Entry>>, ok: bool, handlers: map<string, EchoShadow>)
      ensures |assign| == |routes.entries|
      ensures forall j :: 0 <= j < |assign| && assign[j].Some? ==>
        Conflicting(routes.entries, assign[j].value) && Covers(assign[j].value, routes.entries[j].path)
      ensures forall j :: 0 <= j < |assign| && assign[j].None? ==>
        forall b :: Conflicting(routes.entries, b) ==> !Covers(b, routes.entries[j].path)
      ensures natives == Placed(routes.entries, assign, None)
      ensures ok <==> forall j :: 0 <= j < |assign| && assign[j].Some? ==>
        DeployZone(Placed(routes.entries, assign, assign[j]), false).Some?
      ensures ok ==> forall b :: b in zones <==> exists j :: 0 <= j < |assign| && assign[j] == Some(b)
      ensures ok ==> forall b :: b in zones ==> DeployZone(Placed(routes.entries, assign, Some(b)), false) == Some(zones[b])
      ensures ok ==> handlers.Keys == zones.Keys
      ensures ok ==> forall b :: b in handlers ==> handlers[b].zone == zones[b] && handlers[b].shared == shadow
    {
      assign, natives, zones, ok := PlanAndDeploy(routes.entries);
      handlers := map[];
      if ok {
        handlers := InstallShadows(zones, shadow);
      }
    }
  }

  /** The body of `registerAll` over the registered routes: the plan, then
      every zone compiled; it fails when one zone does not compile. */
  method PlanAndDeploy(rs: seq<Route>) returns (assign: seq<Option<string>>, natives: seq<Route>,
                                                zones: map<string, seq<Entry>>, ok: bool)
    ensures |assign| == |rs|
    ensures forall j :: 0 <= j < |assign| && assign[j].Some? ==>
      Conflicting(rs, assign[j].value) && Covers(assign[j].value, rs[j].path)
    ensures forall j :: 0 <= j < |assign| && assign[j].None? ==>
      forall b :: Conflicting(rs, b) ==> !Covers(b, rs[j].path)
    ensures natives == Placed(rs, assign, None)
    ensures ok <==> forall j :: 0 <= j < |assign| && assign[j].Some? ==>
      DeployZone(Placed(rs, assign, assign[j]), false).Some?
    ensures ok ==> forall b :: b in zones <==> exists j :: 0 <= j < |assign| && assign[j] == Some(b)
    ensures ok ==> forall b :: b in zones ==> DeployZone(Placed(rs, assign, Some(b)), false) == Some(zones[b])
  {
    var raw;
    natives, raw, assign := ShadowPlan.RegisterAll(rs);
    zones, ok := Gin.DeployAll(raw);
    if ok {
      forall j | 0 <= j < |assign| && assign[j].Some?
        ensures DeployZone(Placed(rs, assign, assign[j]), false).Some?
      {
        assert assign[j].value in raw;
      }
    } else {
      var b :| b in raw && DeployZone(raw[b], false).None?;
      var j :| 0 <= j < |rs| && assign[j] == Some(b);
      assert DeployZone(Placed(rs, assign, assign[j]), false).None?;
    }
  }

  /** The group isolation scenario: middleware used on `/admin` reaches its
      route and neither the root nor the sibling `/public`. */
  method GroupIsolation(root: EchoAdapter, mw: Middleware) returns (admin: EchoAdapter, public: EchoAdapter)
    modifies root.routes
    ensures root.middlewares == old(root.middlewares)
    ensures admin.middlewares == root.middlewares + [mw] && public.middlewares == root.middlewares
    ensures root.routes.entries == old(root.routes.entries) + [
      Route("GET", JoinPaths(JoinPaths(root.prefix, "/admin"), "/dashboard"), "dashboard", root.middlewares + [mw]),
      Route("GET", JoinPaths(JoinPaths(root.prefix, "/public"), "/home"), "home", root.middlewares)]
  {
    admin := root.Group("/admin");
    admin.Use([mw]);
    admin.Register("GET", "/dashboard", "dashboard", []);
    public := root.Group("/public");
    public.Register("GET", "/home", "home", []);
    assert admin.middlewares + [] == admin.middlewares;
    assert public.middlewares + [] == public.middlewares;
  }

  // ---------------------------------------------------------------------
  // wrap

  /** The parameters `wrap` hands on: the prior ones, echo's path values,
      and for a shadow entry (one with a pattern) its captures and the
      mirrored wildcard. */
  function WrapParams(prior: Params, pathValues: seq<(string, string)>, pat: Option<Compiled>, path: string): Params
  {
    var m := Apply(prior, PairWrites(pathValues));
    if pat.None? then m else ShadowParams(m, pat.value, path)
  }

  /** `wrap`: the new state, and the run of the route's onion. */
  method Wrap(st: State, pathValues: seq<(string, string)>, pat: Option<Compiled>, path: string, r: Route)
    returns (ns: State, trace: seq<Event>)
    ensures ns == State(WrapParams(st.params, pathValues, pat, path), st.body)
    ensures trace == Exec(Nest(r.mws, Endpoint(r.handler)))
  {
    var newParams := CopyParams(st.params);
    newParams := ApplyWrites(newParams, PairWrites(pathValues));
    if pat.Some? {
      ghost var m0 := newParams;
      newParams := ApplyWrites(newParams, CaptureWrites(GroupsOf(pat.value, path)));
      ghost var m := newParams;
      var wc := pat.value.wildcard;
      if wc != "" {
        var val := Lookup(newParams, wc);
        newParams := newParams["*" := val];
        newParams := newParams["path" := val];
      }
      ApplyMirror(m, Lookup(m, wc), wc);
    }
    ns := State(newParams, st.body);
    var h := Compose(r.mws, Endpoint(r.handler));
    trace := Exec(h);
  }

  /** A native route keeps exactly what echo's router put in: no mirror. */
  lemma WrapNative(prior: Params, pathValues: seq<(string, string)>, path: string, k: string)
    ensures k in WrapParams(prior, pathValues, None, path) <==> k in prior || LastWrite(PairWrites(pathValues), k).Some?
    ensures LastWrite(PairWrites(pathValues), k).None? && k in prior ==> WrapParams(prior, pathValues, None, path)[k] == prior[k]
  {
    ApplyAt(prior, PairWrites(pathValues), k);
  }

  /** A one-parameter shadow route: the route's key gets the value on top
      of whatever echo's own wildcard route put in. */
  lemma WrapParamRoute(prior: Params, pathValues: seq<(string, string)>, dir: string, name: string, tail: string, v: string)
    requires '_' !in name && v != [] && '/' !in v
    ensures WrapParams(prior, pathValues, Some(Compiled(Lits(dir) + [Cap(SafeName(name))] + Lits(tail), "")), dir + v + tail)
      == Apply(prior, PairWrites(pathValues))[name := v]
  {
    ShadowParamRoute(Apply(prior, PairWrites(pathValues)), dir, name, tail, v);
  }

  /** The deep nesting scenario: four nested groups, one middleware each, a
      route with a fifth of its own; a handler that writes `X` gives `(1(2(3(4(5X5)4)3)2)1)`. */
  method DeepNesting(root: EchoAdapter, x: string) returns (trace: seq<Event>)
    requires root.middlewares == []
    modifies root.routes
    ensures Render(trace) == "(1(2(3(4(5" + x + "5)4)3)2)1)"
  {
    var g1 := root.Group("/g1");
    g1.Use([Pass("(1", "1)")]);
    var g2 := g1.Group("/g2");
    g2.Use([Pass("(2", "2)")]);
    var g3 := g2.Group("/g3");
    g3.Use([Pass("(3", "3)")]);
    var g4 := g3.Group("/g4");
    g4.Use([Pass("(4", "4)")]);
    assert g4.middlewares == [Pass("(1", "1)"), Pass("(2", "2)"), Pass("(3", "3)"), Pass("(4", "4)")];
    g4.Register("GET", "/end", x, [Pass("(5", "5)")]);
    var r := g4.routes.entries[|g4.routes.entries| - 1];
    assert r.mws == OnionLayers();
    var h := Compose(r.mws, Endpoint(r.handler));
    trace := Exec(h);
    DeepOnion(x);
  }

  /** The five layers the deep nesting scenario stacks, outermost first. */
  function OnionLayers(): seq<Middleware>
  {
    [Pass("(1", "1)"), Pass("(2", "2)"), Pass("(3", "3)"), Pass("(4", "4)"), Pass("(5", "5)")]
  }

  lemma DeepOnion(x: string)
    ensures Render(Exec(Nest(OnionLayers(), Endpoint(x)))) == "(1(2(3(4(5" + x + "5)4)3)2)1)"
  {
    FiveLayers("(1", "1)", "(2", "2)", "(3", "3)", "(4", "4)", "(5", "5)", x);
    Regroup("(1", "(2", "(3", "(4", "(5", x, "5)", "4)", "3)", "2)", "1)");
    assert "(1" + "(2" + "(3" + "(4" + "(5" == "(1(2(3(4(5";
    assert "5)" + "4)" + "3)" + "2)" + "1)" == "5)4)3)2)1)";
  }

  lemma Regroup(b1: string, b2: string, b3: string, b4: string, b5: string, x: string,
                a5: string, a4: string, a3: string, a2: string, a1: string)
    ensures b1 + b2 + b3 + b4 + b5 + x + a5 + a4 + a3 + a2 + a1
      == (b1 + b2 + b3 + b4 + b5) + x + (a5 + a4 + a3 + a2 + a1)
  {
  }

  /** Five passing layers around a handler write their `before` texts
      outermost first, the handler, then the `after` texts innermost first. */
  lemma FiveLayers(b1: string, a1: string, b2: string, a2: string, b3: string, a3: string,
                   b4: string, a4: string, b5: string, a5: string, x: string)
    ensures Render(Exec(Nest([Pass(b1, a1), Pass(b2, a2), Pass(b3, a3), Pass(b4, a4), Pass(b5, a5)], Endpoint(x))))
      == b1 + b2 + b3 + b4 + b5 + x + a5 + a4 + a3 + a2 + a1
  {
    var h5 := Layer(Pass(b5, a5), Endpoint(x));
    var h4 := Layer(Pass(b4, a4), h5);
    var h3 := Layer(Pass(b3, a3), h4);
    var h2 := Layer(Pass(b2, a2), h3);
    var h1 := Layer(Pass(b1, a1), h2);
    NestFive(Pass(b1, a1), Pass(b2, a2), Pass(b3, a3), Pass(b4, a4), Pass(b5, a5), Endpoint(x));
    assert Render(Exec(Endpoint(x))) == x by {
      assert Render([Reached(x)]) == x + Render([]);
    }
    RenderPass(b5, a5, Endpoint(x));
    RenderPass(b4, a4, h5);
    RenderPass(b3, a3, h4);
    RenderPass(b2, a2, h3);
    RenderPass(b1, a1, h2);
    FlattenFive(b1, a1, b2, a2, b3, a3, b4, a4, b5, a5, x, Render(Exec(h1)), Render(Exec(h2)),
                Render(Exec(h3)), Render(Exec(h4)), Render(Exec(h5)));
  }

  /** Five nested renderings, written out flat. */
  lemma FlattenFive(b1: string, a1: string, b2: string, a2: string, b3: string, a3: string,
                    b4: string, a4: string, b5: string, a5: string, x: string,
                    r1: string, r2: string, r3: string, r4: string, r5: string)
    requires r5 == b5 + x + a5 && r4 == b4 + r5 + a4 && r3 == b3 + r4 + a3
    requires r2 == b2 + r3 + a2 && r1 == b1 + r2 + a1
    ensures r1 == b1 + b2 + b3 + b4 + b5 + x + a5 + a4 + a3 + a2 + a1
  {
    WrapFlat(b4, b5, x, a5, a4);
    WrapFlat(b3, b4 + b5, x, a5 + a4, a3);
    WrapFlat(b2, b3 + (b4 + b5), x, a5 + a4 + a3, a2);
    WrapFlat(b1, b2 + (b3 + (b4 + b5)), x, a5 + a4 + a3 + a2, a1);
    Assoc5(b1, b2, b3, b4, b5);
    Assoc5(a5, a4, a3, a2, a1);
  }

  /** Five middlewares nest as five layers, the first outermost. */
  lemma NestFive(m1: Middleware, m2: Middleware, m3: Middleware, m4: Middleware, m5: Middleware, h: Handler)
    ensures Nest([m1, m2, m3, m4, m5], h) == Layer(m1, Layer(m2, Layer(m3, Layer(m4, Layer(m5, h)))))
  {
    assert Nest([m5], h) == Layer(m5, h) by {
      assert [m5][1..] == [];
    }
    assert Nest([m4, m5], h) == Layer(m4, Nest([m5], h)) by {
      assert [m4, m5][1..] == [m5];
    }
    assert Nest([m3, m4, m5], h) == Layer(m3, Nest([m4, m5], h)) by {
      assert [m3, m4, m5][1..] == [m4, m5];
    }
    assert Nest([m2, m3, m4, m5], h) == Layer(m2, Nest([m3, m4, m5], h)) by {
      assert [m2, m3, m4, m5][1..] == [m3, m4, m5];
    }
    assert [m1, m2, m3, m4, m5][1..] == [m2, m3, m4, m5];
  }

  /** A passing layer writes its `before` text, what it wraps, its `after` text. */
  lemma RenderPass(b: string, a: string, h: Handler)
    ensures Render(Exec(Layer(Pass(b, a), h))) == b + Render(Exec(h)) + a
  {
    var inner := Exec(h);
    RenderAppend([Enter(b)] + inner, [Leave(a)]);
    RenderAppend([Enter(b)], inner);
    assert Render([Leave(a)]) == a + Render([]);
    assert Render([Enter(b)]) == b + Render([]);
  }

  /** One more layer around a rendered core: `b + (p + x + q) + a`, flattened. */
  lemma WrapFlat(b: string, p: string, x: string, q: string, a: string)
    ensures b + (p + x + q) + a == (b + p) + x + (q + a)
  {
  }

  lemma Assoc5(s1: string, s2: string, s3: string, s4: string, s5: string)
    ensures s1 + (s2 + (s3 + (s4 + s5))) == s1 + s2 + s3 + s4 + s5
  {
  }

  // ---------------------------------------------------------------------
  // The shadow cache counter

  /** The cache and its counter, as one value. */
  datatype Counter = Counter(cache: map<string, Entry>, size: int)

  /** The store of a miss as echo writes it: the counter is bumped first;
      past `max` the cache is replaced and the counter set to zero, and the
      entry is stored after that, uncounted. */
  function StoreAsWritten(c: Counter, key: string, e: Entry, max: int): (r: Counter)
    ensures key in r.cache && r.cache[key] == e
  {
    if c.size + 1 > max then Counter(map[key := e], 0)
    else Counter(c.cache[key := e], c.size + 1)
  }

  /** The counter stays within `max`, but the cache holds one entry more
      than it counts after every purge. */
  lemma StoreAsWrittenDrift(c: Counter, key: string, e: Entry, max: int)
    requires 0 <= max && 0 <= c.size <= max && |c.cache| <= c.size + 1 && key !in c.cache
    ensures 0 <= StoreAsWritten(c, key, e, max).size <= max
    ensures |StoreAsWritten(c, key, e, max).cache| <= StoreAsWritten(c, key, e, max).size + 1
    ensures c.size + 1 > max ==> |StoreAsWritten(c, key, e, max).cache| == StoreAsWritten(c, key, e, max).size + 1
  {
  }

  /** With `max` 1, three different misses leave two entries in the cache. */
  lemma StoreAsWrittenOverfills(e: Entry)
    ensures |StoreAsWritten(StoreAsWritten(StoreAsWritten(Counter(map[], 0), "a", e, 1), "b", e, 1), "c", e, 1).cache| == 2
  {
    var c1 := StoreAsWritten(Counter(map[], 0), "a", e, 1);
    assert c1 == Counter(map["a" := e], 1);
    var c2 := StoreAsWritten(c1, "b", e, 1);
    assert c2 == Counter(map["b" := e], 0);
    var c3 := StoreAsWritten(c2, "c", e, 1);
    assert c3.cache == map["b" := e, "c" := e];
    assert c3.cache.Keys == {"b", "c"};
  }

  /** The store as intended: a purge leaves the one new entry, counted. */
  function Store(c: Counter, key: string, e: Entry, max: int): (r: Counter)
    ensures key in r.cache && r.cache[key] == e
    ensures c.size + 1 > max ==> r.cache == map[key := e]
    ensures c.size + 1 <= max ==> r.cache == c.cache[key := e]
  {
    if c.size + 1 > max then Counter(map[key := e], 1)
    else Counter(c.cache[key := e], c.size + 1)
  }

  /** The counter counts the cache, and neither passes `Bound(max)`. */
  predicate Counts(c: Counter, max: int)
  {
    c.size == |c.cache| <= Bound(max)
  }

  lemma StoreCounts(c: Counter, key: string, e: Entry, max: int)
    requires Counts(c, max) && key !in c.cache
    ensures Counts(Store(c, key, e, max), max)
  {
  }

  /** The handler `deployShadowRouter` installs for one zone, over the
      adapter's one cache, with the store as echo writes it. */
  class EchoShadow {
    const zone: seq<Entry>
    const shared: ShadowCache

    /** The counter is never negative, and undercounts the cache by at
        most the one entry stored after the last purge. */
    ghost predicate Valid()
      reads shared
    {
      shared.Valid() && 0 <= shared.size && |shared.cache| <= shared.size + 1
    }

    constructor(z: seq<Entry>, c: ShadowCache)
      ensures zone == z && shared == c
    {
      zone := z;
      shared := c;
    }

    /** A hit returns the cached entry, whichever zone stored it; a miss
        that matches stores the entry by `StoreAsWritten`. */
    method Lookup(verb: string, path: string, max: int) returns (r: Option<Entry>)
      requires Valid() && '|' !in verb
      modifies shared
      ensures Valid()
      ensures r == Answer(zone, old(shared.cache), verb, path)
      ensures CacheKey(verb, path) in old(shared.cache) ==>
        r == Resolve(old(shared.origin)[CacheKey(verb, path)], verb, path)
      ensures CacheKey(verb, path) in old(shared.cache) || r.None? ==>
        shared.cache == old(shared.cache) && shared.size == old(shared.size) && shared.origin == old(shared.origin)
      ensures CacheKey(verb, path) !in old(shared.cache) && r.Some? ==>
        Counter(shared.cache, shared.size)
          == StoreAsWritten(Counter(old(shared.cache), old(shared.size)), CacheKey(verb, path), r.value, max)
      ensures CacheKey(verb, path) !in old(shared.cache) && r.Some? ==>
        shared.origin == (if old(shared.size) + 1 > max then map[] else old(shared.origin))[CacheKey(verb, path) := zone]
      ensures 0 <= max && old(shared.size) <= max ==> shared.size <= max
    {
      var key := CacheKey(verb, path);
      if key in shared.cache {
        CoherentHit(shared.origin, shared.cache, verb, path);
        return Some(shared.cache[key]);
      }
      var i := FindFirst(zone, verb, path);
      if i.None? {
        return None;
      }
      r := Some(zone[i.value]);
      shared.size := shared.size + 1;
      if shared.size > max {
        shared.cache := map[];
        shared.size := 0;
        shared.origin := map[];
      }
      CoherentStore(shared.origin, shared.cache, zone, verb, path, zone[i.value]);
      shared.cache := shared.cache[key := zone[i.value]];
      shared.origin := shared.origin[key := zone];
    }

    /** The zone's `Any` handler: 404 when nothing answers; otherwise
        `wrap` of the entry, fed echo's path values for the zone's
        catch-all route. */
    method Handle(st: State, pathValues: seq<(string, string)>, verb: string, path: string, max: int)
      returns (reply: Reply)
      requires Valid() && '|' !in verb
      modifies shared
      ensures Valid()
      ensures Answer(zone, old(shared.cache), verb, path).None? ==> reply == NotFound
      ensures Answer(zone, old(shared.cache), verb, path).Some? ==>
        var e := Answer(zone, old(shared.cache), verb, path).value;
        reply == Served(e.route, State(WrapParams(st.params, pathValues, Some(e.pat), path), st.body),
                        Exec(Nest(e.route.mws, Endpoint(e.route.handler))))
    {
      var r := Lookup(verb, path, max);
      if r.None? {
        return NotFound;
      }
      var e := r.value;
      var ns, trace := Wrap(st, pathValues, Some(e.pat), path, e.route);
      reply := Served(e.route, ns, trace);
    }
  }

  /** The `a.instance.Any` calls of `registerAll`: one handler per zone,
      each over its own zone and the adapter's one cache. */
  method InstallShadows(zones: map<string, seq<Entry>>, c: ShadowCache) returns (hs: map<string, EchoShadow>)
    ensures hs.Keys == zones.Keys
    ensures forall b :: b in hs ==> hs[b].zone == zones[b] && hs[b].shared == c
  {
    hs := map[];
    var todo := zones.Keys;
    while todo != {}
      invariant todo <= zones.Keys && hs.Keys == zones.Keys - todo
      invariant forall b :: b in hs ==> hs[b].zone == zones[b] && hs[b].shared == c
      decreases |todo|
    {
      var b :| b in todo;
      var h := new EchoShadow(zones[b], c);
      hs := hs[b := h];
      todo := todo - {b};
    }
  }
}
