/** The fiber adapter: gin's group and path joining, one stable score sort
    over every route, fiber's own path syntax, and a `Param` that falls back
    to the catch-all value. */
module Fiber {
  import opened Text
  import opened TranswarpState
  import opened Onion
  import opened Routing
  import opened FiberShared
  import Gin

  // ---------------------------------------------------------------------
  // transformPathForFiber

  /** The first segment that starts with `*`, or `|parts|`. */
  function FirstStar(parts: seq<string>): (k: nat)
    ensures k <= |parts|
    ensures forall j :: 0 <= j < k ==> !HasPrefix(parts[j], "*")
    ensures k < |parts| ==> HasPrefix(parts[k], "*")
  {
    if parts == [] then 0
    else if HasPrefix(parts[0], "*") then 0
    else 1 + FirstStar(parts[1..])
  }

  /** The segments fiber is given: each segment before the first catch-all
      with its `:` name cut at the first dot, then a bare `*` for the
      catch-all, and nothing after it. */
  function FiberSegments(parts: seq<string>): (r: seq<string>)
  {
    var k := FirstStar(parts);
    seq(k, j requires 0 <= j < k => Gin.CutParam(parts[j])) + (if k < |parts| then ["*"] else [])
  }

  function FiberPath(path: string): string
  {
    Join(FiberSegments(Split(path, '/')), '/')
  }

  /** `transformPathForFiber`: the loop over the split segments, rewriting
      them in place and stopping at the first catch-all. */
  method TransformPathForFiber(path: string) returns (r: string)
    ensures r == FiberPath(path)
  {
    r := SegmentLoop(Split(path, '/'));
  }

  /** The loop itself, over the split segments. */
  method SegmentLoop(parts: seq<string>) returns (r: string)
    ensures r == Join(FiberSegments(parts), '/')
  {
    var segments := new string[|parts|](j requires 0 <= j < |parts| => parts[j]);
    for i := 0 to |parts|
      invariant Rewritten(parts, segments[..], i)
    {
      var seg := segments[i];
      ghost var before := segments[..];
      if HasPrefix(seg, ":") {
        var cut := CutAtDot(seg);
        segments[i] := cut;
        RewrittenStep(parts, before, i, segments[..]);
      } else if HasPrefix(seg, "*") {
        segments[i] := "*";
        r := JoinStar(segments, parts, i, before);
        return;
      } else {
        RewrittenKeep(parts, before, i);
      }
    }
    SegmentsOf(parts, segments[..], |parts|);
    r := Join(segments[..], '/');
  }

  /** The early return at the catch-all: the segments up to it, joined. */
  method JoinStar(segments: array<string>, parts: seq<string>, i: nat, ghost before: seq<string>) returns (r: string)
    requires i < |parts| && Rewritten(parts, before, i) && HasPrefix(parts[i], "*")
    requires segments.Length == |parts| && segments[..] == before[i := "*"]
    ensures r == Join(FiberSegments(parts), '/')
  {
    StarStop(parts, before, i, segments[..]);
    assert segments[..i + 1] == segments[..][..i + 1];
    r := Join(segments[..i + 1], '/');
  }

  /** The loop's state after `i` segments: those rewritten, none of them a
      catch-all, and the rest untouched. */
  ghost predicate Rewritten(parts: seq<string>, segs: seq<string>, i: nat)
  {
    && i <= |parts| && |segs| == |parts|
    && (forall j :: 0 <= j < i ==> !HasPrefix(parts[j], "*"))
    && (forall j :: 0 <= j < i ==> segs[j] == Gin.CutParam(parts[j]))
    && (forall j :: i <= j < |parts| ==> segs[j] == parts[j])
  }

  /** A `:` segment cut in place. */
  lemma RewrittenStep(parts: seq<string>, segs: seq<string>, i: nat, next: seq<string>)
    requires Rewritten(parts, segs, i) && i < |parts| && HasPrefix(parts[i], ":")
    requires next == segs[i := Gin.CutParam(parts[i])]
    ensures Rewritten(parts, next, i + 1)
  {
    assert parts[i][0] == ':';
  }

  /** A plain segment left as it is. */
  lemma RewrittenKeep(parts: seq<string>, segs: seq<string>, i: nat)
    requires Rewritten(parts, segs, i) && i < |parts|
    requires !HasPrefix(parts[i], ":") && !HasPrefix(parts[i], "*")
    ensures Rewritten(parts, segs, i + 1)
  {
  }

  /** The catch-all replaced by `*`: the loop's first `i + 1` segments are fiber's. */
  lemma StarStop(parts: seq<string>, segs: seq<string>, i: nat, next: seq<string>)
    requires Rewritten(parts, segs, i) && i < |parts| && HasPrefix(parts[i], "*")
    requires next == segs[i := "*"]
    ensures next[..i + 1] == FiberSegments(parts)
  {
    SegmentsOf(parts, next[..i + 1], i);
  }

  /** The body of the loop for a `:` segment: the name is cut at its first dot. */
  method CutAtDot(seg: string) returns (r: string)
    requires HasPrefix(seg, ":")
    ensures r == Gin.CutParam(seg)
  {
    r := seg;
    var dotIdx := IndexOf(seg, '.');
    if dotIdx != -1 {
      r := seg[..dotIdx];
    }
  }

  /** What the loop leaves once it stops, at the catch-all `i` or at the end. */
  lemma SegmentsOf(parts: seq<string>, done: seq<string>, i: nat)
    requires i <= |parts|
    requires forall j :: 0 <= j < i ==> !HasPrefix(parts[j], "*")
    requires i < |parts| ==> HasPrefix(parts[i], "*") && |done| == i + 1 && done[i] == "*"
    requires i == |parts| ==> |done| == i
    requires forall j :: 0 <= j < i ==> done[j] == Gin.CutParam(parts[j])
    ensures done == FiberSegments(parts)
  {
    FirstStarAt(parts, i);
  }

  lemma FirstStarAt(parts: seq<string>, i: nat)
    requires i <= |parts|
    requires forall j :: 0 <= j < i ==> !HasPrefix(parts[j], "*")
    requires i < |parts| ==> HasPrefix(parts[i], "*")
    ensures FirstStar(parts) == i
  {
  }

  /** Fiber's segments hold no `/`, so splitting the path fiber is given
      returns them. */
  lemma SplitFiberPath(path: string)
    ensures Split(FiberPath(path), '/') == FiberSegments(Split(path, '/'))
  {
    var parts := Split(path, '/');
    var segs := FiberSegments(parts);
    var k := FirstStar(parts);
    forall j | 0 <= j < |segs|
      ensures '/' !in segs[j]
    {
      if j < k {
        assert segs[j] == Gin.CutParam(parts[j]) <= parts[j];
        assert '/' !in parts[j];
      }
    }
    assert |segs| >= 1;
    JoinSplit(segs, '/');
  }

  /** The segments fiber is given: no `:` segment keeps a dot, a catch-all
      is a bare `*` and comes last, and every other segment is the route's own. */
  lemma SegmentsShape(parts: seq<string>)
    ensures var out := FiberSegments(parts);
      |out| <= |parts| &&
      (forall j :: 0 <= j < |out| && HasPrefix(out[j], ":") ==> '.' !in out[j]) &&
      (forall j :: 0 <= j < |out| && HasPrefix(out[j], "*") ==> out[j] == "*" && j == |out| - 1) &&
      (forall j :: 0 <= j < |out| && !HasPrefix(parts[j], ":") && !HasPrefix(parts[j], "*") ==> out[j] == parts[j])
  {
  }

  /** The same, read back from the path fiber is given. */
  lemma FiberPathShape(path: string)
    ensures var parts := Split(path, '/');
      var out := Split(FiberPath(path), '/');
      |out| <= |parts| &&
      (forall j :: 0 <= j < |out| && HasPrefix(out[j], ":") ==> '.' !in out[j]) &&
      (forall j :: 0 <= j < |out| && HasPrefix(out[j], "*") ==> out[j] == "*" && j == |out| - 1) &&
      (forall j :: 0 <= j < |out| && !HasPrefix(parts[j], ":") && !HasPrefix(parts[j], "*") ==> out[j] == parts[j])
  {
    SplitFiberPath(path);
    SegmentsShape(Split(path, '/'));
  }

  /** Rewriting a path fiber is already given changes nothing. */
  lemma FiberPathIdempotent(path: string)
    ensures FiberPath(FiberPath(path)) == FiberPath(path)
  {
    var parts := Split(path, '/');
    SplitFiberPath(path);
    SegmentsFixpoint(parts);
  }

  /** Fiber's segments are their own rewriting. */
  lemma SegmentsFixpoint(parts: seq<string>)
    ensures FiberSegments(FiberSegments(parts)) == FiberSegments(parts)
  {
    var segs := FiberSegments(parts);
    var k := FirstStar(parts);
    forall j | 0 <= j < k
      ensures !HasPrefix(segs[j], "*") && Gin.CutParam(segs[j]) == segs[j]
    {
      CutParamFixed(parts[j]);
    }
    FirstStarAt(segs, k);
    assert FiberSegments(segs) == segs;
  }

  /** A segment already cut is its own cut, and cutting never makes a `*`
      segment out of one that was not. */
  lemma CutParamFixed(seg: string)
    requires !HasPrefix(seg, "*")
    ensures !HasPrefix(Gin.CutParam(seg), "*") && Gin.CutParam(Gin.CutParam(seg)) == Gin.CutParam(seg)
  {
  }

  // ---------------------------------------------------------------------
  // Param

  /** `Param`: the exact key; then the catch-all value under `*`, whatever
      the key asked for; then, for a dotted key, the value under the text
      before the dot (`""` when absent); otherwise `""`. */
  function Param(st: Option<State>, key: string): (v: string)
    ensures st.None? ==> v == ""
    ensures st.Some? && key in st.value.params ==> v == st.value.params[key]
    ensures st.Some? && key !in st.value.params && "*" in st.value.params ==> v == st.value.params["*"]
    ensures st.Some? && key !in st.value.params && "*" !in st.value.params ==>
      v == (if '.' in key then Lookup(st.value.params, key[..IndexOf(key, '.')]) else "")
  {
    if st.None? then ""
    else
      var m := st.value.params;
      if key in m then m[key]
      else if "*" in m then m["*"]
      else if '.' in key then Lookup(m, key[..IndexOf(key, '.')])
      else ""
  }

  /** On a catch-all route, every key the route did not capture answers the
      catch-all value: `Param(r, "id")` gives the rest of the path. */
  lemma CatchAllAnswersEveryKey(prior: Option<Params>, ps: seq<(string, string)>, name: string, raw: string,
                                 qs: map<string, string>, body: Option<seq<Byte>>, key: string)
    requires HasPrefix(name, "*") && raw != "" && "*" !in qs
    requires key !in SyncParams(prior, ps + [(name, raw)], qs)
    ensures Param(Some(State(SyncParams(prior, ps + [(name, raw)], qs), body)), key) == PathValue(raw)
  {
    WildcardMirrored(prior, ps, name, raw, qs, "*");
  }

  /** Without a catch-all value, `Param("name.json")` finds the value stored
      under `name`. */
  lemma ParamFindsBase(st: State, base: string, ext: string)
    requires '.' !in base && ext != [] && ext[0] == '.'
    requires base + ext !in st.params && "*" !in st.params
    ensures Param(Some(st), base + ext) == Lookup(st.params, base)
  {
    var key := base + ext;
    assert key[|base|] == '.' && key[..|base|] == base;
    assert IndexOf(key, '.') == |base|;
  }

  // ---------------------------------------------------------------------
  // The adapter

  /** A route as `registerAll` hands it to fiber: its method, fiber's path
      and the composed onion. */
  datatype FiberRoute = FiberRoute(verb: string, path: string, onion: Handler)

  function Installed(r: Route): FiberRoute
  {
    FiberRoute(r.verb, FiberPath(r.path), Nest(r.mws, Endpoint(r.handler)))
  }

  class FiberAdapter {
    var prefix: string
    var middlewares: seq<Middleware>
    const routes: RouteList

    /** `NewFiberAdapter`. */
    constructor()
      ensures prefix == "" && middlewares == [] && fresh(routes) && routes.entries == []
    {
      prefix := "";
      middlewares := [];
      routes := new RouteList();
    }

    constructor Child(p: string, mws: seq<Middleware>, shared: RouteList)
      ensures prefix == p && middlewares == mws && routes == shared
    {
      prefix := p;
      middlewares := mws;
      routes := shared;
    }

    /** `Group`: the gin-style prefix and a copy of the middleware list; the
        route list is shared. */
    method Group(p: string) returns (child: FiberAdapter)
      ensures fresh(child)
      ensures child.prefix == GroupPrefix(prefix, p) && child.middlewares == middlewares && child.routes == routes
      ensures IsGroupPrefix(prefix) ==> IsGroupPrefix(child.prefix)
    {
      if IsGroupPrefix(prefix) {
        GroupPrefixShape(prefix, p);
      }
      child := new FiberAdapter.Child(GroupPrefix(prefix, p), middlewares, routes);
    }

    method Use(mws: seq<Middleware>)
      modifies this
      ensures middlewares == old(middlewares) + mws && prefix == old(prefix)
    {
      middlewares := middlewares + mws;
    }

    /** `register`: the joined full path, and a fresh stack of the group's
        middlewares followed by the route's own. */
    method Register(verb: string, p: string, h: string, mws: seq<Middleware>)
      modifies routes
      ensures routes.entries == old(routes.entries) + [Route(verb, FullPath(prefix, p), h, middlewares + mws)]
      ensures IsGroupPrefix(prefix) ==> FullPath(prefix, p) != [] && FullPath(prefix, p)[0] == '/'
    {
      if IsGroupPrefix(prefix) {
        FullPathShape(prefix, p);
      }
      var stack := middlewares;
      stack := stack + mws;
      routes.Add(Route(verb, FullPath(prefix, p), h, stack));
    }

    /** `registerAll`: every route, sorted by score (static, then parameter,
        then catch-all, each in registration order), goes to fiber with its
        rewritten path and its onion. The shared list stays sorted. */
    method RegisterAll() returns (installed: seq<FiberRoute>)
      modifies routes
      ensures routes.entries == SortByScore(old(routes.entries))
      ensures multiset(routes.entries) == multiset(old(routes.entries)) && ScoreSorted(routes.entries)
      ensures |installed| == |routes.entries|
      ensures forall i :: 0 <= i < |installed| ==> installed[i] == Installed(routes.entries[i])
    {
      SortByScoreSpec(routes.entries);
      routes.entries := SortByScore(routes.entries);
      installed := InstallAll(routes.entries);
    }
  }

  /** The registration loop of `registerAll`, over the sorted routes. */
  method InstallAll(rs: seq<Route>) returns (installed: seq<FiberRoute>)
    ensures |installed| == |rs|
    ensures forall i :: 0 <= i < |rs| ==> installed[i] == Installed(rs[i])
  {
    installed := [];
    for i := 0 to |rs|
      invariant |installed| == i
      invariant forall j :: 0 <= j < i ==> installed[j] == Installed(rs[j])
    {
      var r := rs[i];
      var fiberPath := TransformPathForFiber(r.path);
      var finalHandler := Compose(r.mws, Endpoint(r.handler));
      installed := installed + [FiberRoute(r.verb, fiberPath, finalHandler)];
    }
  }
}
