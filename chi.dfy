/** The chi adapter: `:name` segments become `{name}` with any extension cut
    off, a catch-all becomes chi's `*` under a remembered name, and a
    `Param` that falls back to the text before the dot. */
module Chi {
  import opened Text
  import opened TranswarpState
  import opened Onion
  import opened Routing

  // ---------------------------------------------------------------------
  // transformPathForChi

  /** A parameter name cut at its first dot. */
  function CutDot(name: string): (r: string)
    ensures r <= name && '.' !in r
    ensures '.' !in name ==> r == name
  {
    if '.' in name then name[..IndexOf(name, '.')] else name
  }

  /** A `:name` segment as chi reads it. */
  function ChiSegment(seg: string): string
  {
    if HasPrefix(seg, ":") then "{" + CutDot(seg[1..]) + "}" else seg
  }

  function ChiSegments(parts: seq<string>): (out: seq<string>)
    ensures |out| == |parts|
    ensures forall i :: 0 <= i < |parts| ==> out[i] == ChiSegment(parts[i])
  {
    seq(|parts|, i requires 0 <= i < |parts| => ChiSegment(parts[i]))
  }

  /** The path with everything after its first `*` dropped. */
  function CutWildcard(path: string): string
  {
    if '*' in path then path[..IndexOf(path, '*')] + "*" else path
  }

  /** The name the catch-all value is stored under, `""` without one. */
  function WildcardName(path: string): string
  {
    if '*' in path then CatchAllName(path) else ""
  }

  /** `transformPathForChi`: chi's pattern and the catch-all's name. */
  function TransformPathForChi(path: string): (string, string)
  {
    (Join(ChiSegments(Split(CutWildcard(path), '/')), '/'), WildcardName(path))
  }

  method TransformLoop(path: string) returns (chiPath: string, wildcardName: string)
    ensures (chiPath, wildcardName) == TransformPathForChi(path)
  {
    var p := path;
    wildcardName := "";
    var idx := IndexOf(p, '*');
    if idx != -1 {
      wildcardName := p[idx + 1..];
      if wildcardName == "" {
        wildcardName := "any";
      }
      p := p[..idx] + "*";
    }
    chiPath := SegmentLoop(Split(p, '/'));
  }

  /** The segment loop, rewriting `:` segments in place. */
  method SegmentLoop(parts: seq<string>) returns (chiPath: string)
    ensures chiPath == Join(ChiSegments(parts), '/')
  {
    var segments := new string[|parts|](j requires 0 <= j < |parts| => parts[j]);
    for i := 0 to |parts|
      invariant Rewritten(parts, segments[..], i)
    {
      var seg := segments[i];
      ghost var before := segments[..];
      if HasPrefix(seg, ":") {
        segments[i] := RewriteParam(seg);
      }
      RewrittenStep(parts, before, i, segments[..]);
    }
    RewrittenAll(parts, segments[..]);
    chiPath := Join(segments[..], '/');
  }

  /** The loop's state after `i` segments: those rewritten, the rest untouched. */
  ghost predicate Rewritten(parts: seq<string>, segs: seq<string>, i: nat)
  {
    && i <= |parts| && |segs| == |parts|
    && (forall j :: 0 <= j < i ==> segs[j] == ChiSegment(parts[j]))
    && (forall j :: i <= j < |parts| ==> segs[j] == parts[j])
  }

  lemma RewrittenStep(parts: seq<string>, segs: seq<string>, i: nat, next: seq<string>)
    requires Rewritten(parts, segs, i) && i < |parts|
    requires next == segs[i := ChiSegment(parts[i])]
    ensures Rewritten(parts, next, i + 1)
  {
  }

  lemma RewrittenAll(parts: seq<string>, segs: seq<string>)
    requires Rewritten(parts, segs, |parts|)
    ensures segs == ChiSegments(parts)
  {
  }

  /** The body of the segment loop for a `:` segment. */
  method RewriteParam(seg: string) returns (r: string)
    requires HasPrefix(seg, ":")
    ensures r == ChiSegment(seg)
  {
    var paramPart := seg[1..];
    var dotIdx := IndexOf(paramPart, '.');
    if dotIdx != -1 {
      paramPart := paramPart[..dotIdx];
    }
    r := "{" + paramPart + "}";
  }

  /** A `:` segment keeps no dot once rewritten. */
  lemma NoDotLeft(seg: string)
    requires HasPrefix(seg, ":")
    ensures '.' !in ChiSegment(seg)
  {
    var n := CutDot(seg[1..]);
    assert ChiSegment(seg) == "{" + n + "}";
    assert forall k :: 0 <= k < |ChiSegment(seg)| ==> ChiSegment(seg)[k] == '{' || ChiSegment(seg)[k] == '}' || ChiSegment(seg)[k] in n;
  }

  lemma NoSlashAdded(seg: string)
    requires '/' !in seg
    ensures '/' !in ChiSegment(seg)
  {
    if HasPrefix(seg, ":") {
      assert '/' !in seg[1..];
    }
  }

  /** Chi's pattern splits back into the rewritten segments: every `:`
      segment is `{name}` with the name cut before its first dot, every
      other segment is the route's own. */
  lemma SplitChiPath(path: string)
    ensures Split(TransformPathForChi(path).0, '/') == ChiSegments(Split(CutWildcard(path), '/'))
    ensures forall i :: 0 <= i < |Split(CutWildcard(path), '/')| && HasPrefix(Split(CutWildcard(path), '/')[i], ":") ==>
      '.' !in ChiSegments(Split(CutWildcard(path), '/'))[i]
  {
    var parts := Split(CutWildcard(path), '/');
    var out := ChiSegments(parts);
    forall i | 0 <= i < |out|
      ensures '/' !in out[i]
      ensures HasPrefix(parts[i], ":") ==> '.' !in out[i]
    {
      NoSlashAdded(parts[i]);
      if HasPrefix(parts[i], ":") {
        NoDotLeft(parts[i]);
      }
    }
    JoinSplit(out, '/');
  }

  /** A catch-all drops what follows its `*` from the pattern and lends it
      to the value's name, `any` when nothing follows. */
  lemma TransformWildcard(dir: string, name: string)
    requires '*' !in dir
    ensures TransformPathForChi(dir + "*" + name) ==
      (Join(ChiSegments(Split(dir + "*", '/')), '/'), if name == "" then "any" else name)
  {
    var p := dir + "*" + name;
    assert p[|dir|] == '*' && p[..|dir|] == dir;
    assert IndexOf(p, '*') == |dir|;
    assert p[|dir| + 1..] == name;
  }

  /** A path without catch-all keeps no name for one. */
  lemma TransformNoWildcard(path: string)
    requires '*' !in path
    ensures TransformPathForChi(path) == (Join(ChiSegments(Split(path, '/')), '/'), "")
  {
  }

  // ---------------------------------------------------------------------
  // Param

  /** `Param`: the exact key; then, for a dotted key, the value under the
      text before the dot; otherwise `""`. */
  function Param(st: Option<State>, key: string): (v: string)
    ensures st.None? ==> v == ""
    ensures st.Some? && key in st.value.params ==> v == st.value.params[key]
    ensures st.Some? && key !in st.value.params && '.' !in key ==> v == ""
    ensures st.Some? && key !in st.value.params && '.' in key ==> v == Lookup(st.value.params, CutDot(key))
  {
    if st.None? then ""
    else
      var m := st.value.params;
      if key in m then m[key]
      else if '.' in key then Lookup(m, CutDot(key))
      else ""
  }

  /** What chi drops from `:name.ext`, `Param` puts back: chi captures the
      segment under `name`, and `Param("name.ext")` finds it there. */
  lemma DottedParamServed(st: State, base: string, ext: string)
    requires '.' !in base && ext != [] && ext[0] == '.'
    requires base + ext !in st.params
    ensures ChiSegment(":" + base + ext) == "{" + base + "}"
    ensures Param(Some(st), base + ext) == Lookup(st.params, base)
  {
    var key := base + ext;
    assert key[|base|] == '.' && key[..|base|] == base;
    assert IndexOf(key, '.') == |base|;
    assert (":" + base + ext)[1..] == key;
  }

  // ---------------------------------------------------------------------
  // wrapState

  /** The assignments of the URL parameter loop: chi's `*` is stored under
      the catch-all's name and under `*`; every other key as it is. */
  function UrlWrites(ps: seq<(string, string)>, wildcardName: string): seq<Write>
    decreases |ps|
  {
    if ps == [] then []
    else
      var p := ps[|ps| - 1];
      UrlWrites(ps[..|ps| - 1], wildcardName) +
        (if p.0 == "*" && wildcardName != "" then [Write(wildcardName, p.1), Write("*", p.1)] else [Write(p.0, p.1)])
  }

  /** What `wrapState` hands on: the incoming parameters (none without a
      state) with chi's over them, and the cached body, or the body read
      now when nothing was cached. */
  function WrapState(st: Option<State>, ps: seq<(string, string)>, wildcardName: string, req: RequestBody): State
  {
    var base := if st.Some? then st.value else State(map[], None);
    State(Apply(base.params, UrlWrites(ps, wildcardName)), LazyBody(base.body, req))
  }

  method WrapStateLoop(st: Option<State>, ps: seq<(string, string)>, wildcardName: string, req: RequestBody)
    returns (ns: State)
    ensures ns == WrapState(st, ps, wildcardName, req)
  {
    var state := if st.Some? then st.value else State(map[], None);
    var newParams := CopyParams(state.params);
    for i := 0 to |ps|
      invariant newParams == Apply(state.params, UrlWrites(ps[..i], wildcardName))
    {
      UrlWritesStep(ps, wildcardName, i, state.params);
      var key := ps[i].0;
      var val := ps[i].1;
      if key == "*" && wildcardName != "" {
        newParams := newParams[wildcardName := val];
        newParams := newParams["*" := val];
      } else {
        newParams := newParams[key := val];
      }
    }
    assert ps[..|ps|] == ps;
    var body := state.body;
    if body.None? {
      body := ReadBody(req);
    }
    ns := State(newParams, body);
  }

  lemma UrlWritesStep(ps: seq<(string, string)>, wildcardName: string, i: nat, m: Params)
    requires i < |ps|
    ensures var p := ps[i];
      var before := Apply(m, UrlWrites(ps[..i], wildcardName));
      Apply(m, UrlWrites(ps[..i + 1], wildcardName)) ==
        if p.0 == "*" && wildcardName != "" then before[wildcardName := p.1]["*" := p.1]
        else before[p.0 := p.1]
  {
    assert ps[..i + 1][..i] == ps[..i];
    var ws := UrlWrites(ps[..i], wildcardName);
    var p := ps[i];
    if p.0 == "*" && wildcardName != "" {
      var w1 := Write(wildcardName, p.1);
      var w2 := Write("*", p.1);
      assert (ws + [w1, w2])[..|ws| + 1] == ws + [w1];
      assert (ws + [w1])[..|ws|] == ws;
    } else {
      assert (ws + [Write(p.0, p.1)])[..|ws|] == ws;
    }
  }

  /** The keys the loop may assign: chi's keys, and the catch-all's name
      when chi reported a `*`. */
  predicate Touches(ps: seq<(string, string)>, wildcardName: string, k: string)
  {
    exists i :: 0 <= i < |ps| && (ps[i].0 == k || (ps[i].0 == "*" && wildcardName != "" && k == wildcardName))
  }

  lemma {:induction false} UrlWritesUntouched(ps: seq<(string, string)>, wildcardName: string, k: string)
    requires !Touches(ps, wildcardName, k)
    ensures LastWrite(UrlWrites(ps, wildcardName), k).None?
    decreases |ps|
  {
    if ps != [] {
      var init := ps[..|ps| - 1];
      var p := ps[|ps| - 1];
      assert !Touches(init, wildcardName, k) by {
        forall i | 0 <= i < |init|
          ensures !(init[i].0 == k || (init[i].0 == "*" && wildcardName != "" && k == wildcardName))
        {
          assert init[i] == ps[i];
        }
      }
      UrlWritesUntouched(init, wildcardName, k);
      assert !(p.0 == k || (p.0 == "*" && wildcardName != "" && k == wildcardName));
      var tail := if p.0 == "*" && wildcardName != "" then [Write(wildcardName, p.1), Write("*", p.1)]
                  else [Write(p.0, p.1)];
      LastWriteConcat(UrlWrites(init, wildcardName), tail, k);
      if p.0 == "*" && wildcardName != "" {
        assert tail[|tail| - 1].key != k && tail[0].key != k;
        assert tail[..|tail| - 1] == [Write(wildcardName, p.1)];
        assert [Write(wildcardName, p.1)][..0] == [];
        assert LastWrite(tail, k) == LastWrite([Write(wildcardName, p.1)], k) == None;
      } else {
        assert tail[..0] == [];
      }
    }
  }

  /** After `wrapState`, a key chi did not report keeps the incoming value,
      or stays absent. */
  lemma UntouchedKept(st: Option<State>, ps: seq<(string, string)>, wildcardName: string, req: RequestBody, k: string)
    requires !Touches(ps, wildcardName, k)
    ensures var m := WrapState(st, ps, wildcardName, req).params;
      var prior := if st.Some? then st.value.params else map[];
      (k in m <==> k in prior) && (k in prior ==> m[k] == prior[k])
  {
    var prior := if st.Some? then st.value.params else map[];
    UrlWritesUntouched(ps, wildcardName, k);
    ApplyAt(prior, UrlWrites(ps, wildcardName), k);
  }

  /** The last parameter chi reports wins: a catch-all value lands under its
      name and under `*`, any other value under its key. */
  lemma LastParamWins(st: Option<State>, ps: seq<(string, string)>, key: string, val: string,
                      wildcardName: string, req: RequestBody)
    ensures var m := WrapState(st, ps + [(key, val)], wildcardName, req).params;
      if key == "*" && wildcardName != "" then
        wildcardName in m && m[wildcardName] == val && "*" in m && m["*"] == val
      else key in m && m[key] == val
  {
    var prior := if st.Some? then st.value.params else map[];
    assert (ps + [(key, val)])[..|ps|] == ps;
    UrlWritesStep(ps + [(key, val)], wildcardName, |ps|, prior);
    assert (ps + [(key, val)])[..|ps| + 1] == ps + [(key, val)];
  }

  /** `ServeHTTP` skips the body of a GET, and `wrapState` then reads it
      anyway: the handler sees the request's body whatever the method. */
  lemma BodyWhateverTheMethod(verb: string, ps: seq<(string, string)>, wildcardName: string, req: RequestBody)
    ensures WrapState(Some(EntryState(verb, req)), ps, wildcardName, req).body == ReadBody(req)
    ensures WrapState(Some(EntryState(verb, req)), ps, wildcardName, req).params == Apply(map[], UrlWrites(ps, wildcardName))
  {
  }

  // ---------------------------------------------------------------------
  // The adapter

  /** One route as `register` hands it to chi. */
  datatype ChiRoute = ChiRoute(verb: string, path: string, wildcardName: string, onion: Handler)

  /** The chi router the adapter and its groups share. */
  class ChiMux {
    var routes: seq<ChiRoute>

    constructor()
      ensures routes == []
    {
      routes := [];
    }

    method Method(r: ChiRoute)
      modifies this
      ensures routes == old(routes) + [r]
    {
      routes := routes + [r];
    }
  }

  class ChiAdapter {
    var prefix: string
    var middlewares: seq<Middleware>
    const mux: ChiMux

    /** `NewChiAdapter`. */
    constructor()
      ensures prefix == "" && middlewares == [] && fresh(mux) && mux.routes == []
    {
      prefix := "";
      middlewares := [];
      mux := new ChiMux();
    }

    constructor Child(p: string, mws: seq<Middleware>, shared: ChiMux)
      ensures prefix == p && middlewares == mws && mux == shared
    {
      prefix := p;
      middlewares := mws;
      mux := shared;
    }

    /** `Group`: the joined prefix and a copy of the middleware list; the
        router is shared. */
    method Group(p: string) returns (child: ChiAdapter)
      ensures fresh(child)
      ensures child.prefix == JoinPaths(prefix, p) && child.middlewares == middlewares && child.mux == mux
      ensures NoDoubleSlash(prefix) && NoDoubleSlash(p) ==> NoDoubleSlash(child.prefix)
    {
      if NoDoubleSlash(prefix) && NoDoubleSlash(p) {
        JoinPathsShape(prefix, p);
      }
      child := new ChiAdapter.Child(JoinPaths(prefix, p), middlewares, mux);
    }

    /** `Use`: kept on the adapter, not on chi's router, so groups stay apart. */
    method Use(mws: seq<Middleware>)
      modifies this
      ensures middlewares == old(middlewares) + mws && prefix == old(prefix)
    {
      middlewares := middlewares + mws;
    }

    /** `register`: chi's pattern joined to the prefix, and the onion folded
        by two countdown loops, the route's middlewares first, so the
        group's run outside them. */
    method Register(verb: string, path: string, h: string, routeMws: seq<Middleware>)
      modifies mux
      ensures mux.routes == old(mux.routes) +
        [ChiRoute(verb, JoinPaths(prefix, TransformPathForChi(path).0), TransformPathForChi(path).1,
                  Nest(middlewares + routeMws, Endpoint(h)))]
    {
      var chiPath, wildcardName := TransformLoop(path);
      var fullPath := JoinPaths(prefix, chiPath);
      var finalHandler := Compose(routeMws, Endpoint(h));
      finalHandler := Compose(middlewares, finalHandler);
      NestAppend(middlewares, routeMws, Endpoint(h));
      mux.Method(ChiRoute(verb, fullPath, wildcardName, finalHandler));
    }
  }
}
