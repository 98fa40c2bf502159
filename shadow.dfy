/** What the shadow zones of the gin and echo adapters share once a route
    matched: the parameters a match writes, and the key and coherence of
    the request cache in front of the first-match dispatch. */
module ShadowDispatch {
  import opened Text
  import opened TranswarpState
  import opened Onion
  import opened Routing
  import opened Pattern
  import opened PatternFacts

  /** The wildcard value written under `"*"` and `"path"` (nothing when the
      route has no wildcard). */
  function Mirror(val: string, wc: string): seq<Write>
  {
    if wc == "" then [] else [Write("*", val), Write("path", val)]
  }

  /** One assignment per regexp group, the group name turned back into the
      parameter key. */
  function CaptureWrites(caps: seq<(string, string)>): (ws: seq<Write>)
    ensures |ws| == |caps|
    ensures forall i :: 0 <= i < |caps| ==> ws[i] == Write(RestoreName(caps[i].0), caps[i].1)
  {
    seq(|caps|, i requires 0 <= i < |caps| => Write(RestoreName(caps[i].0), caps[i].1))
  }

  /** The groups a pattern captures on a path (none when it does not match). */
  function GroupsOf(pat: Compiled, path: string): seq<(string, string)>
  {
    match MatchFrom(pat.toks, path)
    case Some(ps) => Captures(pat.toks, ps)
    case None => []
  }

  /** The parameters `dispatchWithParams` hands on: the prior ones, every
      captured group, then the wildcard's value mirrored. */
  function ShadowParams(prior: Params, pat: Compiled, path: string): Params
  {
    var m := Apply(prior, CaptureWrites(GroupsOf(pat, path)));
    Apply(m, Mirror(Lookup(m, pat.wildcard), pat.wildcard))
  }

  /** The two mirror assignments, spelled out. */
  lemma ApplyMirror(m: Params, val: string, wc: string)
    ensures Apply(m, Mirror(val, wc)) == if wc == "" then m else m["*" := val]["path" := val]
  {
    if wc != "" {
      var ws := Mirror(val, wc);
      assert ws[..1] == [Write("*", val)] && ws[..1][..0] == [];
      assert Apply(m, ws[..1]) == m["*" := val];
    }
  }

  lemma ShadowParamsOne(prior: Params, pat: Compiled, path: string, g: string, v: string)
    requires GroupsOf(pat, path) == [(g, v)]
    ensures var m := prior[RestoreName(g) := v];
      ShadowParams(prior, pat, path) == Apply(m, Mirror(Lookup(m, pat.wildcard), pat.wildcard))
  {
    assert CaptureWrites([(g, v)]) == [Write(RestoreName(g), v)];
    assert Apply(prior, [Write(RestoreName(g), v)]) == prior[RestoreName(g) := v];
  }

  lemma ParamRouteGroups(dir: string, g: string, tail: string, v: string)
    requires v != [] && '/' !in v
    ensures GroupsOf(Compiled(Lits(dir) + [Cap(g)] + Lits(tail), ""), dir + v + tail) == [(g, v)]
  {
    ParamRouteMatch(dir, g, tail, v);
  }

  lemma WildcardRouteGroups(dir: string, w: string, rest: string)
    requires '\n' !in rest
    ensures GroupsOf(Compiled(Lits(dir) + [Rest(w)], w), dir + rest) == [(w, rest)]
  {
    WildcardRouteMatch(dir, w, rest);
  }

  /** A one-parameter route of a zone, served a value without `/`: the key
      the route names (dots and all) gets the value, nothing else changes. */
  lemma ShadowParamRoute(prior: Params, dir: string, name: string, tail: string, v: string)
    requires '_' !in name && v != [] && '/' !in v
    ensures ShadowParams(prior, Compiled(Lits(dir) + [Cap(SafeName(name))] + Lits(tail), ""), dir + v + tail)
      == prior[name := v]
  {
    var pat := Compiled(Lits(dir) + [Cap(SafeName(name))] + Lits(tail), "");
    ParamRouteGroups(dir, SafeName(name), tail, v);
    ShadowParamsOne(prior, pat, dir + v + tail, SafeName(name), v);
    RestoreSafeName(name);
    ApplyMirror(prior[name := v], Lookup(prior[name := v], ""), "");
  }

  /** A wildcard route of a zone: the rest of the path is stored under the
      wildcard's name and mirrored under `"*"` and `"path"`. */
  lemma ShadowWildcardRoute(prior: Params, dir: string, w: string, rest: string)
    requires w != "" && '_' !in w && '.' !in w && '\n' !in rest
    ensures ShadowParams(prior, Compiled(Lits(dir) + [Rest(w)], w), dir + rest)
      == prior[w := rest]["*" := rest]["path" := rest]
  {
    var pat := Compiled(Lits(dir) + [Rest(w)], w);
    WildcardRouteGroups(dir, w, rest);
    ShadowParamsOne(prior, pat, dir + rest, w, rest);
    ReplaceAbsentChar(w, '.', "_DOT_");
    RestoreSafeName(w);
    ApplyMirror(prior[w := rest], rest, w);
  }

  function PairWrites(gps: seq<(string, string)>): (ws: seq<Write>)
    ensures |ws| == |gps|
    ensures forall i :: 0 <= i < |gps| ==> ws[i] == Write(gps[i].0, gps[i].1)
  {
    seq(|gps|, i requires 0 <= i < |gps| => Write(gps[i].0, gps[i].1))
  }

  /** The cache key of a request. */
  function CacheKey(verb: string, path: string): string
  {
    verb + "|" + path
  }

  /** The method and the path a cache key was built from. */
  function KeyVerb(k: string): string
  {
    var i := IndexOf(k, '|');
    if i < 0 then k else k[..i]
  }

  function KeyPath(k: string): string
  {
    var i := IndexOf(k, '|');
    if i < 0 then "" else k[i + 1..]
  }

  /** An HTTP method name holds no `|`, so the key gives the request back. */
  lemma CacheKeyDecode(verb: string, path: string)
    requires '|' !in verb
    ensures KeyVerb(CacheKey(verb, path)) == verb && KeyPath(CacheKey(verb, path)) == path
  {
    var k := CacheKey(verb, path);
    assert k[|verb|] == '|' && k[..|verb|] == verb && k[|verb| + 1..] == path;
    assert IndexOf(k, '|') == |verb|;
  }

  lemma CacheKeyInjective(v1: string, p1: string, v2: string, p2: string)
    requires '|' !in v1 && '|' !in v2
    ensures CacheKey(v1, p1) == CacheKey(v2, p2) <==> v1 == v2 && p1 == p2
  {
    CacheKeyDecode(v1, p1);
    CacheKeyDecode(v2, p2);
  }

  /** The route of the zone a request goes to without any cache. */
  function Resolve(zone: seq<Entry>, verb: string, path: string): Option<Entry>
  {
    match FirstMatch(zone, verb, path)
    case Some(i) => Some(zone[i])
    case None => None
  }

  /** A request resolves exactly when some entry of the zone is a candidate
      for it, and then to the first such entry. */
  lemma ResolveFirst(zone: seq<Entry>, verb: string, path: string)
    ensures var r := Resolve(zone, verb, path);
      (r.Some? <==> exists i :: 0 <= i < |zone| && Candidate(zone[i], verb, path)) &&
      (r.Some? ==> exists i :: (0 <= i < |zone| && zone[i] == r.value && Candidate(zone[i], verb, path)
                                && forall j :: 0 <= j < i ==> !Candidate(zone[j], verb, path)))
  {
  }

  /** The bound on the counter: `max`, or 1 when `max` admits no entry,
      since a miss always stores the entry it found. */
  function Bound(max: int): int
  {
    if max >= 1 then max else 1
  }

  /** Each cached entry is what the zone whose handler stored it resolves
      the key's request to. */
  predicate Coherent(origin: map<string, seq<Entry>>, cache: map<string, Entry>)
  {
    origin.Keys == cache.Keys &&
    forall k :: k in cache ==> Resolve(origin[k], KeyVerb(k), KeyPath(k)) == Some(cache[k])
  }

  lemma CoherentHit(origin: map<string, seq<Entry>>, cache: map<string, Entry>, verb: string, path: string)
    requires Coherent(origin, cache) && '|' !in verb && CacheKey(verb, path) in cache
    ensures Resolve(origin[CacheKey(verb, path)], verb, path) == Some(cache[CacheKey(verb, path)])
  {
    CacheKeyDecode(verb, path);
  }

  lemma CoherentStore(origin: map<string, seq<Entry>>, cache: map<string, Entry>, zone: seq<Entry>,
                      verb: string, path: string, e: Entry)
    requires Coherent(origin, cache) && '|' !in verb && Resolve(zone, verb, path) == Some(e)
    ensures Coherent(origin[CacheKey(verb, path) := zone], cache[CacheKey(verb, path) := e])
  {
    CacheKeyDecode(verb, path);
  }

  /** What a zone handler answers from the cache: the cached entry on a hit,
      its own first match on a miss. */
  function Answer(zone: seq<Entry>, cache: map<string, Entry>, verb: string, path: string): Option<Entry>
  {
    if CacheKey(verb, path) in cache then Some(cache[CacheKey(verb, path)]) else Resolve(zone, verb, path)
  }

  /** The cache is invisible as long as the native router sends a request
      to the zone handler that cached it (or to any handler when it is not
      cached): the answer is what the zone resolves without a cache. */
  lemma AnswerIsResolve(origin: map<string, seq<Entry>>, cache: map<string, Entry>, zone: seq<Entry>,
                        verb: string, path: string)
    requires Coherent(origin, cache) && '|' !in verb
    requires CacheKey(verb, path) in origin ==> origin[CacheKey(verb, path)] == zone
    ensures Answer(zone, cache, verb, path) == Resolve(zone, verb, path)
  {
    if CacheKey(verb, path) in cache {
      CoherentHit(origin, cache, verb, path);
    }
  }

  /** The request cache of one adapter: `shadowCache` and its counter
      `shadowCacheSize`, shared by every zone handler the adapter's
      `deployShadowRouter` installs. The ghost `origin` records, per key,
      the zone whose handler stored it. */
  class ShadowCache {
    var cache: map<string, Entry>
    var size: int
    ghost var origin: map<string, seq<Entry>>

    ghost predicate Valid()
      reads this
    {
      Coherent(origin, cache)
    }

    constructor()
      ensures cache == map[] && size == 0 && origin == map[] && Valid()
    {
      cache := map[];
      size := 0;
      origin := map[];
    }
  }

  /** What the shadow handler of one zone answers. */
  datatype Reply = NotFound | Served(route: Route, state: State, trace: seq<Event>)
}
