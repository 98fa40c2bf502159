/** The net/http ServeMux adapter: `:name` and `*name` rewritten into
    ServeMux's `{name}` and `{name...}` wildcards, with a cleaner that
    can hide dots from ServeMux, routes registered at once with the onion
    already built, and a `Param` without the base-key fallback. */
module Mux {
  import opened Text
  import opened TranswarpState
  import opened Onion
  import opened Routing
  import Echo
  import Gin

  // ---------------------------------------------------------------------
  // Path-parameter cleaners

  /** The two configurations: `NewDefaultMuxConfig` and
      `SimpleCleanerMuxConfig`. */
  datatype Cleaner = Identity | Simple

  const Replazor: string := "___replazor___"

  function Encode(c: Cleaner, s: string): string
  {
    if c.Identity? then s else ReplaceAll(s, ".", Replazor)
  }

  function Decode(c: Cleaner, s: string): string
  {
    if c.Identity? then s else ReplaceAll(s, Replazor, ".")
  }

  /** The shape the proofs need of the placeholder: fourteen characters,
      three underscores, eight others, three underscores, and no dot. */
  predicate Placeholder(rep: string)
  {
    |rep| == 14 && '.' !in rep && '/' !in rep
    && (forall i :: 0 <= i < 3 ==> rep[i] == '_')
    && (forall i :: 3 <= i < 11 ==> rep[i] != '_')
    && (forall i :: 11 <= i < 14 ==> rep[i] == '_')
  }

  lemma ReplazorShape()
    ensures Placeholder(Replazor) && Replazor[3..11] == "replazor"
  {
  }

  /** Every dot of `s` written as `rep`, one character at a time. */
  function DotsOut(s: string, rep: string): (t: string)
    ensures '.' !in rep ==> '.' !in t
    ensures '/' !in s && '/' !in rep ==> '/' !in t
    decreases |s|
  {
    if s == [] then []
    else (if s[0] == '.' then rep else [s[0]]) + DotsOut(s[1..], rep)
  }

  lemma {:induction false} ReplaceDots(s: string, rep: string)
    ensures ReplaceAll(s, ".", rep) == DotsOut(s, rep)
    decreases |s|
  {
    if s != [] {
      ReplaceDots(s[1..], rep);
      assert s[..1] == "." <==> s[0] == '.';
    }
  }

  /** The simple cleaner leaves no dot, and no slash the name did not
      have, for ServeMux to see; the default one changes nothing. */
  lemma EncodeClean(s: string)
    ensures '.' !in Encode(Simple, s)
    ensures '/' !in s ==> '/' !in Encode(Simple, s)
    ensures Encode(Identity, s) == s && Decode(Identity, s) == s
  {
    ReplazorShape();
    ReplaceDots(s, Replazor);
  }

  lemma {:induction false} DotsOutSplit(s: string, rep: string, m: nat)
    requires m <= |s| && '.' !in s[..m]
    ensures DotsOut(s, rep) == s[..m] + DotsOut(s[m..], rep)
    decreases m
  {
    if m > 0 {
      assert s[0] == s[..m][0];
      DotsOutSplit(s[1..], rep, m - 1);
      assert s[1..][..m - 1] == s[..m][1..];
      assert s[1..][m - 1..] == s[m..];
    }
  }

  /** When `s` does not start with a dot and never spells the middle of
      the placeholder, its encoding does not start with the placeholder. */
  lemma NoPlaceholderAhead(s: string, rep: string)
    requires Placeholder(rep)
    requires s != [] && s[0] != '.' && !ContainsSub(s, rep[3..11])
    ensures !(rep <= DotsOut(s, rep))
  {
    var idx := IndexOf(s, '.');
    var m := if idx == -1 then |s| else idx;
    DotsOutSplit(s, rep, m);
    var tail := DotsOut(s[m..], rep);
    if m >= 11 {
      PrefixOfConcat(s[..m], tail, 11);
      AheadLong(s, rep, s[..m] + tail);
    } else if idx == -1 {
      assert s[m..] == [];
    } else {
      DotAhead(s[m..], rep);
      AheadDot(rep, s[..m], DotsOut(s[m + 1..], rep));
    }
  }

  lemma PrefixOfConcat(a: string, b: string, n: nat)
    requires n <= |a|
    ensures (a + b)[..n] == a[..n]
  {
  }

  /** A leading dot is replaced by the placeholder. */
  lemma DotAhead(t: string, rep: string)
    requires t != [] && t[0] == '.' && Placeholder(rep)
    ensures DotsOut(t, rep) == rep + DotsOut(t[1..], rep)
  {
  }

  /** Eleven characters or more before the first dot: the encoding starts
      with them, and they do not spell the placeholder's middle. */
  lemma AheadLong(s: string, rep: string, t: string)
    requires |rep| == 14 && |s| >= 11 && |t| >= 11 && t[..11] == s[..11]
    requires !ContainsSub(s, rep[3..11])
    ensures !(rep <= t)
  {
    assert !(rep[3..11] <= s[3..]);
    assert s[3..11] <= s[3..];
    assert t[3..11] == s[3..11];
  }

  /** A first dot at position one to ten puts an underscore where the
      placeholder has a letter. */
  lemma AheadDot(rep: string, pre: string, rest: string)
    requires Placeholder(rep) && 1 <= |pre| <= 10
    ensures !(rep <= pre + rep + rest)
  {
    var t := pre + rep + rest;
    var m := |pre|;
    assert t[m] == rep[0] == '_';
    if m <= 3 {
      assert t[3] == rep[3 - m] == '_';
      assert rep[3] != '_';
    } else {
      assert rep[m] != '_';
    }
  }

  lemma NoSubInTail(s: string, w: string)
    requires s != [] && !ContainsSub(s, w)
    ensures !ContainsSub(s[1..], w)
  {
    forall i | 0 <= i <= |s[1..]|
      ensures !(w <= s[1..][i..])
    {
      assert s[1..][i..] == s[i + 1..];
    }
  }

  lemma {:induction false} DecodeDotsOut(s: string, rep: string)
    requires Placeholder(rep) && !ContainsSub(s, rep[3..11])
    ensures ReplaceAll(DotsOut(s, rep), rep, ".") == s
    decreases |s|
  {
    if s != [] {
      var rest := s[1..];
      NoSubInTail(s, rep[3..11]);
      DecodeDotsOut(rest, rep);
      var t := DotsOut(s, rep);
      if s[0] == '.' {
        assert t == rep + DotsOut(rest, rep);
        assert t[..14] == rep && t[14..] == DotsOut(rest, rep);
      } else {
        assert t == [s[0]] + DotsOut(rest, rep);
        NoPlaceholderAhead(s, rep);
        if |t| < 14 {
          assert ReplaceAll(DotsOut(rest, rep), rep, ".") == DotsOut(rest, rep);
        } else {
          assert t[..14] != rep;
          assert t[1..] == DotsOut(rest, rep);
        }
      }
      assert [s[0]] + rest == s;
    }
  }

  /** Decoding undoes encoding, for the simple cleaner on every name that
      never spells `replazor`, and always for the default cleaner. */
  lemma RoundTrip(c: Cleaner, s: string)
    requires c.Simple? ==> !ContainsSub(s, "replazor")
    ensures Decode(c, Encode(c, s)) == s
  {
    if c.Simple? {
      ReplazorShape();
      ReplaceDots(s, Replazor);
      DecodeDotsOut(s, Replazor);
    }
  }

  /** The name made of the placeholder's first eleven characters and a dot
      does not come back: its encoding reads as the placeholder first. */
  lemma {:induction false} LostDot(rep: string)
    requires Placeholder(rep)
    ensures ReplaceAll(DotsOut(rep[..11] + ".", rep), rep, ".") != rep[..11] + "."
  {
    var s := rep[..11] + ".";
    DotsOutSplit(s, rep, 11);
    assert s[..11] == rep[..11] && s[11..] == ".";
    assert DotsOut(".", rep) == rep + DotsOut([], rep);
    var t := rep[..11] + rep;
    assert DotsOut(s, rep) == t;
    assert t[..14] == rep;
    assert |t[14..]| < 14;
    assert ReplaceAll(t, rep, ".") == "." + t[14..];
    assert s[0] == '_';
  }

  /** So the round trip needs its condition: `___replazor.` encodes to
      `___replazor` and the placeholder, which decodes to `.replazor___`. */
  lemma RoundTripNeedsCondition()
    ensures Decode(Simple, Encode(Simple, Replazor[..11] + ".")) != Replazor[..11] + "."
  {
    ReplazorShape();
    ReplaceDots(Replazor[..11] + ".", Replazor);
    LostDot(Replazor);
  }

  // ---------------------------------------------------------------------
  // translate

  /** A `:name` segment as ServeMux reads it. */
  function MuxSegment(c: Cleaner, seg: string): string
  {
    if HasPrefix(seg, ":") then "{" + Encode(c, seg[1..]) + "}" else seg
  }

  /** The names of the `:` segments, left to right, dots included. */
  function SegmentKeys(segs: seq<string>): seq<string>
    decreases |segs|
  {
    if segs == [] then []
    else
      var last := segs[|segs| - 1];
      SegmentKeys(segs[..|segs| - 1]) + (if HasPrefix(last, ":") then [last[1..]] else [])
  }

  /** The segments ServeMux is given for a path without catch-all. */
  function MuxSegments(c: Cleaner, parts: seq<string>): (out: seq<string>)
    ensures |out| == |parts|
    ensures forall i :: 0 <= i < |parts| ==> out[i] == MuxSegment(c, parts[i])
  {
    seq(|parts|, i requires 0 <= i < |parts| => MuxSegment(c, parts[i]))
  }

  /** `translate`: the ServeMux pattern of a path and the keys it captures. */
  function Translate(c: Cleaner, path: string): (string, seq<string>)
  {
    if '*' in path then
      (path[..IndexOf(path, '*')] + "{" + Encode(c, CatchAllName(path)) + "...}", [CatchAllName(path)])
    else
      (Join(MuxSegments(c, Split(path, '/')), '/'), SegmentKeys(Split(path, '/')))
  }

  /** `translate`: the catch-all cut, or the segment loop. */
  method TranslateLoop(c: Cleaner, path: string) returns (pattern: string, keys: seq<string>)
    ensures (pattern, keys) == Translate(c, path)
  {
    var idx := IndexOf(path, '*');
    if idx != -1 {
      var name := path[idx + 1..];
      if name == "" {
        name := "any";
      }
      keys := [name];
      var safeName := Encode(c, name);
      return path[..idx] + "{" + safeName + "...}", keys;
    }
    var parts := Split(path, '/');
    pattern, keys := SegmentLoop(c, parts);
  }

  /** The loop of `translate`: segments rewritten in place, keys appended. */
  method SegmentLoop(c: Cleaner, parts: seq<string>) returns (pattern: string, keys: seq<string>)
    ensures pattern == Join(MuxSegments(c, parts), '/') && keys == SegmentKeys(parts)
  {
    keys := [];
    var segments := new string[|parts|](j requires 0 <= j < |parts| => parts[j]);
    for i := 0 to |parts|
      invariant Rewritten(c, parts, segments[..], i)
      invariant keys == SegmentKeys(parts[..i])
    {
      SegmentKeysStep(parts, i);
      var seg := segments[i];
      ghost var before := segments[..];
      if HasPrefix(seg, ":") {
        var name := seg[1..];
        keys := keys + [name];
        var safeName := Encode(c, name);
        segments[i] := "{" + safeName + "}";
      }
      RewrittenStep(c, parts, before, i, segments[..]);
    }
    assert parts[..|parts|] == parts;
    RewrittenAll(c, parts, segments[..]);
    pattern := Join(segments[..], '/');
  }

  /** The loop's state after `i` segments: those rewritten, the rest untouched. */
  ghost predicate Rewritten(c: Cleaner, parts: seq<string>, segs: seq<string>, i: nat)
  {
    && i <= |parts| && |segs| == |parts|
    && (forall j :: 0 <= j < i ==> segs[j] == MuxSegment(c, parts[j]))
    && (forall j :: i <= j < |parts| ==> segs[j] == parts[j])
  }

  lemma RewrittenStep(c: Cleaner, parts: seq<string>, segs: seq<string>, i: nat, next: seq<string>)
    requires Rewritten(c, parts, segs, i) && i < |parts|
    requires next == segs[i := MuxSegment(c, parts[i])]
    ensures Rewritten(c, parts, next, i + 1)
  {
  }

  lemma RewrittenAll(c: Cleaner, parts: seq<string>, segs: seq<string>)
    requires Rewritten(c, parts, segs, |parts|)
    ensures segs == MuxSegments(c, parts)
  {
  }

  lemma SegmentKeysStep(parts: seq<string>, i: nat)
    requires i < |parts|
    ensures SegmentKeys(parts[..i + 1]) ==
      SegmentKeys(parts[..i]) + (if HasPrefix(parts[i], ":") then [parts[i][1..]] else [])
  {
    assert parts[..i + 1][..i] == parts[..i];
  }

  /** A key comes from segment `j` exactly when the segment is `:key`. */
  lemma {:induction false} SegmentKeysIn(segs: seq<string>, k: string)
    ensures k in SegmentKeys(segs) <==> exists j :: 0 <= j < |segs| && segs[j] == ":" + k
    decreases |segs|
  {
    if segs != [] {
      var init := segs[..|segs| - 1];
      var last := segs[|segs| - 1];
      SegmentKeysIn(init, k);
      if exists j :: 0 <= j < |segs| && segs[j] == ":" + k {
        var j :| 0 <= j < |segs| && segs[j] == ":" + k;
        if j < |segs| - 1 {
          assert init[j] == segs[j];
        } else {
          assert last[1..] == k;
        }
      }
      if exists j :: 0 <= j < |init| && init[j] == ":" + k {
        var j :| 0 <= j < |init| && init[j] == ":" + k;
        assert segs[j] == init[j];
      }
      if HasPrefix(last, ":") && last[1..] == k {
        assert last == ":" + k;
      }
    }
  }

  /** The pattern of a path without catch-all splits back into the
      rewritten segments: the cleaners add no slash. */
  lemma SplitPattern(c: Cleaner, parts: seq<string>)
    requires |parts| > 0 && forall i :: 0 <= i < |parts| ==> '/' !in parts[i]
    ensures Split(Join(MuxSegments(c, parts), '/'), '/') == MuxSegments(c, parts)
  {
    var out := MuxSegments(c, parts);
    forall i | 0 <= i < |out|
      ensures '/' !in out[i]
    {
      NoSlashAdded(c, parts[i]);
    }
    JoinSplit(out, '/');
  }

  lemma NoSlashAdded(c: Cleaner, seg: string)
    requires '/' !in seg
    ensures '/' !in MuxSegment(c, seg)
  {
    if HasPrefix(seg, ":") {
      assert '/' !in seg[1..];
      EncodeClean(seg[1..]);
    }
  }

  /** Every key of a path without catch-all is a `:key` segment, and the
      pattern holds, at that segment, the key's ServeMux name; with the
      simple cleaner that name has no dot and decodes back to the key. */
  lemma TranslateKeys(c: Cleaner, path: string, k: string)
    requires '*' !in path && k in Translate(c, path).1
    ensures |Split(Translate(c, path).0, '/')| == |Split(path, '/')|
    ensures exists j :: (0 <= j < |Split(path, '/')| && Split(path, '/')[j] == ":" + k
                         && Split(Translate(c, path).0, '/')[j] == "{" + Encode(c, k) + "}")
    ensures c.Simple? ==> '.' !in Encode(c, k)
    ensures c.Simple? && !ContainsSub(k, "replazor") ==> Decode(c, Encode(c, k)) == k
  {
    var segs := Split(path, '/');
    var out := MuxSegments(c, segs);
    assert Translate(c, path) == (Join(out, '/'), SegmentKeys(segs));
    SplitPattern(c, segs);
    SegmentKeysIn(segs, k);
    var j :| 0 <= j < |segs| && segs[j] == ":" + k;
    assert segs[j][1..] == k && HasPrefix(segs[j], ":");
    assert out[j] == "{" + Encode(c, k) + "}";
    EncodeClean(k);
    if c.Simple? && !ContainsSub(k, "replazor") {
      RoundTrip(c, k);
    }
  }

  /** A catch-all keeps the text before the first `*` and captures one key. */
  lemma TranslateWildcard(c: Cleaner, dir: string, name: string)
    requires '*' !in dir
    ensures Translate(c, dir + "*" + name) == (dir + "{" + Encode(c, if name == "" then "any" else name) + "...}",
                                               [if name == "" then "any" else name])
  {
    var p := dir + "*" + name;
    assert p[|dir|] == '*' && p[..|dir|] == dir;
    assert IndexOf(p, '*') == |dir|;
    assert p[|dir| + 1..] == name;
  }

  // ---------------------------------------------------------------------
  // Param

  /** `Param`: the exact key; then a key equal to or extending `key` in walk
      order; then, for `*`, the value under `any`; otherwise `""`. */
  function Param(st: Option<State>, key: string, order: seq<string>): (v: string)
    requires st.Some? ==> Gin.Enumerates(order, st.value.params)
    ensures st.None? ==> v == ""
    ensures st.Some? && key in st.value.params ==> v == st.value.params[key]
    ensures st.Some? && key !in st.value.params && (exists k :: k in st.value.params && Gin.Extends(k, key)) ==>
      exists k :: k in st.value.params && Gin.Extends(k, key) && v == st.value.params[k]
    ensures st.Some? && key !in st.value.params && (forall k :: k in st.value.params ==> !Gin.Extends(k, key)) ==>
      v == (if key == "*" && "any" in st.value.params then st.value.params["any"] else "")
  {
    if st.None? then ""
    else
      var m := st.value.params;
      if key in m then m[key]
      else
        var hit := Echo.PrefixScan(m, order, key);
        Echo.PrefixScanIsGin(m, order, key);
        Gin.PrefixScanComplete(m, order, key);
        if hit.Some? then hit.value
        else if key == "*" && "any" in m then m["any"]
        else ""
  }

  /** Unlike gin, no base-key fallback: with only `name` captured,
      `Param("name.json")` is `""` here and the captured value in gin. */
  lemma NoBaseFallback(st: State, base: string, ext: string, order: seq<string>)
    requires '.' !in base && ext != [] && ext[0] == '.'
    requires Gin.Enumerates(order, st.params)
    requires base in st.params && base + ext !in st.params
    requires forall k :: k in st.params ==> !Gin.Extends(k, base + ext)
    ensures Param(Some(st), base + ext, order) == ""
    ensures Gin.Param(Some(st), base + ext, order) == st.params[base]
  {
    var key := base + ext;
    assert key[|base|] == '.';
    assert key != "*";
    Gin.ParamFindsBase(st, base, ext, order);
  }

  /** A catch-all registered without a name is captured as `any`, and
      `Param("*")` finds it. */
  lemma StarFindsAny(st: State, order: seq<string>)
    requires Gin.Enumerates(order, st.params)
    requires "any" in st.params && "*" !in st.params
    requires forall k :: k in st.params ==> !Gin.Extends(k, "*")
    ensures Param(Some(st), "*", order) == st.params["any"]
  {
  }

  // ---------------------------------------------------------------------
  // wrapState

  /** The assignments of the key loop: a key whose ServeMux value, found
      under its encoded name, is not empty. */
  function KeyWrites(c: Cleaner, keys: seq<string>, pathValue: map<string, string>): seq<Write>
    decreases |keys|
  {
    if keys == [] then []
    else
      var k := keys[|keys| - 1];
      var val := Lookup(pathValue, Encode(c, k));
      KeyWrites(c, keys[..|keys| - 1], pathValue) + (if val != "" then [Write(k, val)] else [])
  }

  /** What `wrapState` hands on: the incoming parameters (none without a
      state) with the keys' values over them, and the cached body, or the
      body read now when nothing was cached. */
  function WrapState(st: Option<State>, c: Cleaner, keys: seq<string>, pathValue: map<string, string>,
                     req: RequestBody): State
  {
    var base := if st.Some? then st.value else State(map[], None);
    State(Apply(base.params, KeyWrites(c, keys, pathValue)), LazyBody(base.body, req))
  }

  method WrapStateLoop(st: Option<State>, c: Cleaner, keys: seq<string>, pathValue: map<string, string>,
                       req: RequestBody) returns (ns: State)
    ensures ns == WrapState(st, c, keys, pathValue, req)
  {
    var state := if st.Some? then st.value else State(map[], None);
    var newParams := CopyParams(state.params);
    for i := 0 to |keys|
      invariant newParams == Apply(state.params, KeyWrites(c, keys[..i], pathValue))
    {
      KeyWritesStep(c, keys, pathValue, i, state.params);
      var k := keys[i];
      var goKey := Encode(c, k);
      var val := Lookup(pathValue, goKey);
      if val != "" {
        newParams := newParams[k := val];
      }
    }
    assert keys[..|keys|] == keys;
    var body := state.body;
    if body.None? {
      body := ReadBody(req);
    }
    ns := State(newParams, body);
  }

  lemma KeyWritesStep(c: Cleaner, keys: seq<string>, pathValue: map<string, string>, i: nat, m: Params)
    requires i < |keys|
    ensures var val := Lookup(pathValue, Encode(c, keys[i]));
      Apply(m, KeyWrites(c, keys[..i + 1], pathValue)) ==
        if val != "" then Apply(m, KeyWrites(c, keys[..i], pathValue))[keys[i] := val]
        else Apply(m, KeyWrites(c, keys[..i], pathValue))
  {
    assert keys[..i + 1][..i] == keys[..i];
    var ws := KeyWrites(c, keys[..i], pathValue);
    var val := Lookup(pathValue, Encode(c, keys[i]));
    if val != "" {
      assert (ws + [Write(keys[i], val)])[..|ws|] == ws;
    } else {
      assert ws + [] == ws;
    }
  }

  lemma {:induction false} KeyWritesAt(c: Cleaner, keys: seq<string>, pathValue: map<string, string>, k: string)
    ensures k in keys && Lookup(pathValue, Encode(c, k)) != "" ==>
      LastWrite(KeyWrites(c, keys, pathValue), k) == Some(Lookup(pathValue, Encode(c, k)))
    ensures !(k in keys && Lookup(pathValue, Encode(c, k)) != "") ==> LastWrite(KeyWrites(c, keys, pathValue), k).None?
    decreases |keys|
  {
    if keys != [] {
      var init := keys[..|keys| - 1];
      var last := keys[|keys| - 1];
      KeyWritesAt(c, init, pathValue, k);
      var val := Lookup(pathValue, Encode(c, last));
      var tail := if val != "" then [Write(last, val)] else [];
      LastWriteConcat(KeyWrites(c, init, pathValue), tail, k);
      if val != "" {
        assert tail[..0] == [];
      }
      assert k in keys <==> k in init || k == last;
    }
  }

  /** After `wrapState`, a captured key holds ServeMux's value for its
      encoded name; a key not captured, or captured empty, keeps the
      incoming value, or stays absent. */
  lemma WrapStateAt(st: Option<State>, c: Cleaner, keys: seq<string>, pathValue: map<string, string>,
                    req: RequestBody, k: string)
    ensures var m := WrapState(st, c, keys, pathValue, req).params;
      var prior := if st.Some? then st.value.params else map[];
      (k in keys && Lookup(pathValue, Encode(c, k)) != "" ==> k in m && m[k] == Lookup(pathValue, Encode(c, k))) &&
      (!(k in keys && Lookup(pathValue, Encode(c, k)) != "") ==> (k in m <==> k in prior) && (k in prior ==> m[k] == prior[k]))
  {
    var prior := if st.Some? then st.value.params else map[];
    KeyWritesAt(c, keys, pathValue, k);
    ApplyAt(prior, KeyWrites(c, keys, pathValue), k);
  }

  // ---------------------------------------------------------------------
  // The adapter

  /** One pattern handed to the ServeMux: `"METHOD path"`, the keys the
      state wrapper reads, and the onion it runs. */
  datatype Pattern = Pattern(pattern: string, keys: seq<string>, onion: Handler)

  /** The ServeMux the adapter and its groups share. */
  class ServeMux {
    var patterns: seq<Pattern>

    constructor()
      ensures patterns == []
    {
      patterns := [];
    }

    method Handle(p: Pattern)
      modifies this
      ensures patterns == old(patterns) + [p]
    {
      patterns := patterns + [p];
    }
  }

  class MuxAdapter {
    var prefix: string
    var middlewares: seq<Middleware>
    const cleaner: Cleaner
    const mux: ServeMux

    /** `NewMuxAdapter`: a missing configuration means the default cleaner. */
    constructor(cfg: Option<Cleaner>)
      ensures prefix == "" && middlewares == [] && fresh(mux) && mux.patterns == []
      ensures cleaner == if cfg.Some? then cfg.value else Identity
    {
      prefix := "";
      middlewares := [];
      cleaner := if cfg.Some? then cfg.value else Identity;
      mux := new ServeMux();
    }

    constructor Child(p: string, mws: seq<Middleware>, c: Cleaner, shared: ServeMux)
      ensures prefix == p && middlewares == mws && cleaner == c && mux == shared
    {
      prefix := p;
      middlewares := mws;
      cleaner := c;
      mux := shared;
    }

    method Group(p: string) returns (child: MuxAdapter)
      ensures fresh(child)
      ensures child.prefix == JoinPaths(prefix, p) && child.middlewares == middlewares
      ensures child.cleaner == cleaner && child.mux == mux
      ensures NoDoubleSlash(prefix) && NoDoubleSlash(p) ==> NoDoubleSlash(child.prefix)
    {
      if NoDoubleSlash(prefix) && NoDoubleSlash(p) {
        JoinPathsShape(prefix, p);
      }
      child := new MuxAdapter.Child(JoinPaths(prefix, p), middlewares, cleaner, mux);
    }

    method Use(mws: seq<Middleware>)
      modifies this
      ensures middlewares == old(middlewares) + mws && prefix == old(prefix)
    {
      middlewares := middlewares + mws;
    }

    /** `register`: the translated path joined to the prefix, and the onion
        folded by two countdown loops, the route's middlewares first, so
        the group's run outside them. */
    method Register(verb: string, path: string, h: string, routeMws: seq<Middleware>)
      modifies mux
      ensures mux.patterns == old(mux.patterns) + [Pattern(verb + " " + JoinPaths(prefix, Translate(cleaner, path).0),
                                                            Translate(cleaner, path).1,
                                                            Nest(middlewares + routeMws, Endpoint(h)))]
    {
      var translatedPath, keys := TranslateLoop(cleaner, path);
      var fullPath := JoinPaths(prefix, translatedPath);
      var pattern := verb + " " + fullPath;
      var finalHandler := Compose(routeMws, Endpoint(h));
      finalHandler := Compose(middlewares, finalHandler);
      NestAppend(middlewares, routeMws, Endpoint(h));
      mux.Handle(Pattern(pattern, keys, finalHandler));
    }
  }

  /** The middleware hierarchy scenario: a global middleware writing `a`, a
      route middleware writing `b` and a handler writing `c` give `abc`. */
  lemma GlobalThenLocal(a: string, b: string, c: string)
    ensures Render(Exec(Nest([Pass(a, "")] + [Pass(b, "")], Endpoint(c)))) == a + b + c
  {
    RenderLayer(b, "", [], c);
    assert Render(Exec(Nest([], Endpoint(c)))) == c by {
      assert Render([Reached(c)]) == c + Render([]);
    }
    assert [Pass(b, "")] + [] == [Pass(b, "")];
    RenderLayer(a, "", [Pass(b, "")], c);
  }
}
