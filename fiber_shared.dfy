/** The helpers the fiber adapter uses to hand fiber's request data to the
    net/http side: `clone`, `syncParams` (fiber's route parameters and query
    values are inputs here) and `syncHeaders`. */
module FiberShared {
  import opened Text
  import opened TranswarpState

  /** `clone`: a fresh copy, equal to its argument. */
  function Clone(s: string): (r: string)
    ensures r == s
  {
    if s == "" then "" else [] + s
  }

  // ---------------------------------------------------------------------
  // Percent-decoding (section 2.1 of RFC 3986)

  /** The value of one hexadecimal digit, either case. */
  function HexVal(c: char): (r: Option<nat>)
    ensures r.Some? ==> r.value < 16
  {
    if '0' <= c <= '9' then Some(c as nat - '0' as nat)
    else if 'a' <= c <= 'f' then Some(c as nat - 'a' as nat + 10)
    else if 'A' <= c <= 'F' then Some(c as nat - 'A' as nat + 10)
    else None
  }

  /** Go's `unescape`: each `%` followed by two hexadecimal digits becomes the
      byte they spell; a `%` without them is an error. In query mode (`url.
      QueryUnescape`) a `+` also becomes a space; `url.PathUnescape` keeps it. */
  function Unescape(s: string, query: bool): (r: Option<string>)
    ensures r.Some? ==> |r.value| <= |s|
    decreases |s|
  {
    if s == [] then Some([])
    else if s[0] == '%' then
      if |s| < 3 || HexVal(s[1]).None? || HexVal(s[2]).None? then None
      else
        var t := Unescape(s[3..], query);
        if t.None? then None
        else Some([(16 * HexVal(s[1]).value + HexVal(s[2]).value) as char] + t.value)
    else
      var t := Unescape(s[1..], query);
      if t.None? then None
      else Some([if query && s[0] == '+' then ' ' else s[0]] + t.value)
  }

  /** The characters that need no escape (section 2.3 of RFC 3986). */
  predicate Unreserved(c: char)
  {
    ('a' <= c <= 'z') || ('A' <= c <= 'Z') || ('0' <= c <= '9') || c == '-' || c == '.' || c == '_' || c == '~'
  }

  function HexDigit(n: nat): (c: char)
    requires n < 16
    ensures HexVal(c) == Some(n)
  {
    if n < 10 then ('0' as nat + n) as char else ('A' as nat + n - 10) as char
  }

  /** A byte string with every reserved character written as `%XX`: the
      reference the decoder is checked against. */
  function Escape(s: string): string
    requires forall i :: 0 <= i < |s| ==> s[i] as nat < 256
  {
    if s == [] then []
    else
      var c := s[0];
      var head := if Unreserved(c) then [c] else ['%', HexDigit(c as nat / 16), HexDigit(c as nat % 16)];
      head + Escape(s[1..])
  }

  /** Decoding undoes escaping, in either mode. */
  lemma {:induction false} UnescapeEscape(s: string, query: bool)
    requires forall i :: 0 <= i < |s| ==> s[i] as nat < 256
    ensures Unescape(Escape(s), query) == Some(s)
    decreases |s|
  {
    if s != [] {
      var c := s[0];
      var rest := Escape(s[1..]);
      UnescapeEscape(s[1..], query);
      if Unreserved(c) {
        assert Escape(s) == [c] + rest;
        assert (Escape(s))[1..] == rest;
      } else {
        var e := Escape(s);
        assert e == ['%', HexDigit(c as nat / 16), HexDigit(c as nat % 16)] + rest;
        assert e[3..] == rest;
        assert 16 * (c as nat / 16) + c as nat % 16 == c as nat;
      }
      assert [s[0]] + s[1..] == s;
    }
  }

  /** A value without `%` (and, in query mode, without `+`) decodes to itself. */
  lemma {:induction false} UnescapePlain(s: string, query: bool)
    requires '%' !in s && (query ==> '+' !in s)
    ensures Unescape(s, query) == Some(s)
    decreases |s|
  {
    if s != [] {
      UnescapePlain(s[1..], query);
      assert [s[0]] + s[1..] == s;
    }
  }

  /** A `%` the two hexadecimal digits do not follow makes the whole value
      an error, whatever comes before it. */
  lemma {:induction false} UnescapeBadPercent(pre: string, post: string, query: bool)
    requires |post| < 2 || HexVal(post[0]).None? || HexVal(post[1]).None?
    ensures Unescape(pre + "%" + post, query).None?
    decreases |pre|
  {
    var s := pre + "%" + post;
    if pre == [] {
      assert s == ['%'] + post;
      assert s[0] == '%' && s[1..] == post;
    } else {
      assert s[1..] == pre[1..] + "%" + post;
      assert s[0] == pre[0];
      UnescapeBadPercent(pre[1..], post, query);
    }
  }

  /** The value `syncParams` stores for a raw route parameter: decoded, or
      the raw text when decoding fails. */
  function PathValue(raw: string): (v: string)
    ensures Unescape(raw, false).Some? ==> v == Unescape(raw, false).value
    ensures Unescape(raw, false).None? ==> v == raw
  {
    var u := Unescape(raw, false);
    if u.Some? then u.value else raw
  }

  /** The value stored for a query value: decoded, or `""` when decoding
      fails, since the error is dropped and `QueryUnescape` then gives `""`. */
  function QueryValue(v: string): (r: string)
    ensures Unescape(v, true).Some? ==> r == Unescape(v, true).value
    ensures Unescape(v, true).None? ==> r == ""
  {
    var u := Unescape(v, true);
    if u.Some? then u.value else ""
  }

  // ---------------------------------------------------------------------
  // syncParams

  /** The assignments for one route parameter: none for an empty raw value;
      otherwise the decoded value under the name and, for a name starting
      with `*`, under `path` and `*` as well. */
  function ParamWrites(name: string, raw: string): (ws: seq<Write>)
    ensures raw == "" <==> ws == []
    ensures raw != "" ==> ws[0] == Write(name, PathValue(raw))
    ensures raw != "" && HasPrefix(name, "*") ==> ws == [Write(name, PathValue(raw)), Write("path", PathValue(raw)), Write("*", PathValue(raw))]
    ensures raw != "" && !HasPrefix(name, "*") ==> ws == [Write(name, PathValue(raw))]
  {
    if raw == "" then []
    else
      var v := Clone(PathValue(raw));
      [Write(name, v)] + (if HasPrefix(name, "*") then [Write("path", v), Write("*", v)] else [])
  }

  /** The assignments of the route-parameter loop, in route order. */
  function RouteWrites(ps: seq<(string, string)>): seq<Write>
    decreases |ps|
  {
    if ps == [] then []
    else RouteWrites(ps[..|ps| - 1]) + ParamWrites(ps[|ps| - 1].0, ps[|ps| - 1].1)
  }

  lemma RouteWritesSnoc(ps: seq<(string, string)>, name: string, raw: string)
    ensures RouteWrites(ps + [(name, raw)]) == RouteWrites(ps) + ParamWrites(name, raw)
  {
    assert (ps + [(name, raw)])[..|ps|] == ps;
  }

  lemma ApplyThree(m: Params, a: Write, b: Write, c: Write)
    ensures Apply(m, [a, b, c]) == m[a.key := a.value][b.key := b.value][c.key := c.value]
  {
    assert [a][..0] == [];
    assert Apply(m, [a]) == m[a.key := a.value];
    assert [a, b][..1] == [a];
    assert Apply(m, [a, b]) == Apply(m, [a])[b.key := b.value];
    assert [a, b, c][..2] == [a, b];
    assert Apply(m, [a, b, c]) == Apply(m, [a, b])[c.key := c.value];
  }

  lemma LastWriteThree(a: Write, b: Write, c: Write, k: string)
    requires k != a.key && k != b.key && k != c.key
    ensures LastWrite([a, b, c], k).None?
  {
    assert [a][..0] == [];
    assert LastWrite([a], k) == LastWrite([], k);
    assert [a, b][..1] == [a];
    assert LastWrite([a, b], k) == LastWrite([a], k);
    assert [a, b, c][..2] == [a, b];
    assert LastWrite([a, b, c], k) == LastWrite([a, b], k);
  }

  /** The map after one parameter's assignments. */
  lemma ApplyParamWrites(m: Params, name: string, raw: string)
    ensures raw == "" ==> Apply(m, ParamWrites(name, raw)) == m
    ensures raw != "" && HasPrefix(name, "*") ==>
      Apply(m, ParamWrites(name, raw)) == m[name := PathValue(raw)]["path" := PathValue(raw)]["*" := PathValue(raw)]
    ensures raw != "" && !HasPrefix(name, "*") ==> Apply(m, ParamWrites(name, raw)) == m[name := PathValue(raw)]
  {
    if raw != "" {
      var v := PathValue(raw);
      if HasPrefix(name, "*") {
        ApplyThree(m, Write(name, v), Write("path", v), Write("*", v));
      } else {
        assert [Write(name, v)][..0] == [];
      }
    }
  }

  /** One parameter's assignments touch its name and, for a catch-all,
      `path` and `*`; nothing when the raw value is empty. */
  lemma LastWriteParam(name: string, raw: string, k: string)
    requires raw == "" || (k != name && k != "path" && k != "*")
    ensures LastWrite(ParamWrites(name, raw), k).None?
  {
    if raw != "" {
      var v := PathValue(raw);
      if HasPrefix(name, "*") {
        LastWriteThree(Write(name, v), Write("path", v), Write("*", v), k);
      } else {
        assert [Write(name, v)][..0] == [];
      }
    }
  }

  /** The decoded queries. Query keys are distinct, so the walk order of
      the query map does not matter. */
  function QueryParams(qs: map<string, string>): (m: Params)
    ensures m.Keys == qs.Keys
    ensures forall k :: k in qs ==> m[k] == QueryValue(qs[k])
  {
    map k | k in qs :: QueryValue(qs[k])
  }

  /** The parameters `syncParams` builds: the earlier parameters (the map
      stored in the request context, when there is one), then the route
      parameters in order, then the queries over both. */
  function SyncParams(prior: Option<Params>, ps: seq<(string, string)>, qs: map<string, string>): Params
  {
    var start := if prior.Some? then prior.value else map[];
    Apply(start, RouteWrites(ps)) + QueryParams(qs)
  }

  /** The three loops of `syncParams`: the copy, the route parameters and
      the queries, into a fresh map. */
  method SyncParamsLoop(prior: Option<Params>, ps: seq<(string, string)>, qs: map<string, string>)
    returns (n: Params)
    ensures n == SyncParams(prior, ps, qs)
  {
    n := map[];
    if prior.Some? {
      n := CopyParams(prior.value);
    }
    n := RouteParamsLoop(n, ps);
    n := QueryLoop(n, qs);
  }

  /** The route-parameter loop of `syncParams`. */
  method RouteParamsLoop(start: Params, ps: seq<(string, string)>) returns (n: Params)
    ensures n == Apply(start, RouteWrites(ps))
  {
    n := start;
    for i := 0 to |ps|
      invariant n == Apply(start, RouteWrites(ps[..i]))
    {
      var p := ps[i].0;
      var rawVal := ps[i].1;
      assert ps[..i + 1] == ps[..i] + [(p, rawVal)];
      RouteWritesSnoc(ps[..i], p, rawVal);
      ApplyConcat(start, RouteWrites(ps[..i]), ParamWrites(p, rawVal));
      ApplyParamWrites(n, p, rawVal);
      if rawVal != "" {
        var unescaped := PathValue(rawVal);
        var val := Clone(unescaped);
        n := n[p := val];
        if HasPrefix(p, "*") {
          n := n["path" := val];
          n := n["*" := val];
        }
      }
    }
    assert ps[..|ps|] == ps;
  }

  /** The decoded queries among the keys `done`. */
  function QueriesOf(qs: map<string, string>, done: set<string>): Params
    requires done <= qs.Keys
  {
    map k | k in done :: QueryValue(qs[k])
  }

  lemma QueriesStep(routed: Params, qs: map<string, string>, done: set<string>, k: string)
    requires done <= qs.Keys && k in qs
    ensures (routed + QueriesOf(qs, done))[k := QueryValue(qs[k])] == routed + QueriesOf(qs, done + {k})
  {
  }

  /** The query loop of `syncParams`, in whatever order the map is walked. */
  method QueryLoop(routed: Params, qs: map<string, string>) returns (n: Params)
    ensures n == routed + QueryParams(qs)
  {
    n := routed;
    var todo := qs.Keys;
    ghost var done: set<string> := {};
    while todo != {}
      invariant todo !! done && todo + done == qs.Keys
      invariant n == routed + QueriesOf(qs, done)
      decreases |todo|
    {
      var k :| k in todo;
      var unescaped := QueryValue(qs[k]);
      var key := Clone(k);
      QueriesStep(routed, qs, done, k);
      n := n[key := Clone(unescaped)];
      todo := todo - {k};
      done := done + {k};
    }
    QueriesAll(qs, done);
  }

  lemma QueriesAll(qs: map<string, string>, done: set<string>)
    requires done == qs.Keys
    ensures QueriesOf(qs, done) == QueryParams(qs)
  {
  }

  /** A query value wins over a route parameter of the same name. */
  lemma QueryOverrides(prior: Option<Params>, ps: seq<(string, string)>, qs: map<string, string>, k: string)
    requires k in qs
    ensures SyncParams(prior, ps, qs)[k] == QueryValue(qs[k])
  {
  }

  /** A key only route parameters could give, none of which carried a value,
      stays out of the map. */
  lemma {:induction false} EmptySkipped(ps: seq<(string, string)>, k: string)
    requires k != "path" && k != "*"
    requires forall j :: 0 <= j < |ps| && ps[j].0 == k ==> ps[j].1 == ""
    ensures LastWrite(RouteWrites(ps), k).None?
    decreases |ps|
  {
    if ps != [] {
      var last := ps[|ps| - 1];
      EmptySkipped(ps[..|ps| - 1], k);
      LastWriteConcat(RouteWrites(ps[..|ps| - 1]), ParamWrites(last.0, last.1), k);
      LastWriteParam(last.0, last.1, k);
    }
  }

  /** A catch-all route (`*name`) that captured `raw` answers under its name,
      `path` and `*` with the decoded value, unless a query overrides one. */
  lemma WildcardMirrored(prior: Option<Params>, ps: seq<(string, string)>, name: string, raw: string,
                         qs: map<string, string>, k: string)
    requires HasPrefix(name, "*") && raw != ""
    requires k == name || k == "path" || k == "*"
    requires k !in qs
    ensures k in SyncParams(prior, ps + [(name, raw)], qs)
    ensures SyncParams(prior, ps + [(name, raw)], qs)[k] == PathValue(raw)
  {
    var start := if prior.Some? then prior.value else map[];
    RouteWritesSnoc(ps, name, raw);
    ApplyConcat(start, RouteWrites(ps), ParamWrites(name, raw));
    ApplyParamWrites(Apply(start, RouteWrites(ps)), name, raw);
  }

  // ---------------------------------------------------------------------
  // syncHeaders

  /** A response header map: each key with its list of values. */
  type Header = map<string, seq<string>>

  /** A character of an HTTP token (section 5.6.2 of RFC 9110), the only
      characters a header name is canonicalized over. */
  predicate TokenChar(c: char)
  {
    ('a' <= c <= 'z') || ('A' <= c <= 'Z') || ('0' <= c <= '9') || c in "!#$%&'*+-.^_`|~"
  }

  /** ASCII lower case, the case header names are compared in. */
  function Lower(c: char): char
  {
    if 'A' <= c <= 'Z' then (c as int + 32) as char else c
  }

  /** The case rewrite of `CanonicalMIMEHeaderKey`: a letter at the start
      or after `-` upper-cased, every other letter lower-cased. */
  function CanonCase(s: string, upper: bool): (r: string)
    ensures |r| == |s|
    ensures forall i :: 0 <= i < |s| ==> Lower(r[i]) == Lower(s[i])
  {
    if s == [] then []
    else
      var c := if upper && 'a' <= s[0] <= 'z' then (s[0] as int - 32) as char
               else if !upper && 'A' <= s[0] <= 'Z' then (s[0] as int + 32) as char
               else s[0];
      [c] + CanonCase(s[1..], c == '-')
  }

  /** `textproto.CanonicalMIMEHeaderKey`, which `Header.Get` and
      `Header.Add` apply to their key: a token is case-rewritten, a name
      with any other character is kept as it is. */
  function CanonicalKey(k: string): string
  {
    if IsToken(k) then CanonCase(k, true) else k
  }

  predicate IsToken(k: string)
  {
    forall i :: 0 <= i < |k| ==> TokenChar(k[i])
  }

  /** Two spellings of a token name that differ only in ASCII case share
      one canonical key. */
  lemma {:induction false} CanonCaseless(a: string, b: string, upper: bool)
    requires |a| == |b| && forall i :: 0 <= i < |a| ==> Lower(a[i]) == Lower(b[i])
    ensures CanonCase(a, upper) == CanonCase(b, upper)
    decreases |a|
  {
    if a != [] {
      assert Lower(a[0]) == Lower(b[0]);
      CanonCaseless(a[1..], b[1..], (CanonCase(a, upper))[0] == '-');
    }
  }

  lemma TokenCaseless(c: char, d: char)
    requires Lower(c) == Lower(d)
    ensures TokenChar(c) == TokenChar(d)
  {
    if c != d {
      assert ('A' <= c <= 'Z') || ('A' <= d <= 'Z');
    }
  }

  lemma SameHeaderName(a: string, b: string)
    requires IsToken(a)
    requires |a| == |b| && forall i :: 0 <= i < |a| ==> Lower(a[i]) == Lower(b[i])
    ensures CanonicalKey(a) == CanonicalKey(b)
  {
    TokensCaseless(a, b);
    CanonCaseless(a, b, true);
  }

  lemma TokensCaseless(a: string, b: string)
    requires |a| == |b| && forall i :: 0 <= i < |a| ==> Lower(a[i]) == Lower(b[i])
    ensures IsToken(a) == IsToken(b)
  {
    forall i | 0 <= i < |a|
      ensures TokenChar(a[i]) == TokenChar(b[i])
    {
      TokenCaseless(a[i], b[i]);
    }
  }

  /** Canonicalizing a canonical key changes nothing. */
  lemma {:induction false} CanonCaseFixed(s: string, upper: bool)
    ensures CanonCase(CanonCase(s, upper), upper) == CanonCase(s, upper)
    decreases |s|
  {
    if s != [] {
      var r := CanonCase(s, upper);
      CanonCaseFixed(s[1..], r[0] == '-');
      assert r[1..] == CanonCase(s[1..], r[0] == '-');
    }
  }

  lemma CanonicalKeyIdempotent(k: string)
    ensures CanonicalKey(CanonicalKey(k)) == CanonicalKey(k)
  {
    if IsToken(k) {
      var r := CanonCase(k, true);
      TokensCaseless(r, k);
      CanonCaseFixed(k, true);
    }
  }

  /** `Header.Get`: the first value under the canonical key, `""` when it
      has none. */
  function HeaderGet(h: Header, k: string): string
  {
    var ck := CanonicalKey(k);
    if ck in h && |h[ck]| > 0 then h[ck][0] else ""
  }

  /** `Header.Add`: the value appended to the list of the canonical key. */
  function HeaderAdd(h: Header, k: string, v: string): (r: Header)
    ensures r.Keys == h.Keys + {CanonicalKey(k)}
    ensures r[CanonicalKey(k)] == (if CanonicalKey(k) in h then h[CanonicalKey(k)] else []) + [v]
    ensures forall j :: j in h && j != CanonicalKey(k) ==> r[j] == h[j]
  {
    var ck := CanonicalKey(k);
    h[ck := (if ck in h then h[ck] else []) + [v]]
  }

  /** The net/http headers after the fiber headers `fs` were visited in
      order, each added only when the Go side had no value for its key. */
  function SyncedHeaders(h: Header, fs: seq<(string, string)>): Header
    decreases |fs|
  {
    if fs == [] then h
    else
      var g := SyncedHeaders(h, fs[..|fs| - 1]);
      var f := fs[|fs| - 1];
      if HeaderGet(g, f.0) == "" then HeaderAdd(g, f.0, f.1) else g
  }

  /** `syncHeaders`: the visit of fiber's response headers. */
  method SyncHeaders(h: Header, fs: seq<(string, string)>) returns (w: Header)
    ensures w == SyncedHeaders(h, fs)
  {
    w := h;
    for i := 0 to |fs|
      invariant w == SyncedHeaders(h, fs[..i])
    {
      assert fs[..i + 1][..i] == fs[..i];
      var key := Clone(fs[i].0);
      if HeaderGet(w, key) == "" {
        w := HeaderAdd(w, key, Clone(fs[i].1));
      }
    }
    assert fs[..|fs|] == fs;
  }

  /** Headers are only ever added: every key keeps its earlier values at the
      front of its list, and a canonical key the Go side already answers
      keeps exactly the values it had. */
  lemma {:induction false} SyncKeepsExisting(h: Header, fs: seq<(string, string)>, k: string)
    requires k in h
    ensures k in SyncedHeaders(h, fs) && h[k] <= SyncedHeaders(h, fs)[k]
    ensures HeaderGet(h, k) != "" && CanonicalKey(k) == k ==> SyncedHeaders(h, fs)[k] == h[k]
    decreases |fs|
  {
    if fs != [] {
      SyncKeepsExisting(h, fs[..|fs| - 1], k);
      var g := SyncedHeaders(h, fs[..|fs| - 1]);
      var f := fs[|fs| - 1];
      if HeaderGet(h, k) != "" && CanonicalKey(k) == k {
        assert HeaderGet(g, k) == HeaderGet(h, k);
        if CanonicalKey(f.0) == k {
          assert HeaderGet(g, f.0) == HeaderGet(g, k);
        }
      }
    }
  }

  /** A fiber header whose name differs only in case from a name the Go
      side already answers (`content-type` for `Content-Type`) is skipped. */
  lemma CaseVariantSkipped(h: Header, k: string, f: string, v: string)
    requires IsToken(k) && HeaderGet(h, k) != ""
    requires |f| == |k| && forall i :: 0 <= i < |f| ==> Lower(f[i]) == Lower(k[i])
    ensures SyncedHeaders(h, [(f, v)]) == h
  {
    SameHeaderName(k, f);
    assert [(f, v)][..0] == [];
    assert HeaderGet(h, f) == HeaderGet(h, k);
  }

  /** A name the Go side has no value for takes the value of the first
      fiber header whose name is the same up to canonicalization. */
  lemma {:induction false} SyncFillsMissing(h: Header, fs: seq<(string, string)>, k: string, i: nat)
    requires CanonicalKey(k) !in h || h[CanonicalKey(k)] == []
    requires i < |fs| && CanonicalKey(fs[i].0) == CanonicalKey(k)
    requires forall j :: 0 <= j < i ==> CanonicalKey(fs[j].0) != CanonicalKey(k)
    ensures CanonicalKey(k) in SyncedHeaders(h, fs) && |SyncedHeaders(h, fs)[CanonicalKey(k)]| > 0
    ensures HeaderGet(SyncedHeaders(h, fs), k) == fs[i].1
    decreases |fs|
  {
    var ck := CanonicalKey(k);
    if i == |fs| - 1 {
      NotYetAdded(h, fs[..i], ck);
      assert fs[..|fs| - 1] == fs[..i];
      var g := SyncedHeaders(h, fs[..i]);
      assert HeaderGet(g, fs[i].0) == "";
    } else {
      SyncFillsMissing(h, fs[..|fs| - 1], k, i);
      var g := SyncedHeaders(h, fs[..|fs| - 1]);
      var f := fs[|fs| - 1];
      if HeaderGet(g, f.0) == "" && CanonicalKey(f.0) == ck {
        assert HeaderAdd(g, f.0, f.1)[ck] == g[ck] + [f.1];
      }
    }
  }

  /** A key no fiber header canonicalizes to keeps what it had. */
  lemma {:induction false} NotYetAdded(h: Header, fs: seq<(string, string)>, ck: string)
    requires forall j :: 0 <= j < |fs| ==> CanonicalKey(fs[j].0) != ck
    ensures (ck in SyncedHeaders(h, fs) <==> ck in h) && (ck in h ==> SyncedHeaders(h, fs)[ck] == h[ck])
    decreases |fs|
  {
    if fs != [] {
      NotYetAdded(h, fs[..|fs| - 1], ck);
    }
  }
}
