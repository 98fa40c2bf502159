/** The anchored pattern `buildRegex` builds for a route of a shadow zone
    (identical in the gin and echo adapters), as a token sequence, and the
    leftmost-first matcher Go's `regexp` runs on it.

    `buildRegex` marks `:` as `__P__` and `*` as `__W__`, quotes the rest,
    turns `__P__name` into a `[^/]+` group named `name` (dots written as
    `_DOT_`) and `__W__name` into a `.*` group (name `any` when empty).
    Quoting runs before the `__P__` rewrite, so a dot after a parameter is
    already `\.` and ends the name: `dotsInNames` is false for the code as
    written and true for the evidently intended rewrite. */
module Pattern {
  import opened Text
  import opened Routing

  /** One position of the pattern: a literal character, a `[^/]+` group or a
      `.*` group, each group carrying its regexp group name. */
  datatype Token = Lit(c: char) | Cap(name: string) | Rest(name: string)

  /** The compiled route: its tokens and the wildcard name `buildRegex`
      returns (the name of its last `.*` group, `""` when it has none). */
  datatype Compiled = Compiled(toks: seq<Token>, wildcard: string)

  predicate WordChar(c: char)
  {
    ('a' <= c <= 'z') || ('A' <= c <= 'Z') || ('0' <= c <= '9') || c == '_'
  }

  predicate ParamChar(c: char, dotsInNames: bool)
  {
    WordChar(c) || (dotsInNames && c == '.')
  }

  /** The string after the two placeholder substitutions. */
  function Mark(path: string): string
  {
    ReplaceAll(ReplaceAll(path, [':'], "__P__"), ['*'], "__W__")
  }

  /** The marked string after the `__P__` rewrite: literal characters and
      parameter names. */
  datatype Piece = Chr(c: char) | Param(name: string)

  function ParamRun(s: string, dotsInNames: bool): (n: nat)
    ensures n <= |s|
    ensures forall i :: 0 <= i < n ==> ParamChar(s[i], dotsInNames)
    ensures n == |s| || !ParamChar(s[n], dotsInNames)
  {
    if s != [] && ParamChar(s[0], dotsInNames) then 1 + ParamRun(s[1..], dotsInNames) else 0
  }

  predicate ParamAt(m: string, dotsInNames: bool)
  {
    |m| > 5 && m[..5] == "__P__" && ParamChar(m[5], dotsInNames)
  }

  /** Leftmost, greedy, non-overlapping replacement of `__P__` followed by
      one or more name characters. */
  function PScan(m: string, dotsInNames: bool): seq<Piece>
    decreases |m|
  {
    if m == [] then []
    else if ParamAt(m, dotsInNames) then
      var n := ParamRun(m[5..], dotsInNames);
      [Param(m[5..5 + n])] + PScan(m[5 + n..], dotsInNames)
    else [Chr(m[0])] + PScan(m[1..], dotsInNames)
  }

  predicate WAt(ps: seq<Piece>)
  {
    |ps| >= 5 && ps[0] == Chr('_') && ps[1] == Chr('_') && ps[2] == Chr('W')
    && ps[3] == Chr('_') && ps[4] == Chr('_')
  }

  /** The word characters a `__W__` group name takes: it cannot reach into a
      parameter group, whose text starts with `(`. */
  function WName(ps: seq<Piece>): (w: string)
    ensures |w| <= |ps|
    ensures forall i :: 0 <= i < |w| ==> ps[i] == Chr(w[i]) && WordChar(w[i])
    ensures |w| == |ps| || !(ps[|w|].Chr? && WordChar(ps[|w|].c))
  {
    if ps != [] && ps[0].Chr? && WordChar(ps[0].c) then [ps[0].c] + WName(ps[1..]) else ""
  }

  /** The group name a parameter gets: dots written as `_DOT_`. */
  function SafeName(name: string): string
  {
    ReplaceAll(name, ['.'], "_DOT_")
  }

  /** The parameter key a group's capture is stored under: `_DOT_` turned
      back into dots. */
  function RestoreName(group: string): string
  {
    ReplaceAll(group, "_DOT_", ".")
  }

  /** The `__W__` rewrite, which also turns the remaining characters into literals. */
  function WScan(ps: seq<Piece>): seq<Token>
    decreases |ps|
  {
    if ps == [] then []
    else if ps[0].Param? then [Cap(SafeName(ps[0].name))] + WScan(ps[1..])
    else if WAt(ps) then
      var w := WName(ps[5..]);
      [Rest(if w == "" then "any" else w)] + WScan(ps[5 + |w|..])
    else [Lit(ps[0].c)] + WScan(ps[1..])
  }

  /** A group name that itself holds `__W__` is rewritten again by the
      wildcard pass and no longer compiles: `MustCompile` panics. */
  predicate Broken(ps: seq<Piece>)
  {
    exists i :: 0 <= i < |ps| && ps[i].Param? && ContainsSub(SafeName(ps[i].name), "__W__")
  }

  function LastRest(toks: seq<Token>): string
    decreases |toks|
  {
    if toks == [] then ""
    else if toks[|toks| - 1].Rest? then toks[|toks| - 1].name
    else LastRest(toks[..|toks| - 1])
  }

  function CompileWith(path: string, dotsInNames: bool): Option<Compiled>
  {
    var ps := PScan(Mark(path), dotsInNames);
    if Broken(ps) then None
    else
      var toks := WScan(ps);
      Some(Compiled(toks, LastRest(toks)))
  }

  /** `buildRegex` as written. */
  function CompileAsWritten(path: string): Option<Compiled>
  {
    CompileWith(path, false)
  }

  /** `buildRegex` with dots kept in parameter names, as its own rewrite of
      dots into `_DOT_` intends. */
  function Compile(path: string): Option<Compiled>
  {
    CompileWith(path, true)
  }

  // ---------------------------------------------------------------------
  // The matcher

  predicate Allowed(t: Token, c: char)
  {
    if t.Cap? then c != '/' else c != '\n'
  }

  function MinLen(t: Token): nat
  {
    if t.Cap? then 1 else 0
  }

  /** The longest run at the start of `s` a group token may take. */
  function Span(t: Token, s: string): (n: nat)
    ensures n <= |s|
    ensures forall i :: 0 <= i < n ==> Allowed(t, s[i])
    ensures n == |s| || !Allowed(t, s[n])
  {
    if s != [] && Allowed(t, s[0]) then 1 + Span(t, s[1..]) else 0
  }

  /** What one token may take of the input. */
  predicate Fits(t: Token, v: string)
  {
    if t.Lit? then v == [t.c]
    else |v| >= MinLen(t) && forall i :: 0 <= i < |v| ==> Allowed(t, v[i])
  }

  function Concat(ps: seq<string>): string
  {
    if ps == [] then "" else ps[0] + Concat(ps[1..])
  }

  /** `ps` cuts `s` into one piece per token, each piece fitting its token. */
  predicate Splits(toks: seq<Token>, s: string, ps: seq<string>)
  {
    |ps| == |toks| && (forall i :: 0 <= i < |ps| ==> Fits(toks[i], ps[i])) && Concat(ps) == s
  }

  /** The anchored match: the pieces the leftmost-first (backtracking,
      greedy) search finds, or `None` when the pattern does not match. */
  function MatchFrom(toks: seq<Token>, s: string): (r: Option<seq<string>>)
    ensures r.Some? ==> Splits(toks, s, r.value)
    decreases |toks|, 1, 0
  {
    if toks == [] then (if s == [] then Some([]) else None)
    else if toks[0].Lit? then
      if s != [] && s[0] == toks[0].c then
        match MatchFrom(toks[1..], s[1..])
        case Some(ps) => Some([s[..1]] + ps)
        case None => None
      else None
    else TryFrom(toks, s, Span(toks[0], s))
  }

  /** Tries the group at the head with `k` characters, then fewer. */
  function TryFrom(toks: seq<Token>, s: string, k: nat): (r: Option<seq<string>>)
    requires toks != [] && !toks[0].Lit? && k <= Span(toks[0], s)
    ensures r.Some? ==> Splits(toks, s, r.value)
    decreases |toks|, 0, k
  {
    if k < MinLen(toks[0]) then None
    else
      match MatchFrom(toks[1..], s[k..])
      case Some(ps) =>
        assert s[..k] + s[k..] == s;
        Some([s[..k]] + ps)
      case None => if k == 0 then None else TryFrom(toks, s, k - 1)
  }

  lemma {:induction false} TryFromFinds(toks: seq<Token>, s: string, k: nat, j: nat)
    requires toks != [] && !toks[0].Lit? && k <= Span(toks[0], s)
    requires MinLen(toks[0]) <= j <= k && MatchFrom(toks[1..], s[j..]).Some?
    ensures TryFrom(toks, s, k).Some?
    decreases k
  {
    if MatchFrom(toks[1..], s[k..]).None? {
      TryFromFinds(toks, s, k - 1, j);
    }
  }

  /** The matcher finds a match whenever the input can be cut into pieces
      that fit the tokens. */
  lemma {:induction false} MatchComplete(toks: seq<Token>, s: string, ps: seq<string>)
    requires Splits(toks, s, ps)
    ensures MatchFrom(toks, s).Some?
    decreases |toks|
  {
    if toks != [] {
      assert Concat(ps) == ps[0] + Concat(ps[1..]);
      assert Splits(toks[1..], s[|ps[0]|..], ps[1..]) by {
        assert s[|ps[0]|..] == Concat(ps[1..]);
        forall i | 0 <= i < |ps[1..]|
          ensures Fits(toks[1..][i], ps[1..][i])
        {
          assert Fits(toks[i + 1], ps[i + 1]);
        }
      }
      MatchComplete(toks[1..], s[|ps[0]|..], ps[1..]);
      if toks[0].Lit? {
        assert Fits(toks[0], ps[0]);
        assert s[0] == toks[0].c && s[|ps[0]|..] == s[1..];
      } else {
        var j := |ps[0]|;
        assert Fits(toks[0], ps[0]);
        assert ps[0] == s[..j];
        SpanCovers(toks[0], s, j);
        TryFromFinds(toks, s, Span(toks[0], s), j);
      }
    }
  }

  lemma SpanCovers(t: Token, s: string, j: nat)
    requires j <= |s| && forall i :: 0 <= i < j ==> Allowed(t, s[i])
    ensures j <= Span(t, s)
  {
  }

  /** The pattern matches exactly the inputs that can be cut into fitting pieces. */
  lemma MatchIff(toks: seq<Token>, s: string)
    ensures MatchFrom(toks, s).Some? <==> exists ps :: Splits(toks, s, ps)
  {
    if MatchFrom(toks, s).Some? {
      assert Splits(toks, s, MatchFrom(toks, s).value);
    }
    if exists ps :: Splits(toks, s, ps) {
      var ps :| Splits(toks, s, ps);
      MatchComplete(toks, s, ps);
    }
  }

  /** `ps` is preferred to `qs` by the leftmost-first search: at the first
      piece where they differ, `ps` takes more. */
  predicate Prefers(ps: seq<string>, qs: seq<string>)
  {
    ps == qs || exists i :: 0 <= i < |ps| && i < |qs| && ps[..i] == qs[..i] && |ps[i]| > |qs[i]|
  }

  lemma PrefersCons(x: string, ps: seq<string>, qs: seq<string>)
    requires Prefers(ps, qs)
    ensures Prefers([x] + ps, [x] + qs)
  {
    if ps != qs {
      var i :| 0 <= i < |ps| && i < |qs| && ps[..i] == qs[..i] && |ps[i]| > |qs[i]|;
      assert ([x] + ps)[..i + 1] == [x] + ps[..i];
      assert ([x] + qs)[..i + 1] == [x] + qs[..i];
      assert ([x] + ps)[i + 1] == ps[i] && ([x] + qs)[i + 1] == qs[i];
    }
  }

  lemma {:induction false} TryFromTakesMost(toks: seq<Token>, s: string, k: nat, j: nat)
    requires toks != [] && !toks[0].Lit? && k <= Span(toks[0], s)
    requires MinLen(toks[0]) <= j <= k && MatchFrom(toks[1..], s[j..]).Some?
    ensures TryFrom(toks, s, k).Some?
    ensures j <= |TryFrom(toks, s, k).value[0]| <= k
    ensures TryFrom(toks, s, k).value[0] == s[..|TryFrom(toks, s, k).value[0]|]
    ensures MatchFrom(toks[1..], s[|TryFrom(toks, s, k).value[0]|..]) == Some(TryFrom(toks, s, k).value[1..])
    decreases k
  {
    if MatchFrom(toks[1..], s[k..]).None? {
      TryFromTakesMost(toks, s, k - 1, j);
    }
  }

  /** The pieces after the first of a split of `s` split the rest of `s`. */
  lemma SplitsTail(toks: seq<Token>, s: string, qs: seq<string>)
    requires Splits(toks, s, qs) && toks != []
    ensures |qs[0]| <= |s| && qs[0] == s[..|qs[0]|] && Fits(toks[0], qs[0])
    ensures Splits(toks[1..], s[|qs[0]|..], qs[1..])
  {
    assert Concat(qs) == qs[0] + Concat(qs[1..]);
    assert s[|qs[0]|..] == Concat(qs[1..]);
    forall i | 0 <= i < |qs[1..]|
      ensures Fits(toks[1..][i], qs[1..][i])
    {
      assert Fits(toks[i + 1], qs[i + 1]);
    }
  }

  /** Go's leftmost-first rule: among all ways of cutting the input, the
      matcher returns the one whose earliest differing group is longest. This
      is what decides the captured values. */
  lemma {:induction false} MatchGreedy(toks: seq<Token>, s: string, qs: seq<string>)
    requires Splits(toks, s, qs)
    ensures MatchFrom(toks, s).Some? && Prefers(MatchFrom(toks, s).value, qs)
    decreases |toks|
  {
    MatchComplete(toks, s, qs);
    if toks != [] {
      SplitsTail(toks, s, qs);
      if toks[0].Lit? {
        GreedyLit(toks, s, qs);
      } else {
        GreedyGroup(toks, s, qs);
      }
    }
  }

  lemma {:induction false} GreedyLit(toks: seq<Token>, s: string, qs: seq<string>)
    requires Splits(toks, s, qs) && toks != [] && toks[0].Lit?
    ensures MatchFrom(toks, s).Some? && Prefers(MatchFrom(toks, s).value, qs)
    decreases |toks|, 0
  {
    SplitsTail(toks, s, qs);
    assert |qs[0]| == 1;
    MatchGreedy(toks[1..], s[1..], qs[1..]);
    var tail := MatchFrom(toks[1..], s[1..]).value;
    assert MatchFrom(toks, s) == Some([s[..1]] + tail);
    PrefersCons(s[..1], tail, qs[1..]);
    assert [s[..1]] + qs[1..] == qs;
  }

  lemma {:induction false} GreedyGroup(toks: seq<Token>, s: string, qs: seq<string>)
    requires Splits(toks, s, qs) && toks != [] && !toks[0].Lit?
    ensures MatchFrom(toks, s).Some? && Prefers(MatchFrom(toks, s).value, qs)
    decreases |toks|, 0
  {
    SplitsTail(toks, s, qs);
    var j := |qs[0]|;
    SpanCovers(toks[0], s, j);
    MatchComplete(toks[1..], s[j..], qs[1..]);
    TryFromTakesMost(toks, s, Span(toks[0], s), j);
    var ps := MatchFrom(toks, s).value;
    assert ps == TryFrom(toks, s, Span(toks[0], s)).value;
    if |ps[0]| == j {
      MatchGreedy(toks[1..], s[j..], qs[1..]);
      PrefersCons(ps[0], ps[1..], qs[1..]);
      assert [ps[0]] + ps[1..] == ps;
      assert [ps[0]] + qs[1..] == qs;
    } else {
      assert ps[..0] == qs[..0];
    }
  }

  /** The (group name, captured text) pairs of a match, in pattern order:
      what `SubexpNames` and `FindStringSubmatch` give together. */
  function Captures(toks: seq<Token>, ps: seq<string>): seq<(string, string)>
    requires |ps| == |toks|
    decreases |toks|
  {
    if toks == [] then []
    else if toks[0].Lit? then Captures(toks[1..], ps[1..])
    else [(toks[0].name, ps[0])] + Captures(toks[1..], ps[1..])
  }

  // ---------------------------------------------------------------------
  // Shadow-zone dispatch

  /** A route of a shadow zone with its compiled pattern. */
  datatype Entry = Entry(route: Route, pat: Compiled)

  predicate Candidate(e: Entry, verb: string, path: string)
  {
    e.route.verb == verb && MatchFrom(e.pat.toks, path).Some?
  }

  /** The first route of the zone, in its sorted order, with the request's
      method whose pattern matches the request path. */
  function FirstMatch(zone: seq<Entry>, verb: string, path: string): (r: Option<nat>)
    ensures r.Some? ==> r.value < |zone| && Candidate(zone[r.value], verb, path)
    ensures r.Some? ==> forall j :: 0 <= j < r.value ==> !Candidate(zone[j], verb, path)
    ensures r.None? ==> forall j :: 0 <= j < |zone| ==> !Candidate(zone[j], verb, path)
    decreases |zone|
  {
    if zone == [] then None
    else if Candidate(zone[0], verb, path) then Some(0)
    else
      match FirstMatch(zone[1..], verb, path)
      case Some(i) => Some(i + 1)
      case None => None
  }

  /** The dispatch loop of the shadow handler: skip routes of another
      method, stop at the first whose pattern matches. */
  method FindFirst(zone: seq<Entry>, verb: string, path: string) returns (r: Option<nat>)
    ensures r == FirstMatch(zone, verb, path)
  {
    var i := 0;
    while i < |zone|
      invariant 0 <= i <= |zone|
      invariant forall j :: 0 <= j < i ==> !Candidate(zone[j], verb, path)
    {
      if zone[i].route.verb == verb {
        var m := MatchFrom(zone[i].pat.toks, path);
        if m.Some? {
          FirstMatchIs(zone, verb, path, i);
          return Some(i);
        }
      }
      i := i + 1;
    }
    FirstMatchNone(zone, verb, path);
    return None;
  }

  lemma FirstMatchIs(zone: seq<Entry>, verb: string, path: string, i: nat)
    requires i < |zone| && Candidate(zone[i], verb, path)
    requires forall j :: 0 <= j < i ==> !Candidate(zone[j], verb, path)
    ensures FirstMatch(zone, verb, path) == Some(i)
  {
  }

  lemma FirstMatchNone(zone: seq<Entry>, verb: string, path: string)
    requires forall j :: 0 <= j < |zone| ==> !Candidate(zone[j], verb, path)
    ensures FirstMatch(zone, verb, path) == None
  {
  }

  /** `deployShadowRouter` before it serves: the zone stably sorted by score,
      each route compiled; `None` when one pattern does not compile. */
  function CompileZone(rs: seq<Route>, dotsInNames: bool): (r: Option<seq<Entry>>)
    ensures r.Some? ==> |r.value| == |rs|
    ensures r.Some? ==> forall i :: 0 <= i < |rs| ==>
      (r.value[i].route == rs[i] && CompileWith(rs[i].path, dotsInNames) == Some(r.value[i].pat))
    ensures r.None? <==> exists i :: 0 <= i < |rs| && CompileWith(rs[i].path, dotsInNames).None?
    decreases |rs|
  {
    if rs == [] then Some([])
    else
      match CompileWith(rs[0].path, dotsInNames)
      case None => None
      case Some(c) =>
        match CompileZone(rs[1..], dotsInNames)
        case None =>
          ghost var i :| 1 <= i + 1 < |rs| + 1 && i < |rs[1..]| && CompileWith(rs[1..][i].path, dotsInNames).None?;
          assert CompileWith(rs[i + 1].path, dotsInNames).None?;
          None
        case Some(es) =>
          assert forall i :: 1 <= i < |rs| ==> rs[i] == rs[1..][i - 1];
          Some([Entry(rs[0], c)] + es)
  }

  function DeployZone(rs: seq<Route>, dotsInNames: bool): Option<seq<Entry>>
  {
    CompileZone(SortByScore(rs), dotsInNames)
  }
}
