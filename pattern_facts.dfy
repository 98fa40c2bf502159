/** What the compiled patterns of the three route shapes look like, and what
    they match: a static path, a path with one `:name` segment, a path ending
    in `*name`. */
module PatternFacts {
  import opened Text
  import opened Routing
  import opened Pattern

  /** Text with no two `_` in a row. Both markers start with `__`, so such
      text can neither hold one nor complete one that follows it. */
  predicate NoDouble(s: string)
  {
    forall i :: 0 <= i < |s| - 1 ==> !(s[i] == '_' && s[i + 1] == '_')
  }

  /** Route text with no placeholder and nothing the placeholder scans can
      react to: no `:`, no `*` and no `__`. A single `_`, as in
      `/user_info`, is allowed. */
  predicate Plain(s: string)
  {
    (forall i :: 0 <= i < |s| ==> s[i] != ':' && s[i] != '*') && NoDouble(s)
  }

  lemma NoDoubleTail(x: string)
    requires x != [] && NoDouble(x)
    ensures NoDouble(x[1..])
  {
    forall i | 0 <= i < |x[1..]| - 1
      ensures !(x[1..][i] == '_' && x[1..][i + 1] == '_')
    {
      assert x[1..][i] == x[i + 1] && x[1..][i + 1] == x[i + 2];
    }
  }

  function Lits(s: string): (r: seq<Token>)
    ensures |r| == |s|
    ensures forall i :: 0 <= i < |s| ==> r[i] == Lit(s[i])
  {
    if s == [] then [] else [Lit(s[0])] + Lits(s[1..])
  }

  function Chrs(s: string): (r: seq<Piece>)
    ensures |r| == |s|
    ensures forall i :: 0 <= i < |s| ==> r[i] == Chr(s[i])
  {
    if s == [] then [] else [Chr(s[0])] + Chrs(s[1..])
  }

  /** The pieces a literal text is cut into. */
  function Singles(s: string): (r: seq<string>)
    ensures |r| == |s|
    ensures forall i :: 0 <= i < |s| ==> r[i] == [s[i]]
  {
    if s == [] then [] else [[s[0]]] + Singles(s[1..])
  }

  lemma LitsAppend(x: string, y: string)
    ensures Lits(x + y) == Lits(x) + Lits(y)
  {
  }

  lemma ChrsAppend(x: string, y: string)
    ensures Chrs(x + y) == Chrs(x) + Chrs(y)
  {
  }

  // ---------------------------------------------------------------------
  // Marking and scanning over concatenations

  lemma {:induction false} ReplaceCharAppend(x: string, y: string, c: char, rep: string)
    ensures ReplaceAll(x + y, [c], rep) == ReplaceAll(x, [c], rep) + ReplaceAll(y, [c], rep)
    decreases |x|
  {
    if x == [] {
      assert x + y == y;
    } else {
      assert (x + y)[..1] == x[..1] && (x + y)[1..] == x[1..] + y;
      ReplaceCharAppend(x[1..], y, c, rep);
      if x[..1] != [c] {
        assert (x + y)[0] == x[0];
      }
    }
  }

  lemma MarkAppend(x: string, y: string)
    ensures Mark(x + y) == Mark(x) + Mark(y)
  {
    ReplaceCharAppend(x, y, ':', "__P__");
    ReplaceCharAppend(ReplaceAll(x, [':'], "__P__"), ReplaceAll(y, [':'], "__P__"), '*', "__W__");
  }

  /** Text without `:` and `*` is not changed by marking. */
  lemma MarkPlain(s: string)
    requires ':' !in s && '*' !in s
    ensures Mark(s) == s
  {
    ReplaceAbsentChar(s, ':', "__P__");
    ReplaceAbsentChar(s, '*', "__W__");
  }

  lemma MarkColon()
    ensures Mark(":") == "__P__"
  {
    assert ReplaceAll(":", [':'], "__P__") == "__P__" + ReplaceAll("", [':'], "__P__");
    ReplaceAbsentChar("__P__", '*', "__W__");
  }

  lemma MarkStar()
    ensures Mark("*") == "__W__"
  {
    ReplaceAbsentChar("*", ':', "__P__");
    assert ReplaceAll("*", ['*'], "__W__") == "__W__" + ReplaceAll("", ['*'], "__W__");
  }
  /** No character of text without `__` starts a `__P__` marker, unless the
      text ends in `_` and what follows starts with `_P`. */
  lemma NoParamHead(x: string, y: string, d: bool)
    requires x != [] && NoDouble(x)
    requires !(|y| >= 2 && y[0] == '_' && y[1] == 'P')
    ensures !ParamAt(x + y, d)
  {
    var m := x + y;
    if x[0] != '_' {
      NotParamAtIdx(m, d, 0);
    } else if |x| > 1 {
      assert m[1] == x[1] != '_';
      NotParamAtIdx(m, d, 1);
    } else if |y| >= 1 && y[0] != '_' {
      assert m[1] == y[0];
      NotParamAtIdx(m, d, 1);
    } else if |y| >= 2 {
      assert m[2] == y[1];
      NotParamAtIdx(m, d, 2);
    }
  }

  /** Text without `__` is copied by the parameter scan. */
  lemma {:induction false} PScanPlain(x: string, y: string, d: bool)
    requires NoDouble(x)
    requires !(|y| >= 2 && y[0] == '_' && y[1] == 'P')
    ensures PScan(x + y, d) == Chrs(x) + PScan(y, d)
    decreases |x|
  {
    if x == [] {
      assert x + y == y;
    } else {
      var m := x + y;
      var x' := x[1..];
      NoDoubleTail(x);
      assert m[0] == x[0] && m[1..] == x' + y;
      NoParamHead(x, y, d);
      PScanNotAt(m, d);
      PScanPlain(x', y, d);
      assert Chrs(x) == [Chr(x[0])] + Chrs(x');
      ConsAssoc(Chr(x[0]), Chrs(x'), PScan(y, d));
    }
  }

  lemma {:induction false} ParamRunExact(run: string, y: string, d: bool)
    requires forall i :: 0 <= i < |run| ==> ParamChar(run[i], d)
    requires y == [] || !ParamChar(y[0], d)
    ensures ParamRun(run + y, d) == |run|
    decreases |run|
  {
    if run == [] {
      assert run + y == y;
    } else {
      assert (run + y)[0] == run[0] && (run + y)[1..] == run[1..] + y;
      ParamRunExact(run[1..], y, d);
    }
  }

  /** A maximal run of name characters after `__P__` becomes one parameter. */
  lemma PScanParam(run: string, y: string, d: bool)
    requires run != [] && forall i :: 0 <= i < |run| ==> ParamChar(run[i], d)
    requires y == [] || !ParamChar(y[0], d)
    ensures PScan("__P__" + run + y, d) == [Param(run)] + PScan(y, d)
  {
    var u := run + y;
    assert "__P__" + run + y == "__P__" + u;
    assert u[0] == run[0];
    MarkerAt(u, d);
    ParamRunExact(run, y, d);
    PScanAtParam("__P__" + u, run, y, d);
  }

  lemma MarkerAt(u: string, d: bool)
    requires u != [] && ParamChar(u[0], d)
    ensures ParamAt("__P__" + u, d) && ("__P__" + u)[5..] == u
  {
    var m := "__P__" + u;
    assert m[..5] == "__P__";
    assert m[5] == u[0];
  }

  lemma PScanAtParam(m: string, run: string, y: string, d: bool)
    requires ParamAt(m, d) && m[5..] == run + y && ParamRun(run + y, d) == |run|
    ensures PScan(m, d) == [Param(run)] + PScan(y, d)
  {
    var n := |run|;
    assert m[5..5 + n] == (run + y)[..n] == run;
    assert m[5 + n..] == (run + y)[n..] == y;
  }

  /** A `__W__` marker followed by a name without `__` is not touched by the
      parameter scan. */
  lemma PScanStar(w: string, d: bool)
    requires NoDouble(w)
    ensures PScan("__W__" + w, d) == Chrs("__W__" + w)
  {
    var m := "__W__" + w;
    StarWindows(w, d);
    PScanChrs(w, d);
    assert m[4..][1..] == w;
    SameStep(m[4..], d);
    assert m[3..][1..] == m[4..];
    SameStep(m[3..], d);
    assert m[2..][1..] == m[3..];
    SameStep(m[2..], d);
    assert m[1..][1..] == m[2..];
    SameStep(m[1..], d);
    SameStep(m, d);
  }

  /** No window of `__W__` followed by a name without `__` is a parameter. */
  lemma StarWindows(w: string, d: bool)
    requires NoDouble(w)
    ensures var m := "__W__" + w;
      m[..5] == "__W__" && m[5..] == w &&
      !ParamAt(m, d) && !ParamAt(m[1..], d) && !ParamAt(m[2..], d) && !ParamAt(m[3..], d) && !ParamAt(m[4..], d)
  {
    var m := "__W__" + w;
    assert m[2] == 'W' && m[1..][1] == 'W' && m[2..][0] == 'W';
    NotParamAtIdx(m, d, 2);
    NotParamAtIdx(m[1..], d, 1);
    NotParamAtIdx(m[2..], d, 0);
    if |w| >= 4 {
      var t := m[3..];
      assert t[2] == w[0] && t[3] == w[1] && t[4] == w[2];
      if w[0] != 'P' {
        NotParamAtIdx(t, d, 2);
      } else if w[1] != '_' {
        NotParamAtIdx(t, d, 3);
      } else {
        assert w[2] != '_';
        NotParamAtIdx(t, d, 4);
      }
    }
    if |w| >= 5 {
      var t := m[4..];
      assert t[1] == w[0] && t[2] == w[1] && t[3] == w[2] && t[4] == w[3];
      if w[0] != '_' {
        NotParamAtIdx(t, d, 1);
      } else if w[1] != 'P' {
        NotParamAtIdx(t, d, 2);
      } else if w[2] != '_' {
        NotParamAtIdx(t, d, 3);
      } else {
        assert w[3] != '_';
        NotParamAtIdx(t, d, 4);
      }
    }
  }

  /** A character that starts no parameter is scanned as itself. */
  lemma SameStep(m: string, d: bool)
    requires m != [] && !ParamAt(m, d) && PScan(m[1..], d) == Chrs(m[1..])
    ensures PScan(m, d) == Chrs(m)
  {
  }

  /** A window that differs from `__P__` at one of its five places does not
      start a parameter. */
  lemma NotParamAtIdx(m: string, d: bool, k: nat)
    requires k < 5 && k < |m| && m[k] != "__P__"[k]
    ensures !ParamAt(m, d)
  {
    if |m| > 5 {
      assert m[..5][k] == m[k];
    }
  }

  lemma PScanNotAt(m: string, d: bool)
    requires m != [] && !ParamAt(m, d)
    ensures PScan(m, d) == [Chr(m[0])] + PScan(m[1..], d)
  {
  }

  /** No character of text without `__` starts a `__W__` marker, unless the
      text ends in `_` and what follows starts with `_W`. */
  lemma NoWildHead(x: string, ps: seq<Piece>)
    requires x != [] && NoDouble(x)
    requires !(|ps| >= 2 && ps[0] == Chr('_') && ps[1] == Chr('W'))
    ensures !WAt(Chrs(x) + ps)
  {
    var q := Chrs(x) + ps;
    if |x| > 1 {
      assert q[0] == Chr(x[0]) && q[1] == Chr(x[1]);
    } else if |ps| >= 2 {
      assert q[0] == Chr(x[0]) && q[1] == ps[0] && q[2] == ps[1];
    }
  }

  /** Text without `__` is turned into literals by the wildcard scan. */
  lemma {:induction false} WScanPlain(x: string, ps: seq<Piece>)
    requires NoDouble(x)
    requires !(|ps| >= 2 && ps[0] == Chr('_') && ps[1] == Chr('W'))
    ensures WScan(Chrs(x) + ps) == Lits(x) + WScan(ps)
    decreases |x|
  {
    if x == [] {
      assert Chrs(x) + ps == ps;
    } else {
      var q := Chrs(x) + ps;
      assert q[0] == Chr(x[0]) && q[1..] == Chrs(x[1..]) + ps;
      NoDoubleTail(x);
      WScanPlain(x[1..], ps);
      NoWildHead(x, ps);
      WScanLit(q, x[0]);
      LitsCons(x);
      ConsAssoc(Lit(x[0]), Lits(x[1..]), WScan(ps));
    }
  }

  /** A character that starts no marker scans as itself. */
  lemma WScanLit(q: seq<Piece>, c: char)
    requires q != [] && q[0] == Chr(c) && !WAt(q)
    ensures WScan(q) == [Lit(c)] + WScan(q[1..])
  {
  }

  lemma LitsCons(x: string)
    requires x != []
    ensures Lits(x) == [Lit(x[0])] + Lits(x[1..])
  {
  }

  lemma {:induction false} WNameExact(w: string, ps: seq<Piece>)
    requires forall i :: 0 <= i < |w| ==> WordChar(w[i])
    requires ps == [] || !(ps[0].Chr? && WordChar(ps[0].c))
    ensures WName(Chrs(w) + ps) == w
    decreases |w|
  {
    if w == [] {
      assert Chrs(w) + ps == ps;
    } else {
      var q := Chrs(w) + ps;
      assert q[0] == Chr(w[0]) && q[1..] == Chrs(w[1..]) + ps;
      WNameExact(w[1..], ps);
      WNameCons(q, w[0]);
      assert w == [w[0]] + w[1..];
    }
  }

  lemma WNameCons(q: seq<Piece>, c: char)
    requires q != [] && q[0] == Chr(c) && WordChar(c)
    ensures WName(q) == [c] + WName(q[1..])
  {
  }

  lemma ChrsStar(w: string)
    ensures WAt(Chrs("__W__" + w)) && Chrs("__W__" + w)[5..] == Chrs(w)
  {
    ChrsAppend("__W__", w);
  }

  lemma WScanAt(ps: seq<Piece>)
    requires WAt(ps)
    ensures WScan(ps) == [Rest(if WName(ps[5..]) == "" then "any" else WName(ps[5..]))]
                         + WScan(ps[5 + |WName(ps[5..])|..])
  {
  }

  /** `__W__name` becomes one wildcard group, named `any` when the name is empty. */
  lemma WScanStarAt(q: seq<Piece>, w: string)
    requires WAt(q) && q[5..] == Chrs(w)
    requires forall i :: 0 <= i < |w| ==> WordChar(w[i])
    ensures WScan(q) == [Rest(if w == "" then "any" else w)]
  {
    assert WName(q[5..]) == w by {
      assert q[5..] == Chrs(w) + [];
      WNameExact(w, []);
    }
    assert q[5 + |w|..] == [];
    WScanAt(q);
  }


  lemma WScanPieces(a: seq<Piece>, name: string)
    ensures WScan([Param(name)] + a) == [Cap(SafeName(name))] + WScan(a)
  {
    assert ([Param(name)] + a)[1..] == a;
  }

  lemma NotBrokenChrs(x: string)
    ensures !Broken(Chrs(x))
  {
  }

  lemma BrokenAppend(a: seq<Piece>, b: seq<Piece>)
    ensures Broken(a + b) <==> Broken(a) || Broken(b)
  {
    if Broken(a + b) {
      var i :| 0 <= i < |a + b| && (a + b)[i].Param? && ContainsSub(SafeName((a + b)[i].name), "__W__");
      if i >= |a| {
        assert b[i - |a|] == (a + b)[i];
      } else {
        assert a[i] == (a + b)[i];
      }
    }
    if Broken(a) {
      var i :| 0 <= i < |a| && a[i].Param? && ContainsSub(SafeName(a[i].name), "__W__");
      assert (a + b)[i] == a[i];
    }
    if Broken(b) {
      var i :| 0 <= i < |b| && b[i].Param? && ContainsSub(SafeName(b[i].name), "__W__");
      assert (a + b)[|a| + i] == b[i];
    }
  }

  /** Tokens other than wildcard groups do not change the wildcard name. */
  lemma {:induction false} LastRestNoRest(ts: seq<Token>, u: seq<Token>)
    requires forall i :: 0 <= i < |u| ==> !u[i].Rest?
    ensures LastRest(ts + u) == LastRest(ts)
    decreases |u|
  {
    if u == [] {
      assert ts + u == ts;
    } else {
      var all := ts + u;
      assert all[|all| - 1] == u[|u| - 1];
      assert all[..|all| - 1] == ts + u[..|u| - 1];
      LastRestNoRest(ts, u[..|u| - 1]);
    }
  }

  lemma LastRestLits(ts: seq<Token>, x: string)
    ensures LastRest(ts + Lits(x)) == LastRest(ts)
  {
    LastRestNoRest(ts, Lits(x));
  }

  lemma LastRestOfLits(x: string)
    ensures LastRest(Lits(x)) == ""
  {
    LastRestLits([], x);
    assert [] + Lits(x) == Lits(x);
  }

  // ---------------------------------------------------------------------
  // The three route shapes

  /** A static route compiles to its own characters and has no wildcard. */
  lemma CompileStatic(p: string, d: bool)
    requires Plain(p)
    ensures CompileWith(p, d) == Some(Compiled(Lits(p), ""))
  {
    MarkPlain(p);
    PScanPlain(p, "", d);
    assert p + "" == p;
    NotBrokenChrs(p);
    assert Chrs(p) + [] == Chrs(p);
    WScanPlain(p, []);
    assert Lits(p) + [] == Lits(p);
    LastRestOfLits(p);
  }

  /** A route with one parameter compiles to the literal text around one
      `[^/]+` group; the name ends at the first character that is not a
      name character. */
  lemma CompileParam(dir: string, name: string, tail: string, d: bool)
    requires Plain(dir) && Plain(tail)
    requires name != [] && forall i :: 0 <= i < |name| ==> ParamChar(name[i], d)
    requires !ContainsSub(SafeName(name), "__W__")
    requires tail == [] || !ParamChar(tail[0], d)
    ensures CompileWith(dir + [':'] + name + tail, d)
      == Some(Compiled(Lits(dir) + [Cap(SafeName(name))] + Lits(tail), ""))
  {
    var p := dir + [':'] + name + tail;
    MarkParamRoute(dir, name, tail);
    PScanParamRoute(dir, name, tail, d);
    var ps := Chrs(dir) + ([Param(name)] + Chrs(tail));
    assert PScan(Mark(p), d) == ps;
    NotBrokenParamRoute(dir, name, tail);
    WScanParamRoute(dir, name, tail);
    LastRestLits(Lits(dir) + [Cap(SafeName(name))], tail);
    LastRestNoRest(Lits(dir), [Cap(SafeName(name))]);
    LastRestOfLits(dir);
  }

  lemma MarkParamRoute(dir: string, name: string, tail: string)
    requires Plain(dir) && Plain(tail)
    requires forall i :: 0 <= i < |name| ==> WordChar(name[i]) || name[i] == '.'
    ensures Mark(dir + [':'] + name + tail) == dir + ("__P__" + (name + tail))
  {
    assert dir + [':'] + name + tail == dir + (":" + (name + tail));
    MarkAppend(dir, ":" + (name + tail));
    MarkAppend(":", name + tail);
    MarkPlain(dir);
    MarkColon();
    MarkPlain(name + tail);
  }

  lemma PScanParamRoute(dir: string, name: string, tail: string, d: bool)
    requires Plain(dir) && Plain(tail)
    requires name != [] && forall i :: 0 <= i < |name| ==> ParamChar(name[i], d)
    requires tail == [] || !ParamChar(tail[0], d)
    ensures PScan(dir + ("__P__" + (name + tail)), d) == Chrs(dir) + ([Param(name)] + Chrs(tail))
  {
    PlainParts(dir);
    PlainParts(tail);
    var q := "__P__" + (name + tail);
    PScanPlain(dir, q, d);
    assert q == "__P__" + name + tail;
    PScanParam(name, tail, d);
    PScanChrs(tail, d);
  }

  lemma PScanChrs(x: string, d: bool)
    requires NoDouble(x)
    ensures PScan(x, d) == Chrs(x)
  {
    PScanPlain(x, "", d);
    assert x + "" == x;
    assert Chrs(x) + [] == Chrs(x);
  }

  lemma NotBrokenParamRoute(dir: string, name: string, tail: string)
    requires !ContainsSub(SafeName(name), "__W__")
    ensures !Broken(Chrs(dir) + ([Param(name)] + Chrs(tail)))
  {
    BrokenAppend(Chrs(dir), [Param(name)] + Chrs(tail));
    BrokenAppend([Param(name)], Chrs(tail));
    NotBrokenChrs(dir);
    NotBrokenChrs(tail);
  }

  lemma WScanParamRoute(dir: string, name: string, tail: string)
    requires Plain(dir) && Plain(tail)
    ensures WScan(Chrs(dir) + ([Param(name)] + Chrs(tail)))
      == Lits(dir) + [Cap(SafeName(name))] + Lits(tail)
  {
    PlainParts(dir);
    PlainParts(tail);
    var rest := [Param(name)] + Chrs(tail);
    WScanPlain(dir, rest);
    WScanPieces(Chrs(tail), name);
    WScanChrs(tail);
    var a := Lits(dir);
    var b := [Cap(SafeName(name))];
    assert a + (b + Lits(tail)) == a + b + Lits(tail);
  }

  lemma PlainParts(s: string)
    requires Plain(s)
    ensures NoDouble(s) && ':' !in s && '*' !in s
  {
  }

  lemma WScanChrs(x: string)
    requires NoDouble(x)
    ensures WScan(Chrs(x)) == Lits(x)
  {
    WScanPlain(x, []);
    assert Chrs(x) + [] == Chrs(x);
    assert Lits(x) + [] == Lits(x);
  }

  /** A route ending in `*name` compiles to its literal text and one `.*`
      group, which is also its wildcard. */
  lemma CompileWildcard(dir: string, w: string, d: bool)
    requires Plain(dir)
    requires (forall i :: 0 <= i < |w| ==> WordChar(w[i])) && NoDouble(w)
    ensures CompileWith(dir + ['*'] + w, d)
      == Some(Compiled(Lits(dir) + [Rest(if w == "" then "any" else w)], if w == "" then "any" else w))
  {
    var p := dir + ['*'] + w;
    var nm := if w == "" then "any" else w;
    MarkStarRoute(dir, w);
    PScanPlain(dir, "__W__" + w, d);
    PScanStar(w, d);
    var ps := Chrs(dir) + Chrs("__W__" + w);
    assert PScan(Mark(p), d) == ps;
    BrokenAppend(Chrs(dir), Chrs("__W__" + w));
    NotBrokenChrs(dir);
    NotBrokenChrs("__W__" + w);
    WScanPlain(dir, Chrs("__W__" + w));
    ChrsStar(w);
    WScanStarAt(Chrs("__W__" + w), w);
    var toks := Lits(dir) + [Rest(nm)];
    assert WScan(ps) == toks;
    assert toks[|toks| - 1] == Rest(nm);
  }

  lemma MarkStarRoute(dir: string, w: string)
    requires Plain(dir)
    requires forall i :: 0 <= i < |w| ==> WordChar(w[i])
    ensures Mark(dir + ['*'] + w) == dir + ("__W__" + w)
  {
    assert dir + ['*'] + w == dir + ("*" + w);
    MarkAppend(dir, "*" + w);
    MarkAppend("*", w);
    MarkPlain(dir);
    MarkStar();
    MarkPlain(w);
  }

  // ---------------------------------------------------------------------
  // What the shapes match

  /** A literal token at the head takes exactly its character. */
  lemma MatchLitStep(toks: seq<Token>, s: string)
    requires toks != [] && toks[0].Lit? && s != [] && s[0] == toks[0].c
    ensures MatchFrom(toks, s).Some? <==> MatchFrom(toks[1..], s[1..]).Some?
    ensures MatchFrom(toks[1..], s[1..]).Some? ==>
      MatchFrom(toks, s).value == [[s[0]]] + MatchFrom(toks[1..], s[1..]).value
  {
    assert s[..1] == [s[0]];
  }

  lemma {:induction false} MatchLitsPrefix(x: string, ts: seq<Token>, s: string)
    ensures MatchFrom(Lits(x) + ts, x + s).Some? <==> MatchFrom(ts, s).Some?
    ensures MatchFrom(ts, s).Some? ==>
      MatchFrom(Lits(x) + ts, x + s).value == Singles(x) + MatchFrom(ts, s).value
    decreases |x|
  {
    if x == [] {
      assert Lits(x) + ts == ts && x + s == s;
    } else {
      var toks := Lits(x) + ts;
      var inp := x + s;
      assert toks[0] == Lit(x[0]) && toks[1..] == Lits(x[1..]) + ts;
      assert inp[0] == x[0] && inp[1..] == x[1..] + s;
      MatchLitsPrefix(x[1..], ts, s);
      PrefixStep(toks, inp, x[0], Lits(x[1..]) + ts, x[1..] + s, ts, s, Singles(x[1..]));
      assert Singles(x) == [[x[0]]] + Singles(x[1..]);
    }
  }

  lemma PrefixStep(toks: seq<Token>, inp: string, c: char, t2: seq<Token>, s2: string,
                   ts: seq<Token>, s: string, sx: seq<string>)
    requires toks != [] && toks[0] == Lit(c) && toks[1..] == t2
    requires inp != [] && inp[0] == c && inp[1..] == s2
    requires MatchFrom(t2, s2).Some? <==> MatchFrom(ts, s).Some?
    requires MatchFrom(ts, s).Some? ==> MatchFrom(t2, s2).value == sx + MatchFrom(ts, s).value
    ensures MatchFrom(toks, inp).Some? <==> MatchFrom(ts, s).Some?
    ensures MatchFrom(ts, s).Some? ==> MatchFrom(toks, inp).value == [[c]] + sx + MatchFrom(ts, s).value
  {
    MatchLitStep(toks, inp);
  }





  /** A static pattern matches its own text and nothing else. */
  lemma MatchStatic(p: string, s: string)
    ensures MatchFrom(Lits(p), s).Some? <==> s == p
    ensures MatchFrom(Lits(p), p) == Some(Singles(p))
  {
    MatchLitsPrefix(p, [], "");
    assert Lits(p) + [] == Lits(p) && p + "" == p && Singles(p) + [] == Singles(p);
    if MatchFrom(Lits(p), s).Some? {
      var ps := MatchFrom(Lits(p), s).value;
      ConcatSingles(p, ps);
    }
  }

  lemma {:induction false} ConcatSingles(p: string, ps: seq<string>)
    requires |ps| == |p| && forall i :: 0 <= i < |p| ==> Fits(Lit(p[i]), ps[i])
    ensures Concat(ps) == p
    decreases |p|
  {
    if p != [] {
      ConcatSingles(p[1..], ps[1..]);
      assert Fits(Lit(p[0]), ps[0]);
      assert p == [p[0]] + p[1..];
    }
  }

  lemma {:induction false} MatchLitsShort(t: string, r: string)
    requires |r| < |t|
    ensures MatchFrom(Lits(t), r).None?
  {
    if MatchFrom(Lits(t), r).Some? {
      var ps := MatchFrom(Lits(t), r).value;
      ConcatSingles(t, ps);
    }
  }

  lemma {:induction false} TryFromDown(toks: seq<Token>, s: string, t: string, k: nat, v: nat)
    requires toks != [] && toks[0].Cap? && toks[1..] == Lits(t) && |s| == v + |t|
    requires 1 <= v <= k <= Span(toks[0], s)
    ensures TryFrom(toks, s, k) == TryFrom(toks, s, v)
    decreases k
  {
    if k > v {
      MatchLitsShort(t, s[k..]);
      TryFromDown(toks, s, t, k - 1, v);
    }
  }

  /** A parameter group followed by literal text takes everything before
      that text, as long as it holds no `/`, whatever the text is: for
      `:name.json` compiled as written the group takes `config` of
      `config.json`. */
  lemma MatchCapThenLits(n: string, v: string, t: string)
    requires v != [] && '/' !in v
    ensures MatchFrom([Cap(n)] + Lits(t), v + t) == Some([v] + Singles(t))
  {
    var toks := [Cap(n)] + Lits(t);
    var s := v + t;
    assert toks[1..] == Lits(t);
    assert forall i :: 0 <= i < |v| ==> Allowed(Cap(n), s[i]) by {
      forall i | 0 <= i < |v| ensures Allowed(Cap(n), s[i]) {
        assert s[i] == v[i];
      }
    }
    SpanCovers(Cap(n), s, |v|);
    TryFromDown(toks, s, t, Span(Cap(n), s), |v|);
    assert s[|v|..] == t && s[..|v|] == v;
    MatchStatic(t, t);
  }

  /** A wildcard group takes the whole rest of a one-line path. */
  lemma MatchRest(n: string, s: string)
    requires '\n' !in s
    ensures MatchFrom([Rest(n)], s) == Some([s])
  {
    var toks := [Rest(n)];
    assert toks[1..] == [];
    assert forall i :: 0 <= i < |s| ==> Allowed(Rest(n), s[i]);
    SpanCovers(Rest(n), s, |s|);
    var k := Span(Rest(n), s);
    assert k == |s|;
    assert s[k..] == [] && s[..k] == s;
    assert MatchFrom(toks[1..], s[k..]) == Some([]);
    assert TryFrom(toks, s, k) == Some([s[..k]] + []);
    assert [s[..k]] + [] == [s];
    assert MatchFrom(toks, s) == TryFrom(toks, s, k);
  }


  lemma {:induction false} CapturesLits(x: string, ts: seq<Token>, ps: seq<string>)
    requires |ps| == |ts|
    ensures Captures(Lits(x) + ts, Singles(x) + ps) == Captures(ts, ps)
    decreases |x|
  {
    if x == [] {
      assert Lits(x) + ts == ts && Singles(x) + ps == ps;
    } else {
      assert (Lits(x) + ts)[1..] == Lits(x[1..]) + ts;
      assert (Singles(x) + ps)[1..] == Singles(x[1..]) + ps;
      CapturesLits(x[1..], ts, ps);
    }
  }

  /** A one-parameter route matches `dir` + value + `tail` and captures the
      value under the group name. */
  lemma ParamRouteMatch(dir: string, g: string, tail: string, v: string)
    requires v != [] && '/' !in v
    ensures MatchFrom(Lits(dir) + [Cap(g)] + Lits(tail), dir + v + tail).Some?
    ensures Captures(Lits(dir) + [Cap(g)] + Lits(tail),
                     MatchFrom(Lits(dir) + [Cap(g)] + Lits(tail), dir + v + tail).value) == [(g, v)]
  {
    var ts := [Cap(g)] + Lits(tail);
    assert Lits(dir) + [Cap(g)] + Lits(tail) == Lits(dir) + ts;
    assert dir + v + tail == dir + (v + tail);
    MatchCapThenLits(g, v, tail);
    MatchLitsPrefix(dir, ts, v + tail);
    CapturesLits(dir, ts, [v] + Singles(tail));
    assert ts[1..] == Lits(tail) && ([v] + Singles(tail))[1..] == Singles(tail);
    CapturesLits(tail, [], []);
    assert Lits(tail) + [] == Lits(tail) && Singles(tail) + [] == Singles(tail);
  }

  /** A wildcard route matches every one-line path below its literal text
      and captures the rest under the wildcard name. */
  lemma WildcardRouteMatch(dir: string, g: string, rest: string)
    requires '\n' !in rest
    ensures MatchFrom(Lits(dir) + [Rest(g)], dir + rest).Some?
    ensures Captures(Lits(dir) + [Rest(g)], MatchFrom(Lits(dir) + [Rest(g)], dir + rest).value) == [(g, rest)]
  {
    MatchRest(g, rest);
    MatchLitsPrefix(dir, [Rest(g)], rest);
    CapturesLits(dir, [Rest(g)], [rest]);
  }

  // ---------------------------------------------------------------------
  // Group names

  /** A step of a replacement at a character that cannot start the pattern. */
  lemma ReplaceHeadOther(s: string, pat: string, rep: string)
    requires |pat| > 0 && s != [] && s[0] != pat[0]
    ensures ReplaceAll(s, pat, rep) == [s[0]] + ReplaceAll(s[1..], pat, rep)
  {
    if |s| >= |pat| {
      assert s[..|pat|][0] == s[0];
    }
  }

  /** Turning `_DOT_` back into dots undoes the renaming of a parameter name
      that has no `_` of its own. */
  lemma {:induction false} RestoreSafeName(name: string)
    requires '_' !in name
    ensures RestoreName(SafeName(name)) == name
    decreases |name|
  {
    if name != [] {
      var c, rest := name[0], name[1..];
      assert name == [c] + rest;
      ReplaceCharAppend([c], rest, '.', "_DOT_");
      RestoreSafeName(rest);
      var tailSafe := SafeName(rest);
      if c == '.' {
        assert ReplaceAll([c], ['.'], "_DOT_") == "_DOT_" + ReplaceAll([], ['.'], "_DOT_");
        var t := "_DOT_" + tailSafe;
        assert SafeName(name) == t;
        assert t[..5] == "_DOT_" && t[5..] == tailSafe;
      } else {
        assert ReplaceAll([c], ['.'], "_DOT_") == [c] + ReplaceAll([], ['.'], "_DOT_");
        var t := [c] + tailSafe;
        assert SafeName(name) == t;
        ReplaceHeadOther(t, "_DOT_", ".");
        assert t[1..] == tailSafe;
      }
    }
  }

  lemma {:induction false} SafeNameNoChar(name: string, x: char)
    requires x !in name && x != '_' && x != 'D' && x != 'O' && x != 'T'
    ensures x !in SafeName(name)
    decreases |name|
  {
    if name != [] {
      ReplaceCharAppend([name[0]], name[1..], '.', "_DOT_");
      assert [name[0]] + name[1..] == name;
      SafeNameNoChar(name[1..], x);
      if name[0] == '.' {
        assert ReplaceAll([name[0]], ['.'], "_DOT_") == "_DOT_" + ReplaceAll([], ['.'], "_DOT_");
      } else {
        assert ReplaceAll([name[0]], ['.'], "_DOT_") == [name[0]] + ReplaceAll([], ['.'], "_DOT_");
      }
    }
  }

  /** Text that lacks one of the characters of `__W__` does not hold it. */
  lemma NoWildMark(t: string, x: char)
    requires x == '_' || x == 'W'
    requires x !in t
    ensures !ContainsSub(t, "__W__")
  {
    forall i | 0 <= i <= |t|
      ensures !("__W__" <= t[i..])
    {
      if i + 2 < |t| {
        assert t[i..][0] == t[i] && t[i..][2] == t[i + 2];
      }
    }
  }

  lemma SafeNamePlainMark(name: string)
    requires 'W' !in name
    ensures !ContainsSub(SafeName(name), "__W__")
  {
    SafeNameNoChar(name, 'W');
    NoWildMark(SafeName(name), 'W');
  }

  lemma SafeNameNoDot(name: string)
    requires '.' !in name
    ensures SafeName(name) == name
  {
    ReplaceAbsentChar(name, '.', "_DOT_");
  }

  // ---------------------------------------------------------------------
  // A parameter with an extension, `/file/:name.json`

  /** As written, the name of a parameter stops at the dot: the group is
      `name` and a request for `/file/config.json` stores `config` under
      `name`; the dotted key the route declares is never set. */
  lemma DotParamAsWritten(dir: string, base: string, ext: string, v: string)
    requires Plain(dir) && Plain(ext) && ext != [] && ext[0] == '.'
    requires base != [] && forall i :: 0 <= i < |base| ==> WordChar(base[i]) && base[i] != '_'
    requires v != [] && '/' !in v
    ensures CompileAsWritten(dir + [':'] + base + ext)
      == Some(Compiled(Lits(dir) + [Cap(base)] + Lits(ext), ""))
    ensures MatchFrom(Lits(dir) + [Cap(base)] + Lits(ext), dir + v + ext).Some?
    ensures Captures(Lits(dir) + [Cap(base)] + Lits(ext),
                     MatchFrom(Lits(dir) + [Cap(base)] + Lits(ext), dir + v + ext).value) == [(base, v)]
    ensures RestoreName(base) == base != base + ext
  {
    SafeNameNoDot(base);
    NoWildMark(base, '_');
    CompileParam(dir, base, ext, false);
    ParamRouteMatch(dir, base, ext, v);
    RestoreSafeName(base);
  }

  /** With dots kept in the name, the group is `name_DOT_json`, it takes
      `config.json`, and the value is stored under `name.json`. */
  lemma DotParamCorrected(dir: string, base: string, ext: string, v: string)
    requires Plain(dir) && Plain(ext) && ext != [] && ext[0] == '.'
    requires base != [] && forall i :: 0 <= i < |base| ==> WordChar(base[i]) && base[i] != '_'
    requires forall i :: 0 <= i < |ext| ==> ParamChar(ext[i], true) && ext[i] != '/' && ext[i] != '_'
    requires 'W' !in base && 'W' !in ext
    requires v != [] && '/' !in v
    ensures Compile(dir + [':'] + base + ext)
      == Some(Compiled(Lits(dir) + [Cap(SafeName(base + ext))], ""))
    ensures MatchFrom(Lits(dir) + [Cap(SafeName(base + ext))], dir + (v + ext)).Some?
    ensures Captures(Lits(dir) + [Cap(SafeName(base + ext))],
                     MatchFrom(Lits(dir) + [Cap(SafeName(base + ext))], dir + (v + ext)).value)
      == [(SafeName(base + ext), v + ext)]
    ensures RestoreName(SafeName(base + ext)) == base + ext
  {
    var name := base + ext;
    assert forall i :: 0 <= i < |name| ==> ParamChar(name[i], true) && name[i] != '_' by {
      forall i | 0 <= i < |name| ensures ParamChar(name[i], true) && name[i] != '_' {
        if i < |base| { assert name[i] == base[i]; } else { assert name[i] == ext[i - |base|]; }
      }
    }
    assert 'W' !in name;
    SafeNamePlainMark(name);
    assert dir + [':'] + base + ext == dir + [':'] + name + "";
    CompileParam(dir, name, "", true);
    assert Lits("") == [];
    var g := SafeName(name);
    assert Lits(dir) + [Cap(g)] + Lits("") == Lits(dir) + [Cap(g)];
    assert '/' !in v + ext;
    ParamRouteMatch(dir, g, "", v + ext);
    assert dir + (v + ext) + "" == dir + (v + ext);
    RestoreSafeName(name);
  }

  // ---------------------------------------------------------------------
  // Priority inside a shadow zone

  /** A request for the exact path of a static route of the zone is served by
      a static route (score 1), never by a parameter or wildcard route that
      also matches it: the zone is sorted by score before dispatch. */
  lemma StaticRouteWins(rs: seq<Route>, d: bool, zone: seq<Entry>, j: nat)
    requires DeployZone(rs, d) == Some(zone)
    requires j < |rs| && Plain(rs[j].path)
    ensures FirstMatch(zone, rs[j].verb, rs[j].path).Some?
    ensures RouteScore(zone[FirstMatch(zone, rs[j].verb, rs[j].path).value].route.path) == 1
  {
    var sorted := SortByScore(rs);
    SortByScoreSpec(rs);
    assert rs[j] in multiset(rs);
    assert rs[j] in multiset(sorted);
    var k :| 0 <= k < |sorted| && sorted[k] == rs[j];
    var p := rs[j].path;
    CompileStatic(p, d);
    assert zone[k].route == rs[j] && zone[k].pat == Compiled(Lits(p), "");
    MatchStatic(p, p);
    assert Candidate(zone[k], rs[j].verb, p);
    var i := FirstMatch(zone, rs[j].verb, p).value;
    assert i <= k;
    assert RouteScore(sorted[i].path) <= RouteScore(sorted[k].path);
  }
}
