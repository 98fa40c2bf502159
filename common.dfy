/** `TranslatePath` of the adapter package: every `:name` placeholder, with
    `name` a maximal run of `[a-zA-Z0-9._-]`, becomes `{name}`; this is the
    leftmost, greedy, non-overlapping replacement of the pattern
    `:([a-zA-Z0-9._-]+)`. */
module PathCommon {
  import Text

  predicate NameChar(c: char)
  {
    ('a' <= c <= 'z') || ('A' <= c <= 'Z') || ('0' <= c <= '9') || c == '.' || c == '_' || c == '-'
  }

  /** The length of the longest prefix of `s` made of name characters. */
  function NameRun(s: string): (n: nat)
    ensures n <= |s|
    ensures forall i :: 0 <= i < n ==> NameChar(s[i])
    ensures n == |s| || !NameChar(s[n])
  {
    if s != [] && NameChar(s[0]) then 1 + NameRun(s[1..]) else 0
  }

  /** A placeholder starts at `s[0]`. */
  predicate TokenAt(s: string)
  {
    |s| >= 2 && s[0] == ':' && NameChar(s[1])
  }

  function TranslatePath(p: string): string
    decreases |p|
  {
    if p == [] then []
    else if TokenAt(p) then
      var n := NameRun(p[1..]);
      "{" + p[1..1 + n] + "}" + TranslatePath(p[1 + n..])
    else [p[0]] + TranslatePath(p[1..])
  }

  /** The number of placeholders `TranslatePath` rewrites. */
  function Tokens(p: string): nat
    decreases |p|
  {
    if p == [] then 0
    else if TokenAt(p) then 1 + Tokens(p[1 + NameRun(p[1..])..])
    else Tokens(p[1..])
  }

  function Count(s: string, c: char): nat
  {
    if s == [] then 0 else (if s[0] == c then 1 else 0) + Count(s[1..], c)
  }

  lemma {:induction false} CountAppend(a: string, b: string, c: char)
    ensures Count(a + b, c) == Count(a, c) + Count(b, c)
    decreases |a|
  {
    if a == [] {
      assert a + b == b;
    } else {
      assert (a + b)[0] == a[0] && (a + b)[1..] == a[1..] + b;
      CountAppend(a[1..], b, c);
    }
  }

  /** A run of name characters holds neither `:` nor `{`. */
  lemma {:induction false} CountNameRun(s: string, c: char)
    requires c == ':' || c == '{'
    requires forall i :: 0 <= i < |s| ==> NameChar(s[i])
    ensures Count(s, c) == 0
    decreases |s|
  {
    if s != [] {
      CountNameRun(s[1..], c);
    }
  }

  predicate HasToken(p: string)
  {
    exists i :: 0 <= i < |p| && TokenAt(p[i..])
  }

  /** The first character of the output is `{` or the first of the input. */
  lemma TranslateHead(p: string)
    requires p != []
    ensures TranslatePath(p) != []
    ensures TranslatePath(p)[0] == (if TokenAt(p) then '{' else p[0])
  {
  }

  /** The output holds no placeholder. */
  lemma {:induction false} TranslateNoToken(p: string)
    ensures !HasToken(TranslatePath(p))
    decreases |p|
  {
    if p != [] {
      var r := TranslatePath(p);
      if TokenAt(p) {
        var n := NameRun(p[1..]);
        var rest := p[1 + n..];
        var head := "{" + p[1..1 + n] + "}";
        TranslateNoToken(rest);
        assert r == head + TranslatePath(rest);
        forall i | 0 <= i < |r|
          ensures !TokenAt(r[i..])
        {
          if i < |head| {
            if i > 0 && i < |head| - 1 {
              assert r[i] == p[1..1 + n][i - 1];
            }
          } else {
            assert r[i..] == TranslatePath(rest)[i - |head|..];
          }
        }
      } else {
        var rest := p[1..];
        TranslateNoToken(rest);
        assert r == [p[0]] + TranslatePath(rest);
        forall i | 0 <= i < |r|
          ensures !TokenAt(r[i..])
        {
          if i == 0 {
            if p[0] == ':' && |r| >= 2 {
              TranslateHead(rest);
              assert r[1] == TranslatePath(rest)[0];
            }
          } else {
            assert r[i..] == TranslatePath(rest)[i - 1..];
          }
        }
      }
    }
  }

  lemma {:induction false} TranslateCounts(p: string)
    ensures Count(TranslatePath(p), '{') == Count(p, '{') + Tokens(p)
    ensures Count(TranslatePath(p), ':') + Tokens(p) == Count(p, ':')
    decreases |p|
  {
    if p != [] {
      if TokenAt(p) {
        var n := NameRun(p[1..]);
        var name := p[1..1 + n];
        var rest := p[1 + n..];
        TranslateCounts(rest);
        CountAppend("{" + name, "}" + TranslatePath(rest), '{');
        CountAppend("{" + name, "}" + TranslatePath(rest), ':');
        CountAppend("{", name, '{');
        CountAppend("{", name, ':');
        CountAppend("}", TranslatePath(rest), '{');
        CountAppend("}", TranslatePath(rest), ':');
        CountNameRun(name, '{');
        CountNameRun(name, ':');
        assert "{" + name + "}" + TranslatePath(rest) == ("{" + name) + ("}" + TranslatePath(rest));
        assert p == [':'] + name + rest;
        CountAppend([':'] + name, rest, '{');
        CountAppend([':'] + name, rest, ':');
        CountAppend([':'], name, '{');
        CountAppend([':'], name, ':');
      } else {
        TranslateCounts(p[1..]);
        assert TranslatePath(p) == [p[0]] + TranslatePath(p[1..]);
        CountAppend([p[0]], TranslatePath(p[1..]), '{');
        CountAppend([p[0]], TranslatePath(p[1..]), ':');
      }
    }
  }

  lemma {:induction false} TokensIff(p: string)
    ensures Tokens(p) == 0 <==> !HasToken(p)
    decreases |p|
  {
    if p != [] {
      if TokenAt(p) {
        assert TokenAt(p[0..]);
      } else {
        TokensIff(p[1..]);
        if HasToken(p) {
          var i :| 0 <= i < |p| && TokenAt(p[i..]);
          assert i > 0 && p[1..][i - 1..] == p[i..];
        }
        if HasToken(p[1..]) {
          var i :| 0 <= i < |p[1..]| && TokenAt(p[1..][i..]);
          assert p[i + 1..] == p[1..][i..];
        }
      }
    }
  }

  /** A path is returned unchanged exactly when it holds no `:` followed by
      a name character. */
  lemma TranslateUnchangedIff(p: string)
    ensures TranslatePath(p) == p <==> !HasToken(p)
  {
    TranslateCounts(p);
    TokensIff(p);
    if !HasToken(p) {
      NoTokenFixed(p);
    }
  }

  lemma {:induction false} NoTokenFixed(p: string)
    requires !HasToken(p)
    ensures TranslatePath(p) == p
    decreases |p|
  {
    if p != [] {
      assert !TokenAt(p[0..]);
      assert p[0..] == p;
      NoTokenFixed(p[1..]);
    }
  }

  /** `TranslatePath` is idempotent. */
  lemma TranslateIdempotent(p: string)
    ensures TranslatePath(TranslatePath(p)) == TranslatePath(p)
  {
    TranslateNoToken(p);
    NoTokenFixed(TranslatePath(p));
  }

  /** Text without a colon is copied as it is. */
  lemma {:induction false} TranslateLiteral(x: string, y: string)
    requires ':' !in x
    ensures TranslatePath(x + y) == x + TranslatePath(y)
    decreases |x|
  {
    if x == [] {
      assert x + y == y;
    } else {
      assert (x + y)[0] == x[0] && (x + y)[1..] == x[1..] + y;
      TranslateLiteral(x[1..], y);
      TranslateLiteralHead(x + y);
      Text.ConsAssoc(x[0], x[1..], TranslatePath(y));
      assert x == [x[0]] + x[1..];
    }
  }

  lemma TranslateLiteralHead(p: string)
    requires p != [] && p[0] != ':'
    ensures TranslatePath(p) == [p[0]] + TranslatePath(p[1..])
  {
  }

  /** A trailing placeholder is rewritten whole, extension included:
      `/file/:name.json` becomes `/file/{name.json}`. */
  lemma TranslateTrailing(dir: string, name: string)
    requires ':' !in dir
    requires name != [] && forall i :: 0 <= i < |name| ==> NameChar(name[i])
    ensures TranslatePath(dir + ([':'] + name)) == dir + ("{" + name + "}")
  {
    NameRunFull(name);
    var t := [':'] + name;
    assert t[1..] == name && t[1..1 + |name|] == name && t[1 + |name|..] == [];
    var out := "{" + name + "}";
    assert TranslatePath(t) == out;
    TranslateLiteral(dir, t);
    assert TranslatePath(dir + t) == dir + out;
  }

  /** A colon not followed by a name character is copied as it is. */
  lemma TranslateBareColon(x: string, y: string)
    requires ':' !in x
    requires y == [] || !NameChar(y[0])
    ensures TranslatePath(x + [':'] + y) == x + [':'] + TranslatePath(y)
  {
    var t := [':'] + y;
    BareColonHead(y);
    Text.AppendAssoc(x, [':'], y);
    TranslateLiteral(x, t);
    Text.AppendAssoc(x, [':'], TranslatePath(y));
  }

  lemma BareColonHead(y: string)
    requires y == [] || !NameChar(y[0])
    ensures TranslatePath([':'] + y) == [':'] + TranslatePath(y)
  {
    var t := [':'] + y;
    assert t[1..] == y;
    assert !TokenAt(t);
  }

  lemma {:induction false} NameRunFull(s: string)
    requires forall i :: 0 <= i < |s| ==> NameChar(s[i])
    ensures NameRun(s) == |s|
    decreases |s|
  {
    if s != [] {
      NameRunFull(s[1..]);
    }
  }
}
