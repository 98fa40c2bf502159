/** What the adapters share about routes: the registered route record, the
    list that every group of one adapter appends to, the two ways of joining
    a prefix and a path, and the score order used before registration. */
module Routing {
  import opened Text
  import opened Onion

  /** A registered route: method, full path as stored, the handler's name and
      its middleware stack snapshot (group middlewares, then local ones). */
  datatype Route = Route(verb: string, path: string, handler: string, mws: seq<Middleware>)

  /** The route list one adapter and all its groups append to (`*[]*routeEntry`). */
  class RouteList {
    var entries: seq<Route>

    constructor()
      ensures entries == []
    {
      entries := [];
    }

    method Add(r: Route)
      modifies this
      ensures entries == old(entries) + [r]
    {
      entries := entries + [r];
    }
  }

  predicate NoDoubleSlash(s: string)
  {
    forall i :: 0 <= i < |s| - 1 ==> !(s[i] == '/' && s[i + 1] == '/')
  }

  /** `joinPaths` of the echo, mux and chi adapters. */
  function JoinPaths(base: string, next: string): string
  {
    if next == "" then "/" + Trim(base, '/')
    else TrimSuffix(base, "/") + "/" + TrimPrefix(next, "/")
  }

  lemma NoDoubleSlashTrimSuffix(s: string)
    requires NoDoubleSlash(s)
    ensures NoDoubleSlash(TrimSuffix(s, "/"))
    ensures TrimSuffix(s, "/") == [] || TrimSuffix(s, "/")[|TrimSuffix(s, "/")| - 1] != '/'
  {
    var t := TrimSuffix(s, "/");
    if HasSuffix(s, "/") {
      assert t == s[..|s| - 1];
      assert s[|s| - 1] == s[|s| - 1..][0] == '/';
      forall i | 0 <= i < |t| - 1
        ensures !(t[i] == '/' && t[i + 1] == '/')
      {
        assert t[i] == s[i] && t[i + 1] == s[i + 1];
      }
      if |t| > 0 {
        assert t[|t| - 1] == s[|s| - 2];
      }
    } else if |s| > 0 {
      assert t == s;
      assert s[|s| - 1..] == [s[|s| - 1]];
    }
  }

  lemma NoDoubleSlashTrimPrefix(s: string)
    requires NoDoubleSlash(s)
    ensures NoDoubleSlash(TrimPrefix(s, "/"))
    ensures TrimPrefix(s, "/") == [] || TrimPrefix(s, "/")[0] != '/'
  {
    if |s| >= 2 {
      assert !(s[0] == '/' && s[1] == '/');
    }
  }

  lemma NoDoubleSlashJoin(x: string, y: string)
    requires NoDoubleSlash(x) && NoDoubleSlash(y)
    requires x == [] || x[|x| - 1] != '/'
    requires y == [] || y[0] != '/'
    ensures NoDoubleSlash(x + "/" + y)
  {
    var s := x + "/" + y;
    forall i | 0 <= i < |s| - 1
      ensures !(s[i] == '/' && s[i + 1] == '/')
    {
      if i < |x| - 1 {
        assert s[i] == x[i] && s[i + 1] == x[i + 1];
      } else if i == |x| - 1 {
        assert s[i] == x[i];
      } else if i == |x| {
        assert s[i + 1] == y[0];
      } else {
        assert s[i] == y[i - |x| - 1] && s[i + 1] == y[i - |x|];
      }
    }
  }

  /** Joining never puts a double slash at the seam: when neither side has
      one, the result has none, and it always begins with `/` when the base
      is empty or begins with `/`. */
  lemma JoinPathsShape(base: string, next: string)
    requires NoDoubleSlash(base) && NoDoubleSlash(next)
    ensures NoDoubleSlash(JoinPaths(base, next))
    ensures base == "" || base[0] == '/' ==> JoinPaths(base, next)[0] == '/'
  {
    if next == "" {
      RootedTrim(base);
    } else {
      NoDoubleSlashTrimSuffix(base);
      NoDoubleSlashTrimPrefix(next);
      NoDoubleSlashJoin(TrimSuffix(base, "/"), TrimPrefix(next, "/"));
      if base != "" && base[0] == '/' && TrimSuffix(base, "/") != [] {
        assert TrimSuffix(base, "/") <= base;
      }
    }
  }

  /** The join with an empty path: the base trimmed of slashes, after one. */
  lemma RootedTrim(base: string)
    requires NoDoubleSlash(base)
    ensures NoDoubleSlash("/" + Trim(base, '/'))
  {
    var t := Trim(base, '/');
    forall i | 0 <= i < |t| - 1
      ensures !(t[i] == '/' && t[i + 1] == '/')
    {
      TrimInside(base, '/', i);
    }
    NoDoubleSlashJoin("", t);
    assert "" + "/" + t == "/" + t;
  }

  /** Two neighbouring characters of `Trim(s, c)` are neighbours in `s`. */
  lemma TrimInside(s: string, c: char, i: nat)
    requires NoDoubleSlash(s) && c == '/'
    requires i + 1 < |Trim(s, c)|
    ensures !(Trim(s, c)[i] == '/' && Trim(s, c)[i + 1] == '/')
  {
    var l := TrimLeft(s, c);
    var t := TrimRight(l, c);
    assert t == Trim(s, c);
    var off := |s| - |l|;
    assert t[i] == l[i] == s[off + i];
    assert t[i + 1] == l[i + 1] == s[off + i + 1];
  }

  /** The group prefix of the gin and fiber adapters: the parent prefix, a
      slash, the trimmed group prefix, each `//` turned into `/`, and a
      final slash dropped. */
  function GroupPrefix(parent: string, prefix: string): string
  {
    TrimSuffix(ReplaceAll(parent + "/" + Trim(prefix, '/'), "//", "/"), "/")
  }

  /** The full path the gin and fiber adapters store at registration. */
  function FullPath(prefix: string, p: string): string
  {
    ReplaceAll(prefix + "/" + TrimPrefix(p, "/"), "//", "/")
  }

  /** The prefixes `GroupPrefix` produces from the root prefix `""`. */
  predicate IsGroupPrefix(p: string)
  {
    p == "" || (p[0] == '/' && p[|p| - 1] != '/')
  }

  lemma {:induction false} CollapseKeepsHead(s: string)
    requires s != [] && s[0] == '/'
    ensures ReplaceAll(s, "//", "/") != [] && ReplaceAll(s, "//", "/")[0] == '/'
  {
  }

  lemma {:induction false} CollapseKeepsLast(s: string)
    requires s != [] && s[|s| - 1] != '/'
    ensures ReplaceAll(s, "//", "/") != []
    ensures ReplaceAll(s, "//", "/")[|ReplaceAll(s, "//", "/")| - 1] == s[|s| - 1]
    decreases |s|
  {
    if |s| >= 2 {
      if s[..2] == "//" {
        CollapseKeepsLast(s[2..]);
      } else {
        CollapseKeepsLast(s[1..]);
      }
    }
  }

  lemma {:induction false} CollapseKeepsSlashEnd(s: string)
    requires |s| >= 2 && s[|s| - 1] == '/' && s[|s| - 2] != '/'
    ensures |ReplaceAll(s, "//", "/")| >= 2
    ensures ReplaceAll(s, "//", "/")[|ReplaceAll(s, "//", "/")| - 1] == '/'
    ensures ReplaceAll(s, "//", "/")[|ReplaceAll(s, "//", "/")| - 2] == s[|s| - 2]
    decreases |s|
  {
    if |s| == 2 {
      assert s[..2] == s && s[1..] == "/";
    } else if s[..2] == "//" {
      CollapseKeepsSlashEnd(s[2..]);
    } else {
      CollapseKeepsSlashEnd(s[1..]);
    }
  }

  /** After `Group` the prefix is `""` or begins with `/` and does not end
      with `/`, whatever the group prefix written by the caller. */
  lemma GroupPrefixShape(parent: string, prefix: string)
    requires IsGroupPrefix(parent)
    ensures IsGroupPrefix(GroupPrefix(parent, prefix))
  {
    var t := Trim(prefix, '/');
    var s := parent + "/" + t;
    var c := ReplaceAll(s, "//", "/");
    assert s[0] == '/';
    CollapseKeepsHead(s);
    if t == [] {
      if parent == "" {
        assert s == "/";
        assert c == "/";
      } else {
        assert s[|s| - 1] == '/' && s[|s| - 2] == parent[|parent| - 1];
        CollapseKeepsSlashEnd(s);
      }
    } else {
      assert s[|s| - 1] == t[|t| - 1];
      CollapseKeepsLast(s);
    }
  }

  /** A full path built under a group prefix begins with `/`. */
  lemma FullPathShape(prefix: string, p: string)
    requires IsGroupPrefix(prefix)
    ensures FullPath(prefix, p) != [] && FullPath(prefix, p)[0] == '/'
  {
    var s := prefix + "/" + TrimPrefix(p, "/");
    assert s[0] == '/';
    CollapseKeepsHead(s);
  }

  /** `getRouteScore`: wildcard routes after parameter routes after static ones. */
  function RouteScore(path: string): (r: int)
    ensures 1 <= r <= 3
    ensures r == 3 <==> '*' in path
    ensures r == 2 <==> '*' !in path && ':' in path
  {
    if '*' in path then 3
    else if ':' in path then 2
    else 1
  }

  /** The routes of one score, in their original order. */
  function OfScore(rs: seq<Route>, k: int): (r: seq<Route>)
    ensures |r| <= |rs|
    ensures forall i :: 0 <= i < |r| ==> RouteScore(r[i].path) == k
    decreases |rs|
  {
    if rs == [] then []
    else if RouteScore(rs[|rs| - 1].path) == k then OfScore(rs[..|rs| - 1], k) + [rs[|rs| - 1]]
    else OfScore(rs[..|rs| - 1], k)
  }

  /** What `sort.SliceStable` by `getRouteScore` leaves: the score-1 routes,
      then the score-2 routes, then the score-3 routes, each in registration
      order. */
  function SortByScore(rs: seq<Route>): seq<Route>
  {
    OfScore(rs, 1) + OfScore(rs, 2) + OfScore(rs, 3)
  }

  predicate ScoreSorted(rs: seq<Route>)
  {
    forall i, j :: 0 <= i < j < |rs| ==> RouteScore(rs[i].path) <= RouteScore(rs[j].path)
  }

  lemma {:induction false} OfScoreOther(rs: seq<Route>, k: int)
    requires k < 1 || k > 3
    ensures OfScore(rs, k) == []
    decreases |rs|
  {
    if rs != [] {
      OfScoreOther(rs[..|rs| - 1], k);
    }
  }

  lemma {:induction false} OfScoreAppend(a: seq<Route>, b: seq<Route>, k: int)
    ensures OfScore(a + b, k) == OfScore(a, k) + OfScore(b, k)
    decreases |b|
  {
    if b == [] {
      assert a + b == a;
    } else {
      assert (a + b)[..|a + b| - 1] == a + b[..|b| - 1];
      assert (a + b)[|a + b| - 1] == b[|b| - 1];
      OfScoreAppend(a, b[..|b| - 1], k);
    }
  }

  lemma {:induction false} OfScoreCount(rs: seq<Route>)
    ensures multiset(OfScore(rs, 1) + OfScore(rs, 2) + OfScore(rs, 3)) == multiset(rs)
    decreases |rs|
  {
    if rs != [] {
      var init := rs[..|rs| - 1];
      var x := rs[|rs| - 1];
      OfScoreCount(init);
      assert rs == init + [x];
    }
  }

  /** The sort is a permutation of the routes, orders them by non-decreasing
      score, and is stable: the routes of each score keep their order. */
  lemma SortByScoreSpec(rs: seq<Route>)
    ensures multiset(SortByScore(rs)) == multiset(rs)
    ensures ScoreSorted(SortByScore(rs))
    ensures forall k :: OfScore(SortByScore(rs), k) == OfScore(rs, k)
  {
    OfScoreCount(rs);
    var a, b, c := OfScore(rs, 1), OfScore(rs, 2), OfScore(rs, 3);
    var s := SortByScore(rs);
    forall i, j | 0 <= i < j < |s|
      ensures RouteScore(s[i].path) <= RouteScore(s[j].path)
    {
      if i < |a| {
        assert s[i] == a[i];
      } else if i < |a| + |b| {
        assert s[i] == b[i - |a|];
        assert s[j] == (b + c)[j - |a|];
      } else {
        assert s[i] == c[i - |a| - |b|] && s[j] == c[j - |a| - |b|];
      }
    }
    forall k
      ensures OfScore(s, k) == OfScore(rs, k)
    {
      OfScoreAppend(a + b, c, k);
      OfScoreAppend(a, b, k);
      OfScoreIdem(rs, 1, k);
      OfScoreIdem(rs, 2, k);
      OfScoreIdem(rs, 3, k);
      if k < 1 || k > 3 {
        OfScoreOther(rs, k);
      }
    }
  }

  /** Filtering the routes of score `j` by score `k` keeps them all when
      `j == k` and none otherwise. */
  lemma {:induction false} OfScoreIdem(rs: seq<Route>, j: int, k: int)
    ensures OfScore(OfScore(rs, j), k) == if j == k then OfScore(rs, j) else []
    decreases |rs|
  {
    if rs != [] {
      var init := rs[..|rs| - 1];
      OfScoreIdem(init, j, k);
      var x := rs[|rs| - 1];
      if RouteScore(x.path) == j {
        OfScoreAppend(OfScore(init, j), [x], k);
        assert OfScore([x], k) == OfScore([], k) + (if RouteScore(x.path) == k then [x] else []) by {
          assert [x][..0] == [];
        }
      }
    }
  }

  /** The name mux and chi give a catch-all: the text after the first `*`,
      or `any` when nothing follows it. */
  function CatchAllName(path: string): (name: string)
    requires '*' in path
    ensures name != ""
    ensures name == "any" || path[IndexOf(path, '*') + 1..] == name
  {
    var after := path[IndexOf(path, '*') + 1..];
    if after == "" then "any" else after
  }
}
