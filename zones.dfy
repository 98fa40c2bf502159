/** How `registerAll` (identical in the gin and echo adapters) splits the
    registered routes between the native engine and the shadow zones: routes
    are grouped by their static base, a base is conflicting when it holds
    both a `:` route and a `*` route, and every route below a conflicting
    base is kept away from the native engine. */
module ShadowPlan {
  import opened Text
  import opened Routing

  /** A segment that starts a parameter or a wildcard. */
  predicate Dynamic(seg: string)
  {
    HasPrefix(seg, ":") || HasPrefix(seg, "*")
  }

  /** The index of the first dynamic segment, `|parts|` when there is none. */
  function FirstDynamic(parts: seq<string>): (i: nat)
    ensures i <= |parts|
    ensures forall j :: 0 <= j < i ==> !Dynamic(parts[j])
    ensures i < |parts| ==> Dynamic(parts[i])
  {
    if parts == [] then 0
    else if Dynamic(parts[0]) then 0
    else 1 + FirstDynamic(parts[1..])
  }

  /** `getStaticBase`: the segments before the first dynamic one, joined by
      `/`; `"/"` when the first segment is dynamic or none is. */
  function StaticBase(path: string): string
  {
    var parts := Split(path, '/');
    var i := FirstDynamic(parts);
    if i == 0 || i == |parts| then "/" else Join(parts[..i], '/')
  }

  /** A base other than `"/"` is the text of the path before a `/` that
      starts a dynamic segment. */
  lemma StaticBaseShape(path: string)
    ensures StaticBase(path) == "/" || (HasPrefix(path, StaticBase(path) + "/") && Dynamic(path[|StaticBase(path)| + 1..]))
  {
    var parts := Split(path, '/');
    var i := FirstDynamic(parts);
    if 0 < i < |parts| {
      JoinSplitAt(parts, '/', i);
      var b := Join(parts[..i], '/');
      var rest := Join(parts[i..], '/');
      assert path == b + "/" + rest;
      assert path[..|b| + 1] == b + "/";
      assert path[|b| + 1..] == rest;
      assert parts[i..][0] == parts[i];
      JoinHead(parts[i..], '/');
    }
  }

  /** A join starts with its first piece. */
  lemma JoinHead(parts: seq<string>, c: char)
    requires |parts| >= 1
    ensures parts[0] <= Join(parts, c)
  {
  }

  /** The segments before the dynamic one decide the base: `dir` joined,
      which is `""` for a path such as `/:id`. */
  lemma StaticBaseOf(statics: seq<string>, seg: string, rest: seq<string>)
    requires |statics| >= 1 && Dynamic(seg)
    requires forall j :: 0 <= j < |statics| ==> '/' !in statics[j] && !Dynamic(statics[j])
    requires '/' !in seg && forall j :: 0 <= j < |rest| ==> '/' !in rest[j]
    ensures StaticBase(Join(statics + [seg] + rest, '/')) == Join(statics, '/')
  {
    NoSlashParts(statics, seg, rest);
    StaticsFirst(statics, seg, rest);
    StaticBaseOfParts(statics + [seg] + rest, |statics|);
  }

  lemma StaticsFirst(statics: seq<string>, seg: string, rest: seq<string>)
    requires Dynamic(seg) && forall j :: 0 <= j < |statics| ==> !Dynamic(statics[j])
    ensures var parts := statics + [seg] + rest;
      && parts[..|statics|] == statics && Dynamic(parts[|statics|])
      && forall j :: 0 <= j < |statics| ==> !Dynamic(parts[j])
  {
    var parts := statics + [seg] + rest;
    assert parts[..|statics|] == statics;
    assert parts[|statics|] == seg;
    assert forall j :: 0 <= j < |statics| ==> parts[j] == statics[j];
  }

  lemma StaticBaseOfParts(parts: seq<string>, k: nat)
    requires 0 < k < |parts| && Dynamic(parts[k])
    requires forall j :: 0 <= j < k ==> !Dynamic(parts[j])
    requires forall j :: 0 <= j < |parts| ==> '/' !in parts[j]
    ensures StaticBase(Join(parts, '/')) == Join(parts[..k], '/')
  {
    JoinSplit(parts, '/');
    FirstDynamicAt(parts, k);
    BaseOfParts(Join(parts, '/'), parts, k);
  }

  lemma NoSlashParts(statics: seq<string>, seg: string, rest: seq<string>)
    requires forall j :: 0 <= j < |statics| ==> '/' !in statics[j]
    requires '/' !in seg && forall j :: 0 <= j < |rest| ==> '/' !in rest[j]
    ensures forall j :: 0 <= j < |statics + [seg] + rest| ==> '/' !in (statics + [seg] + rest)[j]
  {
    var parts := statics + [seg] + rest;
    forall j | 0 <= j < |parts| ensures '/' !in parts[j] {
      if j < |statics| { assert parts[j] == statics[j]; }
      else if j > |statics| { assert parts[j] == rest[j - |statics| - 1]; }
    }
  }

  lemma BaseOfParts(path: string, parts: seq<string>, k: nat)
    requires Split(path, '/') == parts && FirstDynamic(parts) == k && 0 < k < |parts|
    ensures StaticBase(path) == Join(parts[..k], '/')
  {
  }

  lemma FirstDynamicAt(parts: seq<string>, k: nat)
    requires k < |parts| && Dynamic(parts[k])
    requires forall j :: 0 <= j < k ==> !Dynamic(parts[j])
    ensures FirstDynamic(parts) == k
  {
  }

  /** A path without a dynamic segment has base `"/"`. */
  lemma StaticBaseNoDynamic(path: string)
    requires forall j :: 0 <= j < |Split(path, '/')| ==> !Dynamic(Split(path, '/')[j])
    ensures StaticBase(path) == "/"
  {
  }

  // ---------------------------------------------------------------------
  // The conflict plan

  /** What the first loop records of a route: its base and whether it
      holds a `:` and a `*`. */
  datatype Profile = Profile(base: string, param: bool, wild: bool)

  function ProfileOf(r: Route): Profile
  {
    Profile(StaticBase(r.path), ':' in r.path, '*' in r.path)
  }

  function Profiles(rs: seq<Route>): (ps: seq<Profile>)
    ensures |ps| == |rs|
    ensures forall j :: 0 <= j < |rs| ==> ps[j] == ProfileOf(rs[j])
  {
    seq(|rs|, j requires 0 <= j < |rs| => ProfileOf(rs[j]))
  }

  /** The bases of all profiles, of those with a `:`, and of those with a `*`. */
  function Bases(ps: seq<Profile>): set<string>
    decreases |ps|
  {
    if ps == [] then {} else Bases(ps[..|ps| - 1]) + {ps[|ps| - 1].base}
  }

  function ParamBases(ps: seq<Profile>): set<string>
    decreases |ps|
  {
    if ps == [] then {}
    else
      ParamBases(ps[..|ps| - 1]) + (if ps[|ps| - 1].param then {ps[|ps| - 1].base} else {})
  }

  function WildBases(ps: seq<Profile>): set<string>
    decreases |ps|
  {
    if ps == [] then {}
    else
      WildBases(ps[..|ps| - 1]) + (if ps[|ps| - 1].wild then {ps[|ps| - 1].base} else {})
  }

  /** Membership in the base sets, stated profile by profile. */
  lemma {:induction false} BasesAt(ps: seq<Profile>, b: string)
    ensures b in Bases(ps) <==> exists j :: 0 <= j < |ps| && ps[j].base == b
    ensures b in ParamBases(ps) <==> exists j :: 0 <= j < |ps| && ps[j].base == b && ps[j].param
    ensures b in WildBases(ps) <==> exists j :: 0 <= j < |ps| && ps[j].base == b && ps[j].wild
    decreases |ps|
  {
    if ps != [] {
      var n := |ps| - 1;
      BasesAt(ps[..n], b);
      assert forall j :: 0 <= j < n ==> ps[..n][j] == ps[j];
    }
  }

  lemma SnocBases(ps: seq<Profile>, n: nat)
    requires n < |ps|
    ensures Bases(ps[..n + 1]) == Bases(ps[..n]) + {ps[n].base}
    ensures ParamBases(ps[..n + 1]) == ParamBases(ps[..n]) + (if ps[n].param then {ps[n].base} else {})
    ensures WildBases(ps[..n + 1]) == WildBases(ps[..n]) + (if ps[n].wild then {ps[n].base} else {})
  {
    assert ps[..n + 1][..n] == ps[..n];
  }

  /** A base groups both a parameter route and a wildcard route. */
  predicate Conflicting(rs: seq<Route>, b: string)
  {
    b in ParamBases(Profiles(rs)) && b in WildBases(Profiles(rs))
  }

  /** A base is conflicting exactly when one route with that base holds a
      `:` and one (maybe another) holds a `*`. */
  lemma ConflictingIff(rs: seq<Route>, b: string)
    ensures Conflicting(rs, b) <==>
      (exists j :: 0 <= j < |rs| && StaticBase(rs[j].path) == b && ':' in rs[j].path)
      && (exists j :: 0 <= j < |rs| && StaticBase(rs[j].path) == b && '*' in rs[j].path)
  {
    var ps := Profiles(rs);
    BasesAt(ps, b);
  }

  /** The test of the third loop: the path is the prefix or lies below it. */
  predicate Covers(pref: string, path: string)
  {
    path == pref || HasPrefix(path, pref + "/")
  }

  /** Whether each base seen so far holds a `:` route and a `*` route. */
  datatype Types = Types(param: bool, wild: bool)

  /** The `prefixTypes` map agrees with the profiles seen so far. */
  predicate TypesAgree(types: map<string, Types>, ps: seq<Profile>)
  {
    && types.Keys == Bases(ps)
    && (forall b :: b in types ==> (types[b].param <==> b in ParamBases(ps)))
    && (forall b :: b in types ==> (types[b].wild <==> b in WildBases(ps)))
  }

  /** One more route merged into its base's entry keeps the map in agreement. */
  lemma TypesStep(types: map<string, Types>, ps: seq<Profile>, i: nat, t: Types)
    requires i < |ps| && TypesAgree(types, ps[..i])
    requires var pr := ps[i];
      t == Types((pr.base in types && types[pr.base].param) || pr.param,
                 (pr.base in types && types[pr.base].wild) || pr.wild)
    ensures TypesAgree(types[ps[i].base := t], ps[..i + 1])
  {
    SnocBases(ps, i);
    BasesSub(ps[..i], ps[i].base);
  }

  /** First loop of `registerAll`: the `prefixTypes` map. */
  method CollectTypes(rs: seq<Route>) returns (types: map<string, Types>)
    ensures types.Keys == Bases(Profiles(rs))
    ensures forall b :: b in types ==> (types[b].param <==> b in ParamBases(Profiles(rs)))
    ensures forall b :: b in types ==> (types[b].wild <==> b in WildBases(Profiles(rs)))
  {
    ghost var ps := Profiles(rs);
    types := map[];
    for i := 0 to |rs|
      invariant TypesAgree(types, ps[..i])
    {
      var pr := ProfileOf(rs[i]);
      var t := if pr.base in types then types[pr.base] else Types(false, false);
      if pr.param {
        t := t.(param := true);
      }
      if pr.wild {
        t := t.(wild := true);
      }
      TypesStep(types, ps, i, t);
      types := types[pr.base := t];
    }
    assert ps[..|rs|] == ps;
  }

  /** Second loop of `registerAll`: the conflicting bases, in whatever order
      the map is walked. */
  method FindConflicts(types: map<string, Types>) returns (conflicts: set<string>)
    ensures forall b :: b in conflicts <==> b in types && types[b].param && types[b].wild
  {
    conflicts := {};
    var todo := types.Keys;
    while todo != {}
      invariant todo <= types.Keys
      invariant forall b :: b in conflicts <==> b in types.Keys - todo && types[b].param && types[b].wild
      decreases |todo|
    {
      var b :| b in todo;
      if types[b].param && types[b].wild {
        conflicts := conflicts + {b};
      }
      todo := todo - {b};
    }
  }

  /** The routes given the placement `x` (`None`: native), in registration order. */
  function Placed(rs: seq<Route>, assign: seq<Option<string>>, x: Option<string>): (r: seq<Route>)
    requires |assign| == |rs|
    ensures |r| <= |rs|
    decreases |rs|
  {
    if rs == [] then []
    else
      Placed(rs[..|rs| - 1], assign[..|assign| - 1], x)
      + (if assign[|assign| - 1] == x then [rs[|rs| - 1]] else [])
  }

  /** A route is among the routes of a placement exactly when one of its
      registrations was given that placement; since each registration has one
      placement, it lands in exactly one of the native list and the zones. */
  lemma {:induction false} PlacedIn(rs: seq<Route>, assign: seq<Option<string>>, x: Option<string>, r: Route)
    requires |assign| == |rs|
    ensures r in Placed(rs, assign, x) <==> exists j :: 0 <= j < |rs| && rs[j] == r && assign[j] == x
    decreases |rs|
  {
    if rs != [] {
      var n := |rs| - 1;
      PlacedIn(rs[..n], assign[..n], x, r);
      var init := Placed(rs[..n], assign[..n], x);
      var tail := if assign[n] == x then [rs[n]] else [];
      assert Placed(rs, assign, x) == init + tail;
      assert r in init + tail <==> r in init || r in tail;
      assert r in tail <==> rs[n] == r && assign[n] == x;
      if exists j :: 0 <= j < |rs| && rs[j] == r && assign[j] == x {
        var j :| 0 <= j < |rs| && rs[j] == r && assign[j] == x;
        if j < n {
          assert rs[..n][j] == r && assign[..n][j] == x;
        }
      }
      if exists j :: 0 <= j < n && rs[..n][j] == r && assign[..n][j] == x {
        var j :| 0 <= j < n && rs[..n][j] == r && assign[..n][j] == x;
        assert rs[j] == r && assign[j] == x;
      }
    }
  }

  lemma PlacedSnoc(rs: seq<Route>, assign: seq<Option<string>>, r: Route, a: Option<string>, x: Option<string>)
    requires |assign| == |rs|
    ensures Placed(rs + [r], assign + [a], x) == Placed(rs, assign, x) + (if a == x then [r] else [])
  {
    assert (rs + [r])[..|rs|] == rs && (assign + [a])[..|assign|] == assign;
  }

  /** The inner loop of the third loop: the first conflicting base, in map
      order, that covers the path. */
  method ChooseZone(path: string, conflicts: set<string>) returns (chosen: Option<string>)
    ensures chosen.Some? ==> chosen.value in conflicts && Covers(chosen.value, path)
    ensures chosen.None? ==> forall b :: b in conflicts ==> !Covers(b, path)
  {
    chosen := None;
    var todo := conflicts;
    while todo != {} && chosen.None?
      invariant todo <= conflicts
      invariant chosen.None? ==> forall b :: b in conflicts - todo ==> !Covers(b, path)
      invariant chosen.Some? ==> chosen.value in conflicts && Covers(chosen.value, path)
      decreases |todo|
    {
      var pref :| pref in todo;
      if path == pref || HasPrefix(path, pref + "/") {
        chosen := Some(pref);
      }
      todo := todo - {pref};
    }
  }

  /** What the third loop has built after the first `i` routes. */
  ghost predicate Assigned(rs: seq<Route>, conflicts: set<string>, i: nat, native: seq<Route>,
                     zones: map<string, seq<Route>>, assign: seq<Option<string>>)
  {
    && i <= |rs| && |assign| == i
    && (forall j :: 0 <= j < i && assign[j].Some? ==>
          assign[j].value in conflicts && Covers(assign[j].value, rs[j].path))
    && (forall j :: 0 <= j < i && assign[j].None? ==>
          forall b :: b in conflicts ==> !Covers(b, rs[j].path))
    && native == Placed(rs[..i], assign, None)
    && (forall b :: b in zones <==> exists j :: 0 <= j < i && assign[j] == Some(b))
    && (forall b :: b in zones ==> zones[b] == Placed(rs[..i], assign, Some(b)))
  }

  /** The zones after route `i` is placed by `chosen`: appended to its zone,
      which it opens when it is the zone's first route. */
  function AddToZone(zones: map<string, seq<Route>>, chosen: Option<string>, r: Route): map<string, seq<Route>>
  {
    if chosen.None? then zones
    else if chosen.value in zones then zones[chosen.value := zones[chosen.value] + [r]]
    else zones[chosen.value := [r]]
  }

  /** Placing route `i` keeps what the loop has built in agreement. */
  lemma AssignStep(rs: seq<Route>, conflicts: set<string>, i: nat, native: seq<Route>,
                   zones: map<string, seq<Route>>, assign: seq<Option<string>>, chosen: Option<string>)
    requires i < |rs| && Assigned(rs, conflicts, i, native, zones, assign)
    requires chosen.Some? ==> chosen.value in conflicts && Covers(chosen.value, rs[i].path)
    requires chosen.None? ==> forall b :: b in conflicts ==> !Covers(b, rs[i].path)
    ensures Assigned(rs, conflicts, i + 1, if chosen.None? then native + [rs[i]] else native,
                     AddToZone(zones, chosen, rs[i]), assign + [chosen])
  {
    var assign' := assign + [chosen];
    assert rs[..i + 1] == rs[..i] + [rs[i]];
    assert forall j :: 0 <= j < i ==> assign'[j] == assign[j];
    PlacedSnoc(rs[..i], assign, rs[i], chosen, None);
    KeysStep(i, zones, assign, chosen, rs[i]);
    ZonesStep(rs, i, zones, assign, chosen);
  }

  lemma KeysStep(i: nat, zones: map<string, seq<Route>>, assign: seq<Option<string>>, chosen: Option<string>, r: Route)
    requires |assign| == i
    requires forall b :: b in zones <==> exists j :: 0 <= j < i && assign[j] == Some(b)
    ensures var z := AddToZone(zones, chosen, r);
      forall b :: b in z <==> exists j :: 0 <= j < i + 1 && (assign + [chosen])[j] == Some(b)
  {
    var z := AddToZone(zones, chosen, r);
    var a := assign + [chosen];
    forall b
      ensures b in z <==> exists j :: 0 <= j < i + 1 && a[j] == Some(b)
    {
      if b in z {
        if b in zones {
          var j :| 0 <= j < i && assign[j] == Some(b);
          assert a[j] == Some(b);
        } else {
          assert a[i] == Some(b);
        }
      }
      if exists j :: 0 <= j < i + 1 && a[j] == Some(b) {
        var j :| 0 <= j < i + 1 && a[j] == Some(b);
        if j < i {
          assert assign[j] == Some(b);
        }
      }
    }
  }

  lemma ZonesStep(rs: seq<Route>, i: nat, zones: map<string, seq<Route>>,
                  assign: seq<Option<string>>, chosen: Option<string>)
    requires i < |rs| && |assign| == i
    requires forall b :: b in zones <==> exists j :: 0 <= j < i && assign[j] == Some(b)
    requires forall b :: b in zones ==> zones[b] == Placed(rs[..i], assign, Some(b))
    ensures var z := AddToZone(zones, chosen, rs[i]);
      forall b :: b in z ==> z[b] == Placed(rs[..i + 1], assign + [chosen], Some(b))
  {
    assert rs[..i + 1] == rs[..i] + [rs[i]];
    var z := AddToZone(zones, chosen, rs[i]);
    forall b | b in z
      ensures z[b] == Placed(rs[..i + 1], assign + [chosen], Some(b))
    {
      PlacedSnoc(rs[..i], assign, rs[i], chosen, Some(b));
      if b !in zones {
        PlacedNone(rs[..i], assign, b);
      }
    }
  }

  /** Third loop of `registerAll`: each route is placed in the first
      conflicting base, in map order, that covers it, or registered natively. */
  method AssignZones(rs: seq<Route>, conflicts: set<string>)
    returns (native: seq<Route>, zones: map<string, seq<Route>>, assign: seq<Option<string>>)
    ensures |assign| == |rs|
    ensures forall j :: 0 <= j < |rs| && assign[j].Some? ==>
      assign[j].value in conflicts && Covers(assign[j].value, rs[j].path)
    ensures forall j :: 0 <= j < |rs| && assign[j].None? ==>
      forall b :: b in conflicts ==> !Covers(b, rs[j].path)
    ensures native == Placed(rs, assign, None)
    ensures forall b :: b in zones <==> exists j :: 0 <= j < |rs| && assign[j] == Some(b)
    ensures forall b :: b in zones ==> zones[b] == Placed(rs, assign, Some(b))
  {
    native, zones, assign := [], map[], [];
    for i := 0 to |rs|
      invariant Assigned(rs, conflicts, i, native, zones, assign)
    {
      var chosen := ChooseZone(rs[i].path, conflicts);
      AssignStep(rs, conflicts, i, native, zones, assign, chosen);
      if chosen.Some? {
        var pref := chosen.value;
        if pref !in zones {
          zones := zones[pref := [rs[i]]];
        } else {
          zones := zones[pref := zones[pref] + [rs[i]]];
        }
      } else {
        native := native + [rs[i]];
      }
      assign := assign + [chosen];
    }
    assert rs[..|rs|] == rs;
  }

  /** A placement no route was given places nothing. */
  lemma {:induction false} PlacedNone(rs: seq<Route>, assign: seq<Option<string>>, b: string)
    requires |assign| == |rs|
    requires forall j :: 0 <= j < |rs| ==> assign[j] != Some(b)
    ensures Placed(rs, assign, Some(b)) == []
    decreases |rs|
  {
    if rs != [] {
      PlacedNone(rs[..|rs| - 1], assign[..|assign| - 1], b);
    }
  }
  /** `registerAll` before the zones are deployed: the native routes, the
      shadow zones and where each route went. */
  method RegisterAll(rs: seq<Route>)
    returns (native: seq<Route>, zones: map<string, seq<Route>>, assign: seq<Option<string>>)
    ensures |assign| == |rs|
    ensures forall j :: 0 <= j < |rs| && assign[j].Some? ==>
      Conflicting(rs, assign[j].value) && Covers(assign[j].value, rs[j].path)
    ensures forall j :: 0 <= j < |rs| && assign[j].None? ==>
      forall b :: Conflicting(rs, b) ==> !Covers(b, rs[j].path)
    ensures native == Placed(rs, assign, None)
    ensures forall b :: b in zones <==> exists j :: 0 <= j < |rs| && assign[j] == Some(b)
    ensures forall b :: b in zones ==> zones[b] == Placed(rs, assign, Some(b))
  {
    var types := CollectTypes(rs);
    var conflicts := FindConflicts(types);
    assert forall b :: b in conflicts <==> Conflicting(rs, b) by {
      forall b ensures b in conflicts <==> Conflicting(rs, b) {
        if b in ParamBases(Profiles(rs)) {
          BasesSub(Profiles(rs), b);
        }
      }
    }
    native, zones, assign := AssignZones(rs, conflicts);
  }

  lemma {:induction false} BasesSub(ps: seq<Profile>, b: string)
    ensures b in ParamBases(ps) ==> b in Bases(ps)
    ensures b in WildBases(ps) ==> b in Bases(ps)
    decreases |ps|
  {
    if ps != [] {
      BasesSub(ps[..|ps| - 1], b);
    }
  }
}
