/** The properties of the upgraded module object, lib/upgrader.js lines 228-472 with
    `middlewareAndRouteFunction` (612-623), `outputHelpers` (767-812) and
    `outputMethods` (814-870). Each section is a (possibly empty) run of
    properties; the object is their concatenation in a fixed order. */
module Output {
  import opened Wrappers
  import opened Text
  import opened AssocList
  import opened Ast
  import opened Seqs
  import opened UpgradeState
  import opened Recognise
  import opened Moves

  /** The static key of a property: an identifier's name or a string literal. */
  function PropName(p: Node): Option<string> {
    if !p.kind.Property? then None
    else match p.kind.key.kind
      case Identifier(x) => Some(x)
      case Literal(LStr(s)) => Some(s)
      case _ => None
  }

  function Key(p: Node): string {
    NameKey(PropName(p))
  }

  /** `function(self, options) { return { …ps } }`. */
  function Returning(ps: seq<Node>): Node {
    SelfOptionsFn([Mk(Return(Mk(ObjectExpr(ps))))])
  }

  function PlainProp(k: string, v: Node): Node {
    Prop(k, v, false)
  }

  function SpecialsSection(specials: AList<Node>): seq<Node> {
    MapEntries(specials, PlainProp)
  }

  function OptionsSection(options: AList<Node>): seq<Node> {
    if options == [] then [] else [Prop("options", Mk(ObjectExpr(MapEntries(options, PlainProp))), false)]
  }

  function BeforeSection(adjusts: seq<Node>): seq<Node> {
    if adjusts == [] then [] else [Prop("beforeSuperClass", SelfOptionsFn(adjusts), true)]
  }

  function InitSection(kept: seq<Node>): seq<Node> {
    if kept == [] then [] else [Mk(Property(Ident("init"), SelfOptionsFn(kept), false, true, true))]
  }

  /** `middlewareAndRouteFunction(fns)`: one function is used as it is, printed as a
      `function`; several become an array, in order. */
  function MiddlewareAndRoute(fns: seq<Node>): Node {
    if |fns| == 1 then Retype(fns[0]) else Mk(ArrayExpr(fns))
  }

  /** A route under its name; a single function is a method. */
  function RouteProp(n: string, fns: seq<Node>): Node {
    Mk(Property(Ident(n), MiddlewareAndRoute(fns), false, |fns| == 1, false))
  }

  /** A route with one function or arrow is emitted as a method holding that function,
      printed as a `function`; a route with several is emitted as a plain property
      holding their array, in order. */
  lemma RouteEmission(n: string, fns: seq<Node>)
    requires fns != [] && (fns[0].kind.FunctionExpr? || fns[0].kind.ArrowFunction?)
    ensures var p := RouteProp(n, fns);
      p.kind.Property? && p.kind.key == Ident(n) && !p.kind.computed
      && (p.kind.isMethod <==> |fns| == 1)
      && (|fns| == 1 ==> p.kind.value.kind.FunctionExpr?
                         && p.kind.value.kind.params == fns[0].kind.params
                         && p.kind.value.kind.fnBody == fns[0].kind.fnBody)
      && (|fns| > 1 ==> p.kind.value.kind == ArrayExpr(fns))
  {
  }

  function VerbProp(m: string, byName: AList<seq<Node>>): Node {
    Prop(m, Mk(ObjectExpr(MapEntries(byName, RouteProp))), false)
  }

  function RouteSection(t: string, byVerb: AList<AList<seq<Node>>>): Node {
    Prop(t + "s", Returning(MapEntries(byVerb, VerbProp)), true)
  }

  /** One `<type>s` section per route type, in first-registration order. */
  function RouteSections(routes: Routes): seq<Node> {
    MapEntries(routes, RouteSection)
  }

  function HandlerProp(n: string, fn: Node): Node {
    Prop(n, fn, true)
  }

  /** An event's handlers under the event name, a string literal key. */
  function EventProp(e: string, byName: AList<Node>): Node {
    Mk(Property(Mk(Literal(LStr(e))), Mk(ObjectExpr(MapEntries(byName, HandlerProp))), false, false, false))
  }

  function HandlersSection(handlers: Handlers): seq<Node> {
    if handlers == [] then [] else [Prop("handlers", Returning(MapEntries(handlers, EventProp)), true)]
  }

  function FieldsSection(fields: Option<seq<Node>>): seq<Node> {
    match fields
    case None => []
    case Some(ps) => [Prop("fields", Mk(ObjectExpr(ps)), false)]
  }

  /** A method as a property: its name, its function, its comments. */
  function MethodProp(m: Method): Node {
    Node(Property(Ident(NameKey(m.name)), m.fn, false, true, false), m.comments)
  }

  function MethodProps(ms: seq<Method>): (r: seq<Node>)
    ensures |r| == |ms| && forall i :: 0 <= i < |ms| ==> r[i] == MethodProp(ms[i])
  {
    if ms == [] then [] else [MethodProp(ms[0])] + MethodProps(ms[1..])
  }

  function ExtendedMethods(ms: seq<Method>, caps: AList<string>): (r: seq<Method>)
    requires forall i :: 0 <= i < |ms| ==> Extends(caps, ms[i])
    ensures |r| == |ms| && forall i :: 0 <= i < |ms| ==> r[i] == ExtendMethod(ms[i], caps)
  {
    if ms == [] then [] else [ExtendMethod(ms[0], caps)] + ExtendedMethods(ms[1..], caps)
  }

  /** `outputMethods(category, ms)`. */
  function MethodsSection(category: string, ms: seq<Method>): seq<Node> {
    if ms == [] then [] else [Prop(category, Returning(MethodProps(ms)), true)]
  }

  /** `outputHelpers(helpers)`: an array of names is kept as it is; an object
      becomes a function returning it. */
  function HelpersSection(helpers: Option<Node>): seq<Node> {
    match helpers
    case None => []
    case Some(h) =>
      if h.kind.ArrayExpr? then [Prop("helpers", h, false)]
      else [Prop("helpers", SelfOptionsFn([Mk(Return(h))]), true)]
  }

  /** The ten sections, in output order. */
  function Sections(acc: Acc, kept: seq<Node>, plain: seq<Method>, extend: seq<Method>): (ss: seq<seq<Node>>)
    requires forall i :: 0 <= i < |extend| ==> Extends(acc.superCaptures, extend[i])
    ensures |ss| == 10
  {
    [SpecialsSection(acc.specials), OptionsSection(acc.options), BeforeSection(acc.adjusts),
     InitSection(kept), RouteSections(acc.routes), HandlersSection(acc.handlers),
     FieldsSection(acc.fields), MethodsSection("methods", plain),
     MethodsSection("extendMethods", ExtendedMethods(extend, acc.superCaptures)),
     HelpersSection(acc.helpers)]
  }

  function Concat(ss: seq<seq<Node>>): seq<Node> {
    if ss == [] then [] else ss[0] + Concat(ss[1..])
  }

  /** The new properties of the module object. */
  function Properties(acc: Acc, kept: seq<Node>, plain: seq<Method>, extend: seq<Method>): seq<Node>
    requires forall i :: 0 <= i < |extend| ==> Extends(acc.superCaptures, extend[i])
  {
    Concat(Sections(acc, kept, plain, extend))
  }

  // ---------------------------------------------------------------------------
  // The order of the sections

  const SpecialNames := ["extend", "improve", "customTags", "bundle"]
  const RouteSectionNames := ["apiRoutes", "renderRoutes", "htmlRoutes", "routes"]

  lemma RouteSectionName(t: string)
    requires t in RouteTypes
    ensures t + "s" in RouteSectionNames
  {
    if t == "apiRoute" { assert t + "s" == RouteSectionNames[0]; }
    else if t == "renderRoute" { assert t + "s" == RouteSectionNames[1]; }
    else if t == "htmlRoute" { assert t + "s" == RouteSectionNames[2]; }
    else { assert t + "s" == RouteSectionNames[3]; }
  }

  /** The position of a key's section in the output. */
  function Rank(k: string): nat {
    if k == "options" then 1
    else if k == "beforeSuperClass" then 2
    else if k == "init" then 3
    else if k == "handlers" then 5
    else if k == "fields" then 6
    else if k == "methods" then 7
    else if k == "extendMethods" then 8
    else if k == "helpers" then 9
    else if k in RouteSectionNames then 4
    else if k in SpecialNames then 0
    else 10
  }

  /** The keys the tables can hold: specials come from the four special names,
      routes from the four route types. */
  predicate ValidTables(acc: Acc) {
    (forall i :: 0 <= i < |acc.specials| ==> acc.specials[i].0 in SpecialNames)
    && (forall i :: 0 <= i < |acc.routes| ==> acc.routes[i].0 in RouteTypes)
  }

  predicate RankSorted(ps: seq<Node>) {
    forall i, j :: 0 <= i < j < |ps| ==> Rank(Key(ps[i])) <= Rank(Key(ps[j]))
  }

  predicate AllRank(ps: seq<Node>, r: nat) {
    forall i :: 0 <= i < |ps| ==> Rank(Key(ps[i])) == r
  }

  /** Whether some property has key `k`. */
  predicate Present(ps: seq<Node>, k: string) {
    exists i :: 0 <= i < |ps| && Key(ps[i]) == k
  }

  predicate RanksAtLeast(ps: seq<Node>, r: nat) {
    forall i :: 0 <= i < |ps| ==> r <= Rank(Key(ps[i]))
  }

  /** Sections whose keys have the ranks base, base + 1, … concatenate in order. */
  lemma {:induction false} ConcatSorted(ss: seq<seq<Node>>, base: nat)
    requires forall r :: 0 <= r < |ss| ==> AllRank(ss[r], base + r)
    ensures RankSorted(Concat(ss)) && RanksAtLeast(Concat(ss), base)
  {
    if ss != [] {
      var rest := Concat(ss[1..]);
      forall r | 0 <= r < |ss[1..]| ensures AllRank(ss[1..][r], base + 1 + r) {
        assert ss[1..][r] == ss[r + 1];
      }
      ConcatSorted(ss[1..], base + 1);
      var all := ss[0] + rest;
      forall i, j | 0 <= i < j < |all| ensures Rank(Key(all[i])) <= Rank(Key(all[j])) {
        if j < |ss[0]| {
          assert all[i] == ss[0][i] && all[j] == ss[0][j];
        } else if i < |ss[0]| {
          assert all[i] == ss[0][i] && all[j] == rest[j - |ss[0]|];
        } else {
          assert all[i] == rest[i - |ss[0]|] && all[j] == rest[j - |ss[0]|];
        }
      }
      forall i | 0 <= i < |all| ensures base <= Rank(Key(all[i])) {
        if i < |ss[0]| { assert all[i] == ss[0][i]; } else { assert all[i] == rest[i - |ss[0]|]; }
      }
    }
  }

  /** A key can only come from the section of its rank. */
  lemma {:induction false} ConcatPresent(ss: seq<seq<Node>>, base: nat, k: string)
    requires forall r :: 0 <= r < |ss| ==> AllRank(ss[r], base + r)
    ensures Present(Concat(ss), k) <==> base <= Rank(k) < base + |ss| && Present(ss[Rank(k) - base], k)
  {
    if ss != [] {
      var rest := Concat(ss[1..]);
      forall r | 0 <= r < |ss[1..]| ensures AllRank(ss[1..][r], base + 1 + r) {
        assert ss[1..][r] == ss[r + 1];
      }
      ConcatPresent(ss[1..], base + 1, k);
      PresentAppend(ss[0], rest, k);
      if Rank(k) > base && Rank(k) < base + |ss| {
        assert ss[1..][Rank(k) - (base + 1)] == ss[Rank(k) - base];
      }
    }
  }

  lemma PresentAppend(xs: seq<Node>, ys: seq<Node>, k: string)
    ensures Present(xs + ys, k) <==> Present(xs, k) || Present(ys, k)
  {
    var zs := xs + ys;
    if Present(zs, k) {
      var i :| 0 <= i < |zs| && Key(zs[i]) == k;
      if i < |xs| { assert xs[i] == zs[i]; } else { assert ys[i - |xs|] == zs[i]; }
    }
    if Present(xs, k) {
      var i :| 0 <= i < |xs| && Key(xs[i]) == k;
      assert zs[i] == xs[i];
    }
    if Present(ys, k) {
      var i :| 0 <= i < |ys| && Key(ys[i]) == k;
      assert zs[|xs| + i] == ys[i];
    }
  }

  lemma SpecialsRank(specials: AList<Node>)
    requires forall i :: 0 <= i < |specials| ==> specials[i].0 in SpecialNames
    ensures AllRank(SpecialsSection(specials), 0)
  {
    forall i | 0 <= i < |specials| ensures Rank(Key(SpecialsSection(specials)[i])) == 0 {
      var k := specials[i].0;
      assert Key(SpecialsSection(specials)[i]) == k;
      assert k == "extend" || k == "improve" || k == "customTags" || k == "bundle";
    }
  }

  lemma RoutesRank(routes: Routes)
    requires forall i :: 0 <= i < |routes| ==> routes[i].0 in RouteTypes
    ensures AllRank(RouteSections(routes), 4)
  {
    forall i | 0 <= i < |routes| ensures Rank(Key(RouteSections(routes)[i])) == 4 {
      RouteSectionKey(routes, i);
      RouteTypeRank(routes[i].0);
    }
  }

  lemma RouteTypeRank(t: string)
    requires t in RouteTypes
    ensures Rank(t + "s") == 4
  {
    if t == "apiRoute" {
      assert t + "s" == "apiRoutes";
    } else if t == "renderRoute" {
      assert t + "s" == "renderRoutes";
    } else if t == "htmlRoute" {
      assert t + "s" == "htmlRoutes";
    } else {
      assert t + "s" == "routes";
    }
  }

  lemma PluralInjective(u: string, t: string)
    requires u + "s" == t + "s"
    ensures u == t
  {
    assert u == (u + "s")[..|u|];
    assert t == (t + "s")[..|t|];
  }

  lemma RouteSectionKey(routes: Routes, i: nat)
    requires i < |routes|
    ensures i < |RouteSections(routes)| && Key(RouteSections(routes)[i]) == routes[i].0 + "s"
  {
  }

  /** A route section is present exactly for the route types registered. */
  lemma RoutesPresent(routes: Routes, t: string)
    ensures Present(RouteSections(routes), t + "s") <==> HasKey(routes, t)
  {
    var ps := RouteSections(routes);
    if Present(ps, t + "s") {
      var i :| 0 <= i < |ps| && Key(ps[i]) == t + "s";
      RouteSectionKey(routes, i);
      PluralInjective(routes[i].0, t);
    }
    if HasKey(routes, t) {
      var i :| 0 <= i < |routes| && routes[i].0 == t;
      RouteSectionKey(routes, i);
    }
  }

  lemma SpecialsPresent(specials: AList<Node>, k: string)
    ensures Present(SpecialsSection(specials), k) <==> HasKey(specials, k)
  {
    var ps := SpecialsSection(specials);
    if Present(ps, k) {
      var i :| 0 <= i < |ps| && Key(ps[i]) == k;
      assert specials[i].0 == k;
    }
    if HasKey(specials, k) {
      var i :| 0 <= i < |specials| && specials[i].0 == k;
      assert Key(ps[i]) == k;
    }
  }

  lemma MethodsSectionRank(category: string, ms: seq<Method>)
    ensures AllRank(MethodsSection(category, ms), Rank(category))
  {
  }

  lemma OptionsRank(options: AList<Node>)
    ensures AllRank(OptionsSection(options), 1)
  {
  }

  lemma BeforeRank(adjusts: seq<Node>)
    ensures AllRank(BeforeSection(adjusts), 2)
  {
  }

  lemma InitRank(kept: seq<Node>)
    ensures AllRank(InitSection(kept), 3)
  {
  }

  lemma HandlersRank(handlers: Handlers)
    ensures AllRank(HandlersSection(handlers), 5)
  {
  }

  lemma FieldsRank(fields: Option<seq<Node>>)
    ensures AllRank(FieldsSection(fields), 6)
  {
  }

  lemma HelpersRank(helpers: Option<Node>)
    ensures AllRank(HelpersSection(helpers), 9)
  {
  }

  /** Sections whose keys have ranks 0, 1, 2, … in that order. */
  predicate Ranked(ss: seq<seq<Node>>) {
    forall r :: 0 <= r < |ss| ==> AllRank(ss[r], r)
  }

  lemma TenRanked(s0: seq<Node>, s1: seq<Node>, s2: seq<Node>, s3: seq<Node>, s4: seq<Node>,
                  s5: seq<Node>, s6: seq<Node>, s7: seq<Node>, s8: seq<Node>, s9: seq<Node>)
    requires AllRank(s0, 0) && AllRank(s1, 1) && AllRank(s2, 2) && AllRank(s3, 3) && AllRank(s4, 4)
    requires AllRank(s5, 5) && AllRank(s6, 6) && AllRank(s7, 7) && AllRank(s8, 8) && AllRank(s9, 9)
    ensures Ranked([s0, s1, s2, s3, s4, s5, s6, s7, s8, s9])
  {
  }

  lemma SectionsRanked(acc: Acc, kept: seq<Node>, plain: seq<Method>, extend: seq<Method>)
    requires forall i :: 0 <= i < |extend| ==> Extends(acc.superCaptures, extend[i])
    requires ValidTables(acc)
    ensures Ranked(Sections(acc, kept, plain, extend))
  {
    SpecialsRank(acc.specials);
    OptionsRank(acc.options);
    BeforeRank(acc.adjusts);
    InitRank(kept);
    RoutesRank(acc.routes);
    HandlersRank(acc.handlers);
    FieldsRank(acc.fields);
    MethodsSectionRank("methods", plain);
    var ext := ExtendedMethods(extend, acc.superCaptures);
    MethodsSectionRank("extendMethods", ext);
    HelpersRank(acc.helpers);
    assert Rank("methods") == 7 && Rank("extendMethods") == 8;
    TenRanked(SpecialsSection(acc.specials), OptionsSection(acc.options), BeforeSection(acc.adjusts),
              InitSection(kept), RouteSections(acc.routes), HandlersSection(acc.handlers),
              FieldsSection(acc.fields), MethodsSection("methods", plain),
              MethodsSection("extendMethods", ext), HelpersSection(acc.helpers));
  }

  /** The sections come in the fixed order: specials, options, beforeSuperClass,
      init, the route types, handlers, fields, methods, extendMethods, helpers. */
  lemma PropertiesInOrder(acc: Acc, kept: seq<Node>, plain: seq<Method>, extend: seq<Method>)
    requires forall i :: 0 <= i < |extend| ==> Extends(acc.superCaptures, extend[i])
    requires ValidTables(acc)
    ensures RankSorted(Properties(acc, kept, plain, extend))
  {
    SectionsRanked(acc, kept, plain, extend);
    ConcatSorted(Sections(acc, kept, plain, extend), 0);
  }

  /** A key of rank below 10 can only be found in its own section. */
  lemma PresentInSection(acc: Acc, kept: seq<Node>, plain: seq<Method>, extend: seq<Method>, k: string)
    requires forall i :: 0 <= i < |extend| ==> Extends(acc.superCaptures, extend[i])
    requires ValidTables(acc) && Rank(k) < 10
    ensures Present(Properties(acc, kept, plain, extend), k)
      <==> Present(Sections(acc, kept, plain, extend)[Rank(k)], k)
  {
    var ss := Sections(acc, kept, plain, extend);
    SectionsRanked(acc, kept, plain, extend);
    assert forall r :: 0 <= r < |ss| ==> AllRank(ss[r], 0 + r);
    ConcatPresent(ss, 0, k);
  }

  /** A generated section of one property is there exactly when it is not empty. */
  lemma SinglePresent(section: seq<Node>, k: string)
    requires |section| <= 1 && (section != [] ==> Key(section[0]) == k)
    ensures Present(section, k) <==> section != []
  {
  }

  /** Each generated section is there exactly when it has something to say. */
  lemma PropertiesPresent(acc: Acc, kept: seq<Node>, plain: seq<Method>, extend: seq<Method>)
    requires forall i :: 0 <= i < |extend| ==> Extends(acc.superCaptures, extend[i])
    requires ValidTables(acc)
    ensures var ps := Properties(acc, kept, plain, extend);
      (Present(ps, "options") <==> acc.options != [])
      && (Present(ps, "beforeSuperClass") <==> acc.adjusts != [])
      && (Present(ps, "init") <==> kept != [])
      && (Present(ps, "handlers") <==> acc.handlers != [])
      && (Present(ps, "fields") <==> acc.fields.Some?)
      && (Present(ps, "methods") <==> plain != [])
      && (Present(ps, "extendMethods") <==> extend != [])
      && (Present(ps, "helpers") <==> acc.helpers.Some?)
  {
    OptionsPresent(acc, kept, plain, extend);
    BeforePresent(acc, kept, plain, extend);
    InitPresent(acc, kept, plain, extend);
    HandlersPresent(acc, kept, plain, extend);
    FieldsPresent(acc, kept, plain, extend);
    MethodsPresent(acc, kept, plain, extend);
    ExtendMethodsPresent(acc, kept, plain, extend);
    HelpersPresent(acc, kept, plain, extend);
  }

  lemma OptionsPresent(acc: Acc, kept: seq<Node>, plain: seq<Method>, extend: seq<Method>)
    requires forall i :: 0 <= i < |extend| ==> Extends(acc.superCaptures, extend[i])
    requires ValidTables(acc)
    ensures Present(Properties(acc, kept, plain, extend), "options") <==> acc.options != []
  {
    assert Rank("options") == 1;
    PresentInSection(acc, kept, plain, extend, "options");
    SinglePresent(OptionsSection(acc.options), "options");
  }

  lemma BeforePresent(acc: Acc, kept: seq<Node>, plain: seq<Method>, extend: seq<Method>)
    requires forall i :: 0 <= i < |extend| ==> Extends(acc.superCaptures, extend[i])
    requires ValidTables(acc)
    ensures Present(Properties(acc, kept, plain, extend), "beforeSuperClass") <==> acc.adjusts != []
  {
    assert Rank("beforeSuperClass") == 2;
    assert Sections(acc, kept, plain, extend)[2] == BeforeSection(acc.adjusts);
    PresentInSection(acc, kept, plain, extend, "beforeSuperClass");
    SinglePresent(BeforeSection(acc.adjusts), "beforeSuperClass");
  }

  lemma InitPresent(acc: Acc, kept: seq<Node>, plain: seq<Method>, extend: seq<Method>)
    requires forall i :: 0 <= i < |extend| ==> Extends(acc.superCaptures, extend[i])
    requires ValidTables(acc)
    ensures Present(Properties(acc, kept, plain, extend), "init") <==> kept != []
  {
    assert Rank("init") == 3;
    assert Sections(acc, kept, plain, extend)[3] == InitSection(kept);
    PresentInSection(acc, kept, plain, extend, "init");
    SinglePresent(InitSection(kept), "init");
  }

  lemma HandlersPresent(acc: Acc, kept: seq<Node>, plain: seq<Method>, extend: seq<Method>)
    requires forall i :: 0 <= i < |extend| ==> Extends(acc.superCaptures, extend[i])
    requires ValidTables(acc)
    ensures Present(Properties(acc, kept, plain, extend), "handlers") <==> acc.handlers != []
  {
    assert Rank("handlers") == 5;
    PresentInSection(acc, kept, plain, extend, "handlers");
    SinglePresent(HandlersSection(acc.handlers), "handlers");
  }

  lemma FieldsPresent(acc: Acc, kept: seq<Node>, plain: seq<Method>, extend: seq<Method>)
    requires forall i :: 0 <= i < |extend| ==> Extends(acc.superCaptures, extend[i])
    requires ValidTables(acc)
    ensures Present(Properties(acc, kept, plain, extend), "fields") <==> acc.fields.Some?
  {
    assert Rank("fields") == 6;
    PresentInSection(acc, kept, plain, extend, "fields");
    SinglePresent(FieldsSection(acc.fields), "fields");
  }

  lemma MethodsPresent(acc: Acc, kept: seq<Node>, plain: seq<Method>, extend: seq<Method>)
    requires forall i :: 0 <= i < |extend| ==> Extends(acc.superCaptures, extend[i])
    requires ValidTables(acc)
    ensures Present(Properties(acc, kept, plain, extend), "methods") <==> plain != []
  {
    assert Rank("methods") == 7;
    PresentInSection(acc, kept, plain, extend, "methods");
    SinglePresent(MethodsSection("methods", plain), "methods");
  }

  lemma ExtendMethodsPresent(acc: Acc, kept: seq<Node>, plain: seq<Method>, extend: seq<Method>)
    requires forall i :: 0 <= i < |extend| ==> Extends(acc.superCaptures, extend[i])
    requires ValidTables(acc)
    ensures Present(Properties(acc, kept, plain, extend), "extendMethods") <==> extend != []
  {
    assert Rank("extendMethods") == 8;
    PresentInSection(acc, kept, plain, extend, "extendMethods");
    var ext := ExtendedMethods(extend, acc.superCaptures);
    SinglePresent(MethodsSection("extendMethods", ext), "extendMethods");
  }

  lemma HelpersPresent(acc: Acc, kept: seq<Node>, plain: seq<Method>, extend: seq<Method>)
    requires forall i :: 0 <= i < |extend| ==> Extends(acc.superCaptures, extend[i])
    requires ValidTables(acc)
    ensures Present(Properties(acc, kept, plain, extend), "helpers") <==> acc.helpers.Some?
  {
    assert Rank("helpers") == 9;
    PresentInSection(acc, kept, plain, extend, "helpers");
    SinglePresent(HelpersSection(acc.helpers), "helpers");
  }

  /** A route section is there exactly for each registered route type. */
  lemma PropertiesRoutesPresent(acc: Acc, kept: seq<Node>, plain: seq<Method>, extend: seq<Method>, t: string)
    requires forall i :: 0 <= i < |extend| ==> Extends(acc.superCaptures, extend[i])
    requires ValidTables(acc) && t in RouteTypes
    ensures Present(Properties(acc, kept, plain, extend), t + "s") <==> HasKey(acc.routes, t)
  {
    RouteSectionName(t);
    RouteKeyRank(t + "s");
    PresentInSection(acc, kept, plain, extend, t + "s");
    RoutesPresent(acc.routes, t);
  }

  lemma RouteKeyRank(k: string)
    requires k in RouteSectionNames
    ensures Rank(k) == 4
  {
  }

  lemma SpecialKeyRank(k: string)
    requires k in SpecialNames
    ensures Rank(k) == 0
  {
  }

  /** A special is there exactly when the module set it. */
  lemma PropertiesSpecialsPresent(acc: Acc, kept: seq<Node>, plain: seq<Method>, extend: seq<Method>, k: string)
    requires forall i :: 0 <= i < |extend| ==> Extends(acc.superCaptures, extend[i])
    requires ValidTables(acc) && k in SpecialNames
    ensures Present(Properties(acc, kept, plain, extend), k) <==> HasKey(acc.specials, k)
  {
    SpecialKeyRank(k);
    PresentInSection(acc, kept, plain, extend, k);
    SpecialsPresent(acc.specials, k);
  }
}
