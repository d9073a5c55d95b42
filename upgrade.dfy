/** `processModule` of lib/upgrader.js (lines 116-543), without the file reads and
    writes: the top-level statements are scanned for `module.exports = { … }`
    (lines 155-207), the collected construct code is classified, and the last
    exported object literal gets its new properties (lines 219-472). With the
    partials switch on, duplicate top-level `require` declarations are then dropped
    (lines 474-514). */
module Upgrade {
  import opened Wrappers
  import opened Text
  import opened AssocList
  import opened Ast
  import opened Seqs
  import opened UpgradeState
  import opened Construct
  import opened Fields
  import opened Recognise
  import opened Moves
  import opened Output

  // ---------------------------------------------------------------------------
  // The properties of the exported object

  /** `get(property, 'key.name')`: only an identifier key has a name. */
  function KeyName(p: Node): Option<string> {
    if p.kind.Property? then NameOf(p.kind.key) else None
  }

  /** `get(property, 'value')`; a spread element has none. */
  function PropValue(p: Node): Node {
    if p.kind.Property? then p.kind.value else Mk(Absent)
  }

  /** `get(property, 'value.body')` when it is a block statement: its statements. */
  function BlockBody(p: Node): Option<seq<Node>> {
    var v := PropValue(p);
    if (v.kind.FunctionExpr? || v.kind.ArrowFunction?) && v.kind.fnBody.kind.Block? then Some(v.kind.fnBody.kind.stmts)
    else None
  }

  /** The `specials` table (lines 140-147): the key a special property is kept under. */
  function SpecialKey(name: string): (r: Option<string>)
    ensures r.Some? ==> r.value in SpecialNames
  {
    if name == "extend" || name == "improve" || name == "customTags" then Some(name)
    else if name == "moogBundle" then Some("bundle")
    else None
  }

  /** `options[name]`: `get` gives null for a property without a name, which is
      stored under "null". */
  function OptionKey(name: Option<string>): string {
    match name
    case Some(n) => n
    case None => "null"
  }

  /** One property of the exported object. */
  function TopProperty(env: Env, acc: Acc, p: Node, fuel: nat): Result<Acc, UpgradeError> {
    var name := KeyName(p);
    if name == Some("construct") then
      (match BlockBody(p)
       case Some(b) => ParseConstruct(env, acc, b, fuel)
       case None => Ok(acc))
    else if name == Some("beforeConstruct") then
      (match BlockBody(p)
       case Some(b) => Ok(acc.(adjusts := b))
       case None => Ok(acc))
    else if name == Some("afterConstruct") then
      (match BlockBody(p)
       case Some(b) => Ok(acc.(lateInits := acc.lateInits + b))
       case None => Ok(acc))
    else if name.Some? && SpecialKey(name.value).Some? then
      Ok(acc.(specials := Put(acc.specials, SpecialKey(name.value).value, PropValue(p))))
    else if name == Some("addFields") then HandleFieldsOption(acc, "add", PropValue(p))
    else if name == Some("arrangeFields") then HandleFieldsOption(acc, "group", PropValue(p))
    else if name == Some("removeFields") then Ok(RemoveFields(acc, PropValue(p)))
    else if OptionKey(name) == "length" then Err(OptionsLengthInvalid)
    else Ok(acc.(options := Put(acc.options, OptionKey(name), PropValue(p))))
  }

  /** `get(right, 'properties').forEach(…)`, in order. */
  function TopProperties(env: Env, acc: Acc, ps: seq<Node>, fuel: nat): Result<Acc, UpgradeError> {
    if ps == [] then Ok(acc)
    else
      match TopProperties(env, acc, ps[..|ps| - 1], fuel)
      case Err(e) => Err(e)
      case Ok(a) => TopProperty(env, a, ps[|ps| - 1], fuel)
  }

  /** Once a property has thrown, the rest of the object is not looked at. */
  lemma {:induction false} TopPropertiesFailsFrom(env: Env, acc: Acc, ps: seq<Node>, i: nat, fuel: nat)
    requires i <= |ps| && TopProperties(env, acc, ps[..i], fuel).Err?
    ensures TopProperties(env, acc, ps, fuel) == TopProperties(env, acc, ps[..i], fuel)
    decreases |ps| - i
  {
    if i < |ps| {
      assert ps[..i + 1][..i] == ps[..i];
      TopPropertiesFailsFrom(env, acc, ps, i + 1, fuel);
    } else {
      assert ps[..i] == ps;
    }
  }

  /** `module.exports = { … }`: the properties of the exported object literal. */
  function ObjectExport(st: Node): Option<seq<Node>> {
    match ExportsRight(st)
    case Some(right) => if right.kind.ObjectExpr? then Some(right.kind.properties) else None
    case None => None
  }

  /** `parsed.body.forEach(…)`: every exported object literal is scanned. */
  function TopStatements(env: Env, acc: Acc, body: seq<Node>, fuel: nat): Result<Acc, UpgradeError> {
    if body == [] then Ok(acc)
    else
      match TopStatements(env, acc, body[..|body| - 1], fuel)
      case Err(e) => Err(e)
      case Ok(a) =>
        match ObjectExport(body[|body| - 1])
        case Some(ps) => TopProperties(env, a, ps, fuel)
        case None => Ok(a)
  }

  /** `moduleBody`: the position of the last exported object literal. */
  function LastObjectExport(body: seq<Node>): (r: Option<nat>)
    ensures r.Some? ==> r.value < |body| && ObjectExport(body[r.value]).Some?
    ensures r.Some? ==> forall j :: r.value < j < |body| ==> ObjectExport(body[j]).None?
    ensures r.None? ==> forall j :: 0 <= j < |body| ==> ObjectExport(body[j]).None?
  {
    if body == [] then None
    else if ObjectExport(body[|body| - 1]).Some? then Some(|body| - 1)
    else LastObjectExport(body[..|body| - 1])
  }

  /** `moduleBody.properties = ps` on the statement that exports it. */
  function SetProperties(st: Node, ps: seq<Node>): (r: Node)
    requires ObjectExport(st).Some?
    ensures ObjectExport(r) == Some(ps)
  {
    var e := st.kind.expression;
    var asg := e.kind;
    st.(kind := ExpressionStatement(e.(kind := Assignment(asg.left, asg.right.(kind := ObjectExpr(ps))))))
  }

  // ---------------------------------------------------------------------------
  // The new object

  /** A route the printer can print: `middlewareAndRouteFunction` relabels a single
      handler `FunctionExpression` in place (lines 612-617), and printing that node
      as a method reads its `params`, which only a function or an arrow has. */
  predicate RoutePrintable(fns: seq<Node>) {
    |fns| != 1 || fns[0].kind.FunctionExpr? || fns[0].kind.ArrowFunction?
  }

  predicate RoutesPrintable(routes: Routes) {
    forall i, j, k :: 0 <= i < |routes| && 0 <= j < |routes[i].1| && 0 <= k < |routes[i].1[j].1| ==>
      RoutePrintable(routes[i].1[j].1[k].1)
  }

  /** The properties the exported object gets: the inits filter, the handler moves,
      the split of the methods and the sections in their order. A route that cannot
      be printed fails here, after the two loops, as the printer runs after them. */
  function NewProperties(acc: Acc): Result<seq<Node>, UpgradeError> {
    match FilterInits(acc, acc.earlyInits + acc.lateInits)
    case Err(e) => Err(e)
    case Ok((kept, a1)) =>
      match MoveHandlers(a1, a1.queue)
      case Err(e) => Err(e)
      case Ok(a2) =>
        if !RoutesPrintable(a2.routes) then Err(RouteNotPrintable)
        else Ok(Properties(a2, kept, PlainMethods(a2.methods, a2.superCaptures), ExtendMethods(a2.methods, a2.superCaptures)))
  }

  /** What processModule does with one module: nothing, when it exports no object
      literal; otherwise the new program and the partial files to delete. */
  datatype Outcome = Skipped | Upgraded(program: seq<Node>, importedPaths: seq<string>)

  /** The pieces check (lines 212-217): a module that extends 'apostrophe-pieces'
      reads `options.name.value`, which throws when it has no `name` option. */
  predicate ExtendsPieces(acc: Acc) {
    var ext := Lookup(acc.specials, "extend");
    ext.Some? && ext.value.kind == Literal(LStr("apostrophe-pieces"))
  }

  predicate NameOptionMissing(acc: Acc) {
    var n := Lookup(acc.options, "name");
    n.None? || n.value.kind.Absent?
  }

  function ProcessModule(env: Env, body: seq<Node>, fuel: nat): Result<Outcome, UpgradeError> {
    match TopStatements(env, Initial, body, fuel)
    case Err(e) => Err(e)
    case Ok(acc) =>
      if ExtendsPieces(acc) && NameOptionMissing(acc) then Err(PiecesWithoutName)
      else
      match LastObjectExport(body)
      case None => Ok(Skipped)
      case Some(idx) =>
        match NewProperties(acc)
        case Err(e) => Err(e)
        case Ok(props) =>
          var program := acc.prologue + body[..idx] + [SetProperties(body[idx], props)] + body[idx + 1..];
          Ok(Upgraded(if GateOn(env, acc) then FirstRequires(program) else program, acc.importedPaths))
  }

  // ---------------------------------------------------------------------------
  // Duplicate requires

  /** The name a destructuring pattern contributes: `get(property, 'key.name')`,
      which `join` prints as "" when missing. */
  function PatternName(p: Node): string {
    if p.kind.Property? && NameOf(p.kind.key).Some? then NameOf(p.kind.key).value else ""
  }

  function PatternNames(ps: seq<Node>): (r: seq<string>)
    ensures |r| == |ps| && forall i :: 0 <= i < |ps| ==> r[i] == PatternName(ps[i])
  {
    if ps == [] then [] else [PatternName(ps[0])] + PatternNames(ps[1..])
  }

  /** `varName`: the destructured names joined with ":", or the variable's name
      ("null" for any other pattern). */
  function VarName(id: Node): string {
    if id.kind.ObjectPattern? then JoinWith(PatternNames(id.kind.properties), ":")
    else OptionKey(NameOf(id))
  }

  /** The key of a top-level `… = require(x)` declaration with exactly one argument;
      None for every statement the dedup keeps unconditionally. */
  function RequiredName(st: Node): Option<string> {
    if !st.kind.VarDecl? || st.kind.declarations == [] then None
    else
      var d := st.kind.declarations[0];
      if !d.kind.Declarator? || !d.kind.init.kind.Call? || NameOf(d.kind.init.kind.callee) != Some("require") then None
      else if |d.kind.init.kind.arguments| != 1 || d.kind.init.kind.arguments[0].kind.Absent? then None
      else Some(VarName(d.kind.id))
  }

  /** Whether statement `i` survives: it is no require declaration, or no earlier
      one has its name. */
  predicate FirstOfItsName(body: seq<Node>, i: nat)
    requires i < |body|
  {
    RequiredName(body[i]).None?
    || forall j :: 0 <= j < i ==> RequiredName(body[j]) != RequiredName(body[i])
  }

  /** `parsed.body.filter(…)` with the `required` table: the statements that survive. */
  function FirstRequires(body: seq<Node>): seq<Node> {
    if body == [] then []
    else FirstRequires(body[..|body| - 1]) + (if FirstOfItsName(body, |body| - 1) then [body[|body| - 1]] else [])
  }

  /** The names `required` holds after the filter has seen `body`. */
  function RequiredNames(body: seq<Node>): set<string> {
    set i | 0 <= i < |body| && RequiredName(body[i]).Some? :: RequiredName(body[i]).value
  }

  // ---------------------------------------------------------------------------
  // The sections come out in order

  lemma RouteValid(acc: Acc, t: string, init: Node)
    requires t in RouteTypes && ValidTables(acc) && Route(acc, t, init).Ok?
    ensures ValidTables(Route(acc, t, init).value.1)
  {
    var a := Route(acc, t, init).value.1;
    if a != acc {
      var verb := ValueOf(Arg(SelfCall(init).value.1, 0)).value;
      var name := CamelArg(Arg(SelfCall(init).value.1, 1)).value;
      var args := SelfCall(init).value.1;
      var fns := [args[2].(comments := init.comments)] + args[3..];
      var byMethod := GetOr(acc.routes, t, []);
      PutKeysWithin(acc.routes, t, Put(byMethod, LitKey(verb), Put(GetOr(byMethod, LitKey(verb), []), name, fns)), RouteTypes);
    }
  }

  /** The recognisers keep the specials and the route types within their names. */
  lemma ClassifyValid(acc: Acc, init: Node)
    requires ValidTables(acc) && Classify(acc, init).Ok?
    ensures ValidTables(Classify(acc, init).value.1)
  {
    var r := Classify(acc, init);
    if r == Route(acc, "apiRoute", init) { RouteValid(acc, "apiRoute", init); }
    else if r == Route(acc, "renderRoute", init) { RouteValid(acc, "renderRoute", init); }
    else if r == Route(acc, "htmlRoute", init) { RouteValid(acc, "htmlRoute", init); }
    else if r == Route(acc, "route", init) { RouteValid(acc, "route", init); }
    else if r == AddHelpers(acc, init) { AddHelpersFrame(acc, init); }
    else if r == OnEvent(acc, init) { OnEventFrame(acc, init); }
  }

  lemma {:induction false} FilterInitsValid(acc: Acc, inits: seq<Node>)
    requires ValidTables(acc) && FilterInits(acc, inits).Ok?
    ensures ValidTables(FilterInits(acc, inits).value.1)
  {
    if inits != [] {
      FilterInitsStep(acc, inits);
      FilterInitsValid(acc, inits[..|inits| - 1]);
      ClassifyValid(FilterInits(acc, inits[..|inits| - 1]).value.1, inits[|inits| - 1]);
    }
  }

  /** A route registered with a single handler that is not a function or an arrow
      (`self.apiRoute('get', 'list', self.list)`) makes the upgrade fail, whatever
      the moves do: the source relabels that node a `FunctionExpression` and the
      printer cannot print it. */
  lemma UnprintableRouteFails(acc: Acc, t: string, m: string, n: string)
    requires FilterInits(acc, acc.earlyInits + acc.lateInits).Ok?
    requires var a1 := FilterInits(acc, acc.earlyInits + acc.lateInits).value.1;
      MoveHandlers(a1, a1.queue).Ok?
      && RouteAt(a1.routes, t, m, n).Some? && !RoutePrintable(RouteAt(a1.routes, t, m, n).value)
    ensures NewProperties(acc) == Err(RouteNotPrintable)
  {
    var a1 := FilterInits(acc, acc.earlyInits + acc.lateInits).value.1;
    MoveHandlersEmpty(a1, a1.queue);
    var routes := a1.routes;
    var byMethod := Lookup(routes, t).value;
    var i :| 0 <= i < |routes| && routes[i] == (t, byMethod);
    var byName := Lookup(byMethod, m).value;
    var j :| 0 <= j < |byMethod| && byMethod[j] == (m, byName);
    var fns := Lookup(byName, n).value;
    var k :| 0 <= k < |byName| && byName[k] == (n, fns);
    assert !RoutePrintable(routes[i].1[j].1[k].1);
  }

  /** Whatever the filter and the moves do, the new object lists its sections in the
      fixed order. */
  lemma NewPropertiesInOrder(acc: Acc)
    requires ValidTables(acc) && NewProperties(acc).Ok?
    ensures RankSorted(NewProperties(acc).value)
  {
    var (kept, a1) := FilterInits(acc, acc.earlyInits + acc.lateInits).value;
    FilterInitsValid(acc, acc.earlyInits + acc.lateInits);
    MoveHandlersEmpty(a1, a1.queue);
    var a2 := MoveHandlers(a1, a1.queue).value;
    assert ValidTables(a2);
    PropertiesInOrder(a2, kept, PlainMethods(a2.methods, a2.superCaptures), ExtendMethods(a2.methods, a2.superCaptures));
  }

  /** One exported property keeps the tables within their names. */
  lemma TopPropertyValid(env: Env, acc: Acc, p: Node, fuel: nat)
    requires ValidTables(acc) && TopProperty(env, acc, p, fuel).Ok?
    ensures ValidTables(TopProperty(env, acc, p, fuel).value)
  {
    var name := KeyName(p);
    if name == Some("construct") {
      if BlockBody(p).Some? { ParseConstructGrows(env, acc, BlockBody(p).value, fuel); }
    } else if name == Some("beforeConstruct") || name == Some("afterConstruct") {
    } else if name.Some? && SpecialKey(name.value).Some? {
      PutKeysWithin(acc.specials, SpecialKey(name.value).value, PropValue(p), SpecialNames);
    } else if name == Some("addFields") {
      HandleFieldsAppends(acc, "add", PropValue(p));
    } else if name == Some("arrangeFields") {
      HandleFieldsAppends(acc, "group", PropValue(p));
    }
  }

  lemma {:induction false} TopPropertiesValid(env: Env, acc: Acc, ps: seq<Node>, fuel: nat)
    requires ValidTables(acc) && TopProperties(env, acc, ps, fuel).Ok?
    ensures ValidTables(TopProperties(env, acc, ps, fuel).value)
  {
    if ps != [] {
      TopPropertiesValid(env, acc, ps[..|ps| - 1], fuel);
      TopPropertyValid(env, TopProperties(env, acc, ps[..|ps| - 1], fuel).value, ps[|ps| - 1], fuel);
    }
  }

  lemma {:induction false} TopStatementsValid(env: Env, acc: Acc, body: seq<Node>, fuel: nat)
    requires ValidTables(acc) && TopStatements(env, acc, body, fuel).Ok?
    ensures ValidTables(TopStatements(env, acc, body, fuel).value)
  {
    if body != [] {
      TopStatementsValid(env, acc, body[..|body| - 1], fuel);
      var a := TopStatements(env, acc, body[..|body| - 1], fuel).value;
      if ObjectExport(body[|body| - 1]).Some? {
        TopPropertiesValid(env, a, ObjectExport(body[|body| - 1]).value, fuel);
      }
    }
  }

  /** The upgraded module object lists specials, options, beforeSuperClass, init, the
      route sections, handlers, fields, methods, extendMethods and helpers, in that
      order, whatever the legacy module held. */
  lemma ProcessModuleInOrder(env: Env, body: seq<Node>, fuel: nat)
    requires TopStatements(env, Initial, body, fuel).Ok?
    requires NewProperties(TopStatements(env, Initial, body, fuel).value).Ok?
    ensures RankSorted(NewProperties(TopStatements(env, Initial, body, fuel).value).value)
  {
    TopStatementsValid(env, Initial, body, fuel);
    NewPropertiesInOrder(TopStatements(env, Initial, body, fuel).value);
  }

  // ---------------------------------------------------------------------------
  // What the dedup keeps

  /** The filter keeps the surviving statements in their order. */
  lemma {:induction false} FirstRequiresOrder(body: seq<Node>)
    ensures IsSubseq(FirstRequires(body), body)
  {
    if body != [] {
      var init := body[..|body| - 1];
      FirstRequiresOrder(init);
      SubseqStep(FirstRequires(init), init, body[|body| - 1], FirstOfItsName(body, |body| - 1));
      assert init + [body[|body| - 1]] == body;
    } else {
      SubseqRefl(body);
    }
  }

  /** Statements that are not one-argument `require` declarations are all kept, in
      order. */
  lemma {:induction false} FirstRequiresKeepsOthers(body: seq<Node>)
    ensures Filter(FirstRequires(body), (st: Node) => RequiredName(st).None?)
         == Filter(body, (st: Node) => RequiredName(st).None?)
  {
    if body != [] {
      var init := body[..|body| - 1];
      var x := body[|body| - 1];
      var p := (st: Node) => RequiredName(st).None?;
      FirstRequiresKeepsOthers(init);
      FilterAppend(FirstRequires(init), if FirstOfItsName(body, |body| - 1) then [x] else [], p);
      if FirstOfItsName(body, |body| - 1) {
        assert Filter([x], p) == if p(x) then [x] else [];
      }
    }
  }

  /** No two kept statements declare the same required name. */
  lemma {:induction false} FirstRequiresUnique(body: seq<Node>)
    ensures var r := FirstRequires(body);
      forall i, j :: 0 <= i < j < |r| && RequiredName(r[i]).Some? ==> RequiredName(r[i]) != RequiredName(r[j])
  {
    if body != [] {
      var init := body[..|body| - 1];
      var x := body[|body| - 1];
      FirstRequiresUnique(init);
      FirstRequiresNames(init);
      var r0 := FirstRequires(init);
      var r := FirstRequires(body);
      if FirstOfItsName(body, |body| - 1) && RequiredName(x).Some? {
        forall i | 0 <= i < |r0| && RequiredName(r0[i]).Some? ensures RequiredName(r0[i]) != RequiredName(x) {
          assert RequiredName(r0[i]).value in RequiredNames(r0);
          var j :| 0 <= j < |init| && RequiredName(init[j]).Some? && RequiredName(init[j]).value == RequiredName(r0[i]).value;
          assert body[j] == init[j];
        }
        forall i, j | 0 <= i < j < |r| && RequiredName(r[i]).Some? ensures RequiredName(r[i]) != RequiredName(r[j]) {
          if j == |r| - 1 { assert r[i] == r0[i] && r[j] == x; } else { assert r[i] == r0[i] && r[j] == r0[j]; }
        }
      }
    }
  }

  /** Every required name of the module is still declared after the filter. */
  lemma {:induction false} FirstRequiresNames(body: seq<Node>)
    ensures RequiredNames(FirstRequires(body)) == RequiredNames(body)
  {
    if body != [] {
      var init := body[..|body| - 1];
      var x := body[|body| - 1];
      FirstRequiresNames(init);
      var r0 := FirstRequires(init);
      RequiredNamesSnoc(init, x);
      assert init + [x] == body;
      FirstBySet(body);
      if FirstOfItsName(body, |body| - 1) {
        assert FirstRequires(body) == r0 + [x];
        RequiredNamesSnoc(r0, x);
      } else {
        assert FirstRequires(body) == r0;
      }
    }
  }

  lemma RequiredNamesSnoc(body: seq<Node>, x: Node)
    ensures RequiredNames(body + [x])
         == RequiredNames(body) + (if RequiredName(x).Some? then {RequiredName(x).value} else {})
  {
    var b := body + [x];
    forall n | n in RequiredNames(b)
      ensures n in RequiredNames(body) + (if RequiredName(x).Some? then {RequiredName(x).value} else {})
    {
      var i :| 0 <= i < |b| && RequiredName(b[i]).Some? && RequiredName(b[i]).value == n;
      if i < |body| { assert b[i] == body[i]; }
    }
    forall n | n in RequiredNames(body) ensures n in RequiredNames(b) {
      var i :| 0 <= i < |body| && RequiredName(body[i]).Some? && RequiredName(body[i]).value == n;
      assert b[i] == body[i];
    }
    if RequiredName(x).Some? {
      assert b[|body|] == x;
    }
  }

  /** The filter as the source runs it: `required` is a set of the names seen so far. */
  method DedupRequires(body: seq<Node>) returns (kept: seq<Node>)
    ensures kept == FirstRequires(body)
  {
    var required: set<string> := {};
    kept := [];
    for i := 0 to |body|
      invariant required == RequiredNames(body[..i])
      invariant kept == FirstRequires(body[..i])
    {
      var prefix := body[..i + 1];
      assert prefix[..i] == body[..i];
      RequiredNamesSnoc(body[..i], body[i]);
      assert body[..i] + [body[i]] == prefix;
      var name := RequiredName(body[i]);
      FirstBySet(prefix);
      if name.Some? && name.value in required {
        // Duplicate stomped
      } else {
        kept := kept + [body[i]];
      }
      if name.Some? {
        required := required + {name.value};
      }
    }
    assert body[..|body|] == body;
  }

  /** The last statement is the first of its name exactly when no earlier one
      declared that name. */
  lemma FirstBySet(body: seq<Node>)
    requires body != []
    ensures var x := body[|body| - 1];
      FirstOfItsName(body, |body| - 1) <==>
        RequiredName(x).None? || RequiredName(x).value !in RequiredNames(body[..|body| - 1])
  {
    var init := body[..|body| - 1];
    var x := body[|body| - 1];
    if RequiredName(x).Some? && RequiredName(x).value in RequiredNames(init) {
      var j :| 0 <= j < |init| && RequiredName(init[j]).Some? && RequiredName(init[j]).value == RequiredName(x).value;
      assert body[j] == init[j];
    }
    if RequiredName(x).Some? && !FirstOfItsName(body, |body| - 1) {
      var j :| 0 <= j < |body| - 1 && RequiredName(body[j]) == RequiredName(x);
      assert init[j] == body[j];
    }
  }

  // ---------------------------------------------------------------------------
  // The partials switch

  /** No property of the exported objects is named `upgrade-required-files`. This
      holds for every parsed module: `key.name` exists only on identifier keys, and an
      identifier cannot contain `-`. */
  predicate ModuleWithoutSwitchKey(body: seq<Node>) {
    forall i, j :: 0 <= i < |body| && ObjectExport(body[i]).Some? && 0 <= j < |ObjectExport(body[i]).value| ==>
      KeyName(ObjectExport(body[i]).value[j]) != Some("upgrade-required-files")
  }

  /** The switch is off for the whole run: off on the command line, or read from the
      module's own options as written and never set there. */
  predicate SwitchOff(env: Env, body: seq<Node>) {
    env.gate == Flag(false) || (env.gate == ModuleOptions && ModuleWithoutSwitchKey(body))
  }

  predicate OptionsOff(env: Env, acc: Acc) {
    env.gate == Flag(false) || (env.gate == ModuleOptions && !HasKey(acc.options, "upgrade-required-files"))
  }

  /** With the switch off the prologue holds at most the helper `require`, and no
      partial is recorded. */
  predicate Hoisted(acc: Acc) {
    acc.importedPaths == [] && acc.prologue == (if acc.helpersNeeded then [HelperRequire] else [])
  }

  lemma TopPropertyOff(env: Env, acc: Acc, p: Node, fuel: nat)
    requires OptionsOff(env, acc) && Hoisted(acc) && KeyName(p) != Some("upgrade-required-files")
    requires TopProperty(env, acc, p, fuel).Ok?
    ensures OptionsOff(env, TopProperty(env, acc, p, fuel).value) && Hoisted(TopProperty(env, acc, p, fuel).value)
  {
    var name := KeyName(p);
    assert !GateOn(env, acc);
    if name == Some("construct") {
      if BlockBody(p).Some? { GateOffPartition(env, acc, BlockBody(p).value, fuel); }
    } else if name == Some("beforeConstruct") || name == Some("afterConstruct") {
    } else if name.Some? && SpecialKey(name.value).Some? {
    } else if name == Some("addFields") {
      HandleFieldsAppends(acc, "add", PropValue(p));
    } else if name == Some("arrangeFields") {
      HandleFieldsAppends(acc, "group", PropValue(p));
    } else if name != Some("removeFields") {
      LookupPutOther(acc.options, OptionKey(name), PropValue(p), "upgrade-required-files");
    }
  }

  lemma {:induction false} TopPropertiesOff(env: Env, acc: Acc, ps: seq<Node>, fuel: nat)
    requires OptionsOff(env, acc) && Hoisted(acc)
    requires env.gate == ModuleOptions ==> forall j :: 0 <= j < |ps| ==> KeyName(ps[j]) != Some("upgrade-required-files")
    requires TopProperties(env, acc, ps, fuel).Ok?
    ensures OptionsOff(env, TopProperties(env, acc, ps, fuel).value) && Hoisted(TopProperties(env, acc, ps, fuel).value)
  {
    if ps != [] {
      var init := ps[..|ps| - 1];
      assert forall j :: 0 <= j < |init| ==> init[j] == ps[j];
      TopPropertiesOff(env, acc, init, fuel);
      var a := TopProperties(env, acc, init, fuel).value;
      if env.gate == ModuleOptions {
        TopPropertyOff(env, a, ps[|ps| - 1], fuel);
      } else {
        assert !GateOn(env, a);
        TopPropertyOffFlag(env, a, ps[|ps| - 1], fuel);
      }
    }
  }

  lemma TopPropertyOffFlag(env: Env, acc: Acc, p: Node, fuel: nat)
    requires env.gate == Flag(false) && Hoisted(acc)
    requires TopProperty(env, acc, p, fuel).Ok?
    ensures Hoisted(TopProperty(env, acc, p, fuel).value)
  {
    if KeyName(p) == Some("upgrade-required-files") {
      // The module's own option is only stored; the switch is the command line's.
    } else {
      TopPropertyOff(env, acc, p, fuel);
    }
  }

  lemma {:induction false} TopStatementsOff(env: Env, acc: Acc, body: seq<Node>, fuel: nat)
    requires SwitchOff(env, body) && OptionsOff(env, acc) && Hoisted(acc)
    requires TopStatements(env, acc, body, fuel).Ok?
    ensures OptionsOff(env, TopStatements(env, acc, body, fuel).value) && Hoisted(TopStatements(env, acc, body, fuel).value)
  {
    if body != [] {
      var init := body[..|body| - 1];
      var x := body[|body| - 1];
      assert SwitchOff(env, init) by {
        if env.gate == ModuleOptions {
          forall i, j | 0 <= i < |init| && ObjectExport(init[i]).Some? && 0 <= j < |ObjectExport(init[i]).value|
            ensures KeyName(ObjectExport(init[i]).value[j]) != Some("upgrade-required-files")
          {
            assert init[i] == body[i];
          }
        }
      }
      TopStatementsOff(env, acc, init, fuel);
      if ObjectExport(x).Some? {
        TopPropertiesOff(env, TopStatements(env, acc, init, fuel).value, ObjectExport(x).value, fuel);
      }
    }
  }

  /** As written, the switch is read from the module's own options table, whose keys
      are identifier names: it is never on, so no partial is ever inlined and the
      require dedup never runs. */
  lemma ModuleOptionsSwitchNeverOn(env: Env, body: seq<Node>, fuel: nat)
    requires env.gate == ModuleOptions && ModuleWithoutSwitchKey(body)
    requires TopStatements(env, Initial, body, fuel).Ok?
    ensures var acc := TopStatements(env, Initial, body, fuel).value;
      !GateOn(env, acc) && acc.importedPaths == []
  {
    TopStatementsOff(env, Initial, body, fuel);
  }

  /** The quoted key a module would have to use for the switch lands under
      "null", so the switch stays off. */
  lemma QuotedSwitchIgnored(env: Env, fuel: nat)
    requires env.gate == ModuleOptions
    ensures var on := Mk(Literal(LBool(true)));
      var p := Mk(Property(Mk(Literal(LStr("upgrade-required-files"))), on, false, false, false));
      TopProperty(env, Initial, p, fuel) == Ok(Initial.(options := [("null", on)]))
      && !GateOn(env, TopProperty(env, Initial, p, fuel).value)
  {
  }

  /** With the switch off, the program is the module's own statements, with only the
      exported object replaced, after at most the helper `require`; no partial is
      deleted. */
  lemma SwitchOffShape(env: Env, body: seq<Node>, fuel: nat)
    requires SwitchOff(env, body)
    requires ProcessModule(env, body, fuel).Ok? && ProcessModule(env, body, fuel).value.Upgraded?
    ensures var out := ProcessModule(env, body, fuel).value;
      out.importedPaths == [] && SplicedAfterRequire(out.program, body, LastObjectExport(body).value)
  {
    TopStatementsOff(env, Initial, body, fuel);
    var acc := TopStatements(env, Initial, body, fuel).value;
    var idx := LastObjectExport(body).value;
    var st := SetProperties(body[idx], NewProperties(acc).value);
    ProgramWhenOff(env, body, fuel);
    var out := ProcessModule(env, body, fuel).value;
    SpliceAfterRequire(acc.prologue, body, idx, st, out.program);
  }

  /** `program` is `body` with statement `idx` replaced by an exported object literal,
      after at most the helper `require`. */
  predicate SplicedAfterRequire(program: seq<Node>, body: seq<Node>, idx: nat) {
    var off := |program| - |body|;
    0 <= off <= 1 && idx < |body| && (off == 1 ==> program[0] == HelperRequire)
    && (forall j :: 0 <= j < |body| && j != idx ==> program[off + j] == body[j])
    && ObjectExport(program[off + idx]).Some?
  }

  /** The splice when the prefix is at most the helper `require`. */
  lemma SpliceAfterRequire(pre: seq<Node>, body: seq<Node>, idx: nat, st: Node, program: seq<Node>)
    requires idx < |body| && program == pre + body[..idx] + [st] + body[idx + 1..]
    requires (pre == [] || pre == [HelperRequire]) && ObjectExport(st).Some?
    ensures SplicedAfterRequire(program, body, idx)
  {
    Splice(pre, body, idx, st);
  }


  lemma ProgramWhenOff(env: Env, body: seq<Node>, fuel: nat)
    requires ProcessModule(env, body, fuel).Ok? && ProcessModule(env, body, fuel).value.Upgraded?
    requires !GateOn(env, TopStatements(env, Initial, body, fuel).value)
    ensures var acc := TopStatements(env, Initial, body, fuel).value;
      var idx := LastObjectExport(body).value;
      var out := ProcessModule(env, body, fuel).value;
      out.importedPaths == acc.importedPaths
      && out.program == acc.prologue + body[..idx] + [SetProperties(body[idx], NewProperties(acc).value)] + body[idx + 1..]
  {
  }

  /** Replacing statement `idx` of `body`, after a prefix `pre`. */
  lemma Splice(pre: seq<Node>, body: seq<Node>, idx: nat, st: Node)
    requires idx < |body|
    ensures var program := pre + body[..idx] + [st] + body[idx + 1..];
      |program| == |pre| + |body| && program[..|pre|] == pre && program[|pre| + idx] == st
      && forall j :: 0 <= j < |body| && j != idx ==> program[|pre| + j] == body[j]
  {
    var program := pre + body[..idx] + [st] + body[idx + 1..];
    forall j | 0 <= j < |body| && j != idx ensures program[|pre| + j] == body[j] {
      if j < idx { assert program[|pre| + j] == body[..idx][j]; }
      else { assert program[|pre| + j] == body[idx + 1..][j - idx - 1]; }
    }
  }

  /** A module that exports no object literal is left alone. */
  lemma NoExportSkipped(env: Env, body: seq<Node>, fuel: nat)
    requires forall i :: 0 <= i < |body| ==> ObjectExport(body[i]).None?
    ensures ProcessModule(env, body, fuel) == Ok(Skipped)
  {
    NoExportNoChange(env, Initial, body, fuel);
  }

  lemma {:induction false} NoExportNoChange(env: Env, acc: Acc, body: seq<Node>, fuel: nat)
    requires forall i :: 0 <= i < |body| ==> ObjectExport(body[i]).None?
    ensures TopStatements(env, acc, body, fuel) == Ok(acc)
  {
    if body != [] {
      NoExportNoChange(env, acc, body[..|body| - 1], fuel);
    }
  }

  // ---------------------------------------------------------------------------
  // The options array

  /** `options` is an array (line 136): an option named `length` sets its length to
      a syntax node, which throws, however the properties before it went. */
  lemma LengthOptionThrows(env: Env, acc: Acc, ps: seq<Node>, i: nat, fuel: nat)
    requires i < |ps| && KeyName(ps[i]) == Some("length")
    requires TopProperties(env, acc, ps[..i], fuel).Ok?
    ensures TopProperties(env, acc, ps, fuel) == Err(OptionsLengthInvalid)
  {
    assert ps[..i + 1][..i] == ps[..i];
    TopPropertiesFailsFrom(env, acc, ps, i + 1, fuel);
  }

  /** A pieces subclass without a `name` option fails, whatever else it holds and
      whether or not it exports an object. */
  lemma PiecesWithoutNameThrows(env: Env, body: seq<Node>, fuel: nat)
    requires TopStatements(env, Initial, body, fuel).Ok?
    requires var acc := TopStatements(env, Initial, body, fuel).value;
      ExtendsPieces(acc) && NameOptionMissing(acc)
    ensures ProcessModule(env, body, fuel) == Err(PiecesWithoutName)
  {
  }

  /** `extend: 'apostrophe-pieces'` with no `name` option throws; with a `name`
      option the module passes the check with that name on record. */
  lemma PiecesNameCheckExample(env: Env, fuel: nat)
    ensures var lit := Mk(Literal(LStr("apostrophe-pieces")));
      var ext := Mk(Property(Ident("extend"), lit, false, false, false));
      var name := Mk(Property(Ident("name"), Mk(Literal(LStr("product"))), false, false, false));
      var acc2 := TopStatements(env, Initial, [ExportOf([ext, name])], fuel);
      ProcessModule(env, [ExportOf([ext])], fuel) == Err(PiecesWithoutName)
      && acc2.Ok? && ExtendsPieces(acc2.value) && !NameOptionMissing(acc2.value)
  {
    var lit := Mk(Literal(LStr("apostrophe-pieces")));
    var ext := Mk(Property(Ident("extend"), lit, false, false, false));
    var nameLit := Mk(Literal(LStr("product")));
    var name := Mk(Property(Ident("name"), nameLit, false, false, false));
    var a1 := Initial.(specials := [("extend", lit)]);
    SimpleProperty(env, Initial, "extend", lit, fuel);
    assert [ext][..0] == [] && [ext, name][..1] == [ext];
    assert TopProperties(env, Initial, [ext], fuel) == Ok(a1);
    SimpleProperty(env, a1, "name", nameLit, fuel);
    var a2 := a1.(options := [("name", nameLit)]);
    assert TopProperties(env, Initial, [ext, name], fuel) == Ok(a2);
    SingleExport(env, Initial, [ext], fuel);
    SingleExport(env, Initial, [ext, name], fuel);
  }

  /** `module.exports = { ps }`. */
  function ExportOf(ps: seq<Node>): Node {
    Mk(ExpressionStatement(Mk(Assignment(Mk(Member(Ident("module"), Ident("exports"), false)), Mk(ObjectExpr(ps))))))
  }

  lemma SingleExport(env: Env, acc: Acc, ps: seq<Node>, fuel: nat)
    ensures TopStatements(env, acc, [ExportOf(ps)], fuel) == TopProperties(env, acc, ps, fuel)
  {
    assert [ExportOf(ps)][..0] == [];
  }

  /** A plain property `name: v` with a literal value: a special, or an option. */
  lemma SimpleProperty(env: Env, acc: Acc, name: string, v: Node, fuel: nat)
    requires v.kind.Literal? && name in {"extend", "name"}
    ensures TopProperty(env, acc, Mk(Property(Ident(name), v, false, false, false)), fuel) ==
      if name == "extend" then Ok(acc.(specials := Put(acc.specials, name, v)))
      else Ok(acc.(options := Put(acc.options, name, v)))
  {
  }
}
