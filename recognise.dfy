/** The recognisers of lib/upgrader.js (lines 666-748) and the `inits` filter that
    tries them in a fixed order (lines 258-280). A recogniser that claims a
    statement records it in a table and the statement leaves `init`. */
module Recognise {
  import opened Wrappers
  import opened Text
  import opened AssocList
  import opened Ast
  import opened Seqs
  import opened Camel
  import opened UpgradeState

  const RouteTypes := ["apiRoute", "renderRoute", "htmlRoute", "route"]

  /** `self.<p>(args)` as a statement: the property name and the arguments. */
  function SelfCall(init: Node): Option<(string, seq<Node>)> {
    match init.kind
    case ExpressionStatement(e) =>
      (match e.kind
       case Call(callee, args) =>
         (match callee.kind
          case Member(o, p, _) =>
            if NameOf(o) == Some("self") && NameOf(p).Some? then Some((NameOf(p).value, args)) else None
          case _ => None)
       case _ => None)
    case _ => None
  }

  /** `args[i]`, absent when out of range or null. */
  function Arg(args: seq<Node>, i: nat): Option<Node> {
    if i < |args| && !args[i].kind.Absent? then Some(args[i]) else None
  }

  /** `get(arg, 'value')`. */
  function ValueOf(arg: Option<Node>): Option<Lit> {
    match arg
    case Some(n) => if n.kind.Literal? && n.kind.lit != LNull then Some(n.kind.lit) else None
    case None => None
  }

  /** `camelName(get(arg, 'value'))`: a string is converted; a number or boolean has
      no `length`, so the loop does not run; null makes `s.length` throw. */
  function CamelArg(arg: Option<Node>): Result<string, UpgradeError> {
    match ValueOf(arg)
    case Some(LStr(s)) => Ok(CamelRef(s))
    case Some(_) => Ok("")
    case None => Err(RouteNameMissing)
  }

  /** `routes[type][method][name] = fns`, creating the intermediate objects. */
  function PutRoute(routes: Routes, t: string, m: string, n: string, fns: seq<Node>): Routes {
    var byMethod := GetOr(routes, t, []);
    Put(routes, t, Put(byMethod, m, Put(GetOr(byMethod, m, []), n, fns)))
  }

  /** `routes[t][m][n]`. */
  function RouteAt(routes: Routes, t: string, m: string, n: string): Option<seq<Node>> {
    match Lookup(routes, t)
    case None => None
    case Some(byMethod) =>
      match Lookup(byMethod, m)
      case None => None
      case Some(byName) => Lookup(byName, n)
  }

  /** `route(type, init)`. */
  function Route(acc: Acc, t: string, init: Node): Claim {
    match SelfCall(init)
    case None => Ok((false, acc))
    case Some((p, args)) =>
      if p != t then Ok((false, acc))
      else
        var verb := ValueOf(Arg(args, 0));
        match CamelArg(Arg(args, 1))
        case Err(e) => Err(e)
        case Ok(name) =>
          if verb.None? || !Truthy(verb.value) || name == "" then Ok((false, acc))
          else if Arg(args, 2).None? then Err(RouteWithoutFunction)
          else
            var fns := [args[2].(comments := init.comments)] + args[3..];
            Ok((true, acc.(routes := PutRoute(acc.routes, t, LitKey(verb.value), name, fns))))
  }

  /** The first statement of a method's function body
      (`statement.expression.right.body.body.0`). */
  function FirstStatement(fn: Node): Option<Node> {
    match fn.kind
    case FunctionExpr(_, b) => if b.kind.Block? && |b.kind.stmts| > 0 then Some(b.kind.stmts[0]) else None
    case _ => None
  }

  /** `_.pick(…)`: its arguments. */
  function PickCall(n: Node): Option<seq<Node>> {
    match n.kind
    case Call(callee, args) =>
      (match callee.kind
       case Member(o, p, _) => if NameOf(o) == Some("_") && NameOf(p) == Some("pick") then Some(args) else None
       case _ => None)
    case _ => None
  }

  /** The `self.addHelpers(…)` branch of `addHelpers`. */
  function AddHelpersCall(acc: Acc, init: Node): Claim {
    match SelfCall(init)
    case Some(("addHelpers", args)) =>
      (match Arg(args, 0)
       case None => Err(HelpersWithoutArgument)
       case Some(a) =>
         if a.kind.ObjectExpr? then Ok((true, acc.(helpers := Some(a))))
         else match PickCall(a)
           case Some(pickArgs) =>
             Ok((true, acc.(helpers := Some(Mk(ArrayExpr(if pickArgs == [] then [] else pickArgs[1..]))))))
           case None => Ok((false, acc)))
    case _ => Ok((false, acc))
  }

  /** `addHelpers(init)`: a direct `self.addHelpers(…)`, or a `self.enableHelpers()`
      whose method starts with one, in which case the enableHelpers methods go. */
  function AddHelpers(acc: Acc, init: Node): Claim {
    match SelfCall(init)
    case Some(("enableHelpers", _)) =>
      (match FindMethod(acc.methods, LStr("enableHelpers"))
       case None => Ok((false, acc))
       case Some(i) =>
         match FirstStatement(acc.methods[i].fn)
         case None => Ok((false, acc))
         case Some(body) =>
           if SelfCall(body).Some? && SelfCall(body).value.0 == "enableHelpers" then Err(EnableHelpersLoop)
           else match AddHelpersCall(acc, body)
             case Err(e) => Err(e)
             case Ok((true, a)) => Ok((true, a.(methods := DropNamed(a.methods, LStr("enableHelpers")))))
             case Ok((false, _)) => Ok((false, acc)))
    case _ => AddHelpersCall(acc, init)
  }

  function PutHandler(hs: Handlers, e: string, n: string, fn: Node): Handlers {
    Put(hs, e, Put(GetOr(hs, e, []), n, fn))
  }

  /** `handlers[e][n]`. */
  function HandlerAt(hs: Handlers, e: string, n: string): Option<Node> {
    match Lookup(hs, e)
    case None => None
    case Some(byName) => Lookup(byName, n)
  }

  /** `onEvent(init)`. */
  function OnEvent(acc: Acc, init: Node): Claim {
    match SelfCall(init)
    case Some(("on", args)) =>
      if Arg(args, 0).None? then Err(EventArgumentMissing)
      else if !args[0].kind.Literal? then Ok((false, acc))
      else if Arg(args, 1).None? then Err(EventArgumentMissing)
      else if !args[1].kind.Literal? then Ok((false, acc))
      else
        var e := args[0].kind.lit;
        var n := args[1].kind.lit;
        if Arg(args, 2).None? then
          Ok((true, acc.(handlers := Put(acc.handlers, LitKey(e), GetOr(acc.handlers, LitKey(e), [])),
                         queue := acc.queue + [(e, n)])))
        else if !(args[2].kind.FunctionExpr? || args[2].kind.ArrowFunction?) then Ok((false, acc))
        else Ok((true, acc.(handlers := PutHandler(acc.handlers, LitKey(e), LitKey(n), Retype(args[2])))))
    case _ => Ok((false, acc))
  }

  /** `var superX = self.x;`: the variable and the property it captures. */
  function SuperDeclaration(init: Node): Option<(string, Option<string>)> {
    match init.kind
    case VarDecl(_, ds) =>
      if |ds| > 0 && ds[0].kind.Declarator? then
        var d := ds[0].kind;
        match NameOf(d.id)
        case Some(v) =>
          if v != "" && StartsWith(v, "super") then
            Some((v, if d.init.kind.Member? then NameOf(d.init.kind.property) else None))
          else None
        case None => None
      else None
    case _ => None
  }

  /** `superCapture(init)`; it cannot fail. */
  function SuperCapture(acc: Acc, init: Node): (bool, Acc) {
    match SuperDeclaration(init)
    case Some((v, p)) => (true, acc.(superCaptures := Put(acc.superCaptures, NameKey(p), v)))
    case None => (false, acc)
  }

  /** The chain of the filter: the first recogniser that claims the statement wins. */
  function Classify(acc: Acc, init: Node): Claim {
    var r0 := Route(acc, "apiRoute", init);
    if r0.Err? || r0.value.0 then r0
    else var r1 := Route(acc, "renderRoute", init);
    if r1.Err? || r1.value.0 then r1
    else var r2 := Route(acc, "htmlRoute", init);
    if r2.Err? || r2.value.0 then r2
    else var r3 := Route(acc, "route", init);
    if r3.Err? || r3.value.0 then r3
    else var r4 := AddHelpers(acc, init);
    if r4.Err? || r4.value.0 then r4
    else var r5 := OnEvent(acc, init);
    if r5.Err? || r5.value.0 then r5
    else Ok(SuperCapture(acc, init))
  }

  /** `inits.filter(…)`: the statements no recogniser claims, and the new state. */
  function FilterInits(acc: Acc, inits: seq<Node>): Result<(seq<Node>, Acc), UpgradeError> {
    if inits == [] then Ok(([], acc))
    else
      match FilterInits(acc, inits[..|inits| - 1])
      case Err(e) => Err(e)
      case Ok((kept, a)) =>
        match Classify(a, inits[|inits| - 1])
        case Err(e) => Err(e)
        case Ok((claimed, a')) => Ok((kept + (if claimed then [] else [inits[|inits| - 1]]), a'))
  }

  /** A recogniser that declines leaves every table as it was. */
  lemma ClassifyDeclines(acc: Acc, init: Node)
    requires Classify(acc, init).Ok? && !Classify(acc, init).value.0
    ensures Classify(acc, init).value.1 == acc
  {
  }

  /** `route` claims exactly the calls `self.<type>(m, n, fn, …)` with a truthy `m`,
      a name whose camel form is not empty, and at least one function. */
  lemma RouteClaims(acc: Acc, t: string, init: Node)
    requires Route(acc, t, init).Ok?
    ensures Route(acc, t, init).value.0 <==>
      (exists args :: SelfCall(init) == Some((t, args))
         && ValueOf(Arg(args, 0)).Some? && Truthy(ValueOf(Arg(args, 0)).value)
         && CamelArg(Arg(args, 1)) != Ok("") && Arg(args, 2).Some?)
  {
    if SelfCall(init).Some? && SelfCall(init).value.0 == t {
      var args := SelfCall(init).value.1;
      assert SelfCall(init) == Some((t, args));
    }
  }

  /** What a claimed route stores: under its type, its method's `String` and its
      camel-cased name, the functions, the first carrying the statement's comments;
      nothing but `routes` changes. */
  /** The value `self.addHelpers(a)` gives `helpers`: an object literal as it is,
      the arguments of `_.pick(x, …)` after the first as an array literal; any
      other argument is declined and a missing one throws. */
  lemma AddHelpersValue(acc: Acc, init: Node, args: seq<Node>)
    requires SelfCall(init) == Some(("addHelpers", args))
    ensures Arg(args, 0).None? ==> AddHelpers(acc, init) == Err(HelpersWithoutArgument)
    ensures Arg(args, 0).Some? && args[0].kind.ObjectExpr? ==>
      AddHelpers(acc, init) == Ok((true, acc.(helpers := Some(args[0]))))
    ensures Arg(args, 0).Some? && !args[0].kind.ObjectExpr? && PickCall(args[0]).Some? ==>
      var picked := PickCall(args[0]).value;
      var r := AddHelpers(acc, init);
      r.Ok? && r.value.0 && r.value.1 == acc.(helpers := r.value.1.helpers)
      && r.value.1.helpers.Some? && r.value.1.helpers.value.kind.ArrayExpr?
      && var elems := r.value.1.helpers.value.kind.elements;
         |elems| == (if picked == [] then 0 else |picked| - 1)
         && forall i :: 0 <= i < |elems| ==> elems[i] == picked[i + 1]
    ensures Arg(args, 0).Some? && !args[0].kind.ObjectExpr? && PickCall(args[0]).None? ==>
      AddHelpers(acc, init) == Ok((false, acc))
  {
  }

  /** `self.apiRoute('get', 'list', self.list)`: the route is claimed with the
      member expression as its only handler. */
  lemma MemberHandlerRoute(acc: Acc)
    ensures var handler := Mk(Member(Ident("self"), Ident("list"), false));
      var call := Mk(Call(Mk(Member(Ident("self"), Ident("apiRoute"), false)),
                          [Mk(Literal(LStr("get"))), Mk(Literal(LStr("list"))), handler]));
      var r := Route(acc, "apiRoute", Mk(ExpressionStatement(call)));
      r.Ok? && r.value.0 && RouteAt(r.value.1.routes, "apiRoute", "get", "list") == Some([handler])
  {
    var handler := Mk(Member(Ident("self"), Ident("list"), false));
    var args := [Mk(Literal(LStr("get"))), Mk(Literal(LStr("list"))), handler];
    var call := Mk(Call(Mk(Member(Ident("self"), Ident("apiRoute"), false)), args));
    CamelFixesCamelCase("list");
    RouteRegisters(acc, "apiRoute", Mk(ExpressionStatement(call)), args, LStr("get"), "list");
    assert LitKey(LStr("get")) == "get";
    assert [args[2].(comments := [])] + args[3..] == [handler];
  }

  lemma RouteRegisters(acc: Acc, t: string, init: Node, args: seq<Node>, verb: Lit, name: string)
    requires SelfCall(init) == Some((t, args))
    requires ValueOf(Arg(args, 0)) == Some(verb) && Truthy(verb)
    requires Arg(args, 1).Some? && Arg(args, 1).value.kind == Literal(LStr(name)) && CamelRef(name) != ""
    requires Arg(args, 2).Some?
    ensures Route(acc, t, init).Ok? && Route(acc, t, init).value.0
    ensures var a := Route(acc, t, init).value.1;
      a == acc.(routes := a.routes)
      && RouteAt(a.routes, t, LitKey(verb), CamelRef(name)) == Some([args[2].(comments := init.comments)] + args[3..])
  {
    var fns := [args[2].(comments := init.comments)] + args[3..];
    RouteAtPut(acc.routes, t, LitKey(verb), CamelRef(name), fns);
  }

  lemma RouteAtPut(routes: Routes, t: string, m: string, n: string, fns: seq<Node>)
    ensures RouteAt(PutRoute(routes, t, m, n, fns), t, m, n) == Some(fns)
  {
    var byMethod := GetOr(routes, t, []);
    var byName := Put(GetOr(byMethod, m, []), n, fns);
    LookupPutSame(routes, t, Put(byMethod, m, byName));
    LookupPutSame(byMethod, m, byName);
    LookupPutSame(GetOr(byMethod, m, []), n, fns);
  }

  /** Registering one route leaves every other route as it was; the same key again
      overwrites. */
  lemma RouteAtPutOther(routes: Routes, t: string, m: string, n: string, fns: seq<Node>,
                        t': string, m': string, n': string)
    requires (t', m', n') != (t, m, n)
    ensures RouteAt(PutRoute(routes, t, m, n, fns), t', m', n') == RouteAt(routes, t', m', n')
  {
    var byMethod := GetOr(routes, t, []);
    var byName := Put(GetOr(byMethod, m, []), n, fns);
    if t' != t {
      LookupPutOther(routes, t, Put(byMethod, m, byName), t');
    } else {
      LookupPutSame(routes, t, Put(byMethod, m, byName));
      if m' != m {
        LookupPutOther(byMethod, m, byName, m');
      } else {
        LookupPutSame(byMethod, m, byName);
        LookupPutOther(GetOr(byMethod, m, []), n, fns, n');
      }
    }
  }

  /** A route call whose name is missing, null or not a literal makes `camelName`
      throw; a number or boolean name is declined. */
  lemma RouteNameNotString(acc: Acc, t: string, init: Node, args: seq<Node>)
    requires SelfCall(init) == Some((t, args))
    ensures ValueOf(Arg(args, 1)).None? ==> Route(acc, t, init) == Err(RouteNameMissing)
    ensures ValueOf(Arg(args, 1)).Some? && !ValueOf(Arg(args, 1)).value.LStr? ==> Route(acc, t, init) == Ok((false, acc))
  {
  }

  /** `self.on(e, n)` without a function: the event gets a (possibly empty) handler
      table and the pair is queued for the later move of method `n`. */
  lemma OnEventQueues(acc: Acc, init: Node, e: Lit, n: Lit)
    requires SelfCall(init).Some? && SelfCall(init).value.0 == "on"
    requires var args := SelfCall(init).value.1;
      |args| == 2 && args[0].kind == Literal(e) && args[1].kind == Literal(n)
    ensures OnEvent(acc, init).Ok? && OnEvent(acc, init).value.0
    ensures var a := OnEvent(acc, init).value.1;
      a == acc.(handlers := a.handlers, queue := acc.queue + [(e, n)])
      && HasKey(a.handlers, LitKey(e)) && Keys(a.handlers) == (if HasKey(acc.handlers, LitKey(e)) then Keys(acc.handlers) else Keys(acc.handlers) + [LitKey(e)])
  {
    var hs := Put(acc.handlers, LitKey(e), GetOr(acc.handlers, LitKey(e), []));
    LookupPutSame(acc.handlers, LitKey(e), GetOr(acc.handlers, LitKey(e), []));
    KeysPut(acc.handlers, LitKey(e), GetOr(acc.handlers, LitKey(e), []));
  }

  /** `self.on(e, n, fn)` with a function or arrow: stored at `handlers[e][n]` as a
      `function`; any other third argument is declined. */
  lemma OnEventStores(acc: Acc, init: Node, e: Lit, n: Lit)
    requires SelfCall(init).Some? && SelfCall(init).value.0 == "on"
    requires var args := SelfCall(init).value.1;
      |args| >= 3 && args[0].kind == Literal(e) && args[1].kind == Literal(n) && !args[2].kind.Absent?
    ensures var args := SelfCall(init).value.1;
      OnEvent(acc, init).Ok?
      && (OnEvent(acc, init).value.0 <==> args[2].kind.FunctionExpr? || args[2].kind.ArrowFunction?)
      && (OnEvent(acc, init).value.0 ==>
            var a := OnEvent(acc, init).value.1;
            a == acc.(handlers := a.handlers)
            && HandlerAt(a.handlers, LitKey(e), LitKey(n)) == Some(Retype(args[2]))
            && HandlerAt(a.handlers, LitKey(e), LitKey(n)).value.kind.FunctionExpr?)
      && (!OnEvent(acc, init).value.0 ==> OnEvent(acc, init).value.1 == acc)
  {
    var args := SelfCall(init).value.1;
    if args[2].kind.FunctionExpr? || args[2].kind.ArrowFunction? {
      var inner := Put(GetOr(acc.handlers, LitKey(e), []), LitKey(n), Retype(args[2]));
      LookupPutSame(acc.handlers, LitKey(e), inner);
      LookupPutSame(GetOr(acc.handlers, LitKey(e), []), LitKey(n), Retype(args[2]));
    }
  }

  /** Every captured variable starts with `super`. */
  predicate CapturesSuper(caps: AList<string>) {
    forall i :: 0 <= i < |caps| ==> StartsWith(caps[i].1, "super")
  }

  lemma PutCapturesSuper(caps: AList<string>, k: string, v: string)
    requires CapturesSuper(caps) && StartsWith(v, "super")
    ensures CapturesSuper(Put(caps, k, v))
    decreases |caps|
  {
    if caps != [] && caps[0].0 != k {
      PutCapturesSuper(caps[1..], k, v);
    }
  }

  /** `superCapture` claims `var superX = self.x` and records `x -> superX`; the
      capture map only ever holds `super…` names. */
  lemma SuperCaptureRecords(acc: Acc, init: Node)
    requires CapturesSuper(acc.superCaptures)
    ensures var (claimed, a) := SuperCapture(acc, init);
      claimed == SuperDeclaration(init).Some?
      && a == acc.(superCaptures := a.superCaptures)
      && CapturesSuper(a.superCaptures)
      && (claimed ==> Lookup(a.superCaptures, NameKey(SuperDeclaration(init).value.1))
                        == Some(SuperDeclaration(init).value.0))
  {
    match SuperDeclaration(init)
    case Some((v, p)) =>
      PutCapturesSuper(acc.superCaptures, NameKey(p), v);
      LookupPutSame(acc.superCaptures, NameKey(p), v);
    case None =>
  }

  /** What the filter can change: the tables the recognisers fill. */
  ghost predicate RecogniserFrame(acc: Acc, a: Acc) {
    a == acc.(routes := a.routes, handlers := a.handlers, queue := a.queue,
              superCaptures := a.superCaptures, helpers := a.helpers, methods := a.methods)
    && acc.queue <= a.queue
  }

  lemma RouteFrame(acc: Acc, t: string, init: Node)
    requires Route(acc, t, init).Ok?
    ensures var a := Route(acc, t, init).value.1; a == acc.(routes := a.routes)
  {
  }

  lemma AddHelpersCallFrame(acc: Acc, init: Node)
    requires AddHelpersCall(acc, init).Ok?
    ensures var a := AddHelpersCall(acc, init).value.1; a == acc.(helpers := a.helpers)
  {
  }

  lemma AddHelpersFrame(acc: Acc, init: Node)
    requires AddHelpers(acc, init).Ok?
    ensures var a := AddHelpers(acc, init).value.1; a == acc.(helpers := a.helpers, methods := a.methods)
  {
    match SelfCall(init)
    case Some(("enableHelpers", _)) =>
      var i := FindMethod(acc.methods, LStr("enableHelpers"));
      if i.Some? && FirstStatement(acc.methods[i.value].fn).Some? {
        var body := FirstStatement(acc.methods[i.value].fn).value;
        if !(SelfCall(body).Some? && SelfCall(body).value.0 == "enableHelpers") {
          AddHelpersCallFrame(acc, body);
        }
      }
    case _ => AddHelpersCallFrame(acc, init);
  }

  lemma OnEventFrame(acc: Acc, init: Node)
    requires OnEvent(acc, init).Ok?
    ensures var a := OnEvent(acc, init).value.1;
      a == acc.(handlers := a.handlers, queue := a.queue) && acc.queue <= a.queue
  {
  }

  lemma ClassifyFrame(acc: Acc, init: Node)
    requires Classify(acc, init).Ok? && CapturesSuper(acc.superCaptures)
    ensures RecogniserFrame(acc, Classify(acc, init).value.1)
    ensures CapturesSuper(Classify(acc, init).value.1.superCaptures)
  {
    var r := Classify(acc, init);
    if r == Route(acc, "apiRoute", init) { RouteFrame(acc, "apiRoute", init); }
    else if r == Route(acc, "renderRoute", init) { RouteFrame(acc, "renderRoute", init); }
    else if r == Route(acc, "htmlRoute", init) { RouteFrame(acc, "htmlRoute", init); }
    else if r == Route(acc, "route", init) { RouteFrame(acc, "route", init); }
    else if r == AddHelpers(acc, init) { AddHelpersFrame(acc, init); }
    else if r == OnEvent(acc, init) { OnEventFrame(acc, init); }
    else { SuperCaptureRecords(acc, init); }
  }

  /** One more statement: the filter of the prefix, then that statement. */
  lemma FilterInitsStep(acc: Acc, inits: seq<Node>)
    requires inits != [] && FilterInits(acc, inits).Ok?
    ensures var init := inits[..|inits| - 1];
      FilterInits(acc, init).Ok?
      && var (kept, a) := FilterInits(acc, init).value;
      Classify(a, inits[|inits| - 1]).Ok?
      && var (claimed, a') := Classify(a, inits[|inits| - 1]).value;
      FilterInits(acc, inits).value == (kept + (if claimed then [] else [inits[|inits| - 1]]), a')
  {
  }

  /** The surviving inits keep their relative order. */
  lemma {:induction false} FilterInitsKeepsOrder(acc: Acc, inits: seq<Node>)
    requires FilterInits(acc, inits).Ok?
    ensures IsSubseq(FilterInits(acc, inits).value.0, inits)
  {
    if inits != [] {
      var init := inits[..|inits| - 1];
      var x := inits[|inits| - 1];
      FilterInitsStep(acc, inits);
      FilterInitsKeepsOrder(acc, init);
      var kept := FilterInits(acc, init).value.0;
      var claimed := Classify(FilterInits(acc, init).value.1, x).value.0;
      SubseqStepLast(kept, inits, FilterInits(acc, inits).value.0, !claimed);
    }
  }

  /** The recognisers only fill their own tables. */
  lemma {:induction false} FilterInitsFrame(acc: Acc, inits: seq<Node>)
    requires FilterInits(acc, inits).Ok? && CapturesSuper(acc.superCaptures)
    ensures RecogniserFrame(acc, FilterInits(acc, inits).value.1)
    ensures CapturesSuper(FilterInits(acc, inits).value.1.superCaptures)
  {
    if inits != [] {
      var init := inits[..|inits| - 1];
      FilterInitsStep(acc, inits);
      FilterInitsFrame(acc, init);
      ClassifyFrame(FilterInits(acc, init).value.1, inits[|inits| - 1]);
    }
  }

  /** A statement that is neither a `self.…(…)` call nor a `super…` declaration is
      claimed by no recogniser. */
  predicate Passive(n: Node) {
    SelfCall(n).None? && SuperDeclaration(n).None?
  }

  lemma PassiveDeclined(acc: Acc, n: Node)
    requires Passive(n)
    ensures Classify(acc, n) == Ok((false, acc))
  {
  }

  /** Statements no recogniser can claim all stay in `init`, and nothing is recorded. */
  lemma {:induction false} PassiveInitsSurvive(acc: Acc, inits: seq<Node>)
    requires forall i :: 0 <= i < |inits| ==> Passive(inits[i])
    ensures FilterInits(acc, inits) == Ok((inits, acc))
  {
    if inits != [] {
      PassiveInitsSurvive(acc, inits[..|inits| - 1]);
      PassiveDeclined(acc, inits[|inits| - 1]);
      assert inits[..|inits| - 1] + [inits[|inits| - 1]] == inits;
    }
  }

  /** A claimed `self.enableHelpers()` removes every method named enableHelpers. */
  lemma EnableHelpersRemoves(acc: Acc, init: Node)
    requires SelfCall(init).Some? && SelfCall(init).value.0 == "enableHelpers"
    requires AddHelpers(acc, init).Ok? && AddHelpers(acc, init).value.0
    ensures var a := AddHelpers(acc, init).value.1;
      a.helpers.Some? && FindMethod(a.methods, LStr("enableHelpers")).None?
      && IsSubseq(a.methods, acc.methods)
  {
    var a := AddHelpers(acc, init).value.1;
    FilterIsSubseq(acc.methods, (m: Method) => !NameIs(m.name, LStr("enableHelpers")));
  }
}
