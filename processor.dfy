/** The accumulators of `processModule` (lib/upgrader.js lines 130-155) as the fields
    of one object, updated in place by the recognisers, the construct parser, the
    inits filter and the handler moves. Every method is proved to leave the object
    in the state the pure definitions of the other modules compute. */
module Processor {
  import opened Wrappers
  import opened AssocList
  import opened Ast
  import opened Seqs
  import opened Camel
  import opened UpgradeState
  import Construct
  import Fields
  import Recognise
  import Moves
  import Output
  import Upgrade

  /** A step that changes the accumulators agrees with its definition: the same
      error, or no error and the state it computes. */
  predicate Agrees(spec: Result<Acc, UpgradeError>, err: Option<UpgradeError>, s: Acc) {
    match spec
    case Ok(a) => err.None? && s == a
    case Err(e) => err == Some(e)
  }

  /** The same for a recogniser, which also says whether it claimed the statement. */
  predicate ClaimAgrees(spec: Claim, claimed: bool, err: Option<UpgradeError>, s: Acc) {
    match spec
    case Ok((b, a)) => err.None? && claimed == b && s == a
    case Err(e) => err == Some(e)
  }

  class ModuleProcessor {
    var prologue: seq<Node>
    var methods: seq<Method>
    var earlyInits: seq<Node>
    var lateInits: seq<Node>
    var adjusts: seq<Node>
    var helpersNeeded: bool
    var options: AList<Node>
    var fields: Option<seq<Node>>
    var routes: Routes
    var superCaptures: AList<string>
    var queue: seq<(Lit, Lit)>
    var specials: AList<Node>
    var importedPaths: seq<string>
    var handlers: Handlers
    var helpers: Option<Node>

    /** The accumulators as a value. */
    function State(): Acc
      reads this
    {
      Acc(prologue, methods, earlyInits, lateInits, adjusts, helpersNeeded, options, fields, routes,
          superCaptures, queue, specials, importedPaths, handlers, helpers)
    }

    constructor ()
      ensures State() == Initial
    {
      prologue, methods, earlyInits, lateInits, adjusts := [], [], [], [], [];
      helpersNeeded, options, fields, routes, superCaptures := false, [], None, [], [];
      queue, specials, importedPaths, handlers, helpers := [], [], [], [], None;
    }

    // -------------------------------------------------------------------------
    // The recognisers

    /** `route(type, init)`: writes `routes` only. */
    method Route(t: string, init: Node) returns (claimed: bool, err: Option<UpgradeError>)
      modifies this
      ensures ClaimAgrees(Recognise.Route(old(State()), t, init), claimed, err, State())
    {
      claimed, err := false, None;
      var call := Recognise.SelfCall(init);
      if call.None? || call.value.0 != t {
        return;
      }
      var args := call.value.1;
      var verb := Recognise.ValueOf(Recognise.Arg(args, 0));
      var name := "";
      match Recognise.ValueOf(Recognise.Arg(args, 1)) {
        case None =>
          err := Some(RouteNameMissing);
          return;
        case Some(LStr(s)) =>
          name := CamelName(s);
        case Some(_) =>
      }
      if verb.None? || !Truthy(verb.value) || name == "" {
        return;
      }
      if Recognise.Arg(args, 2).None? {
        err := Some(RouteWithoutFunction);
        return;
      }
      var fns := [args[2].(comments := init.comments)] + args[3..];
      routes := Recognise.PutRoute(routes, t, LitKey(verb.value), name, fns);
      claimed := true;
    }

    /** `addHelpers(init)`: writes `helpers`, and `methods` for `enableHelpers`. */
    method AddHelpers(init: Node) returns (claimed: bool, err: Option<UpgradeError>)
      modifies this
      ensures ClaimAgrees(Recognise.AddHelpers(old(State()), init), claimed, err, State())
    {
      claimed, err := false, None;
      var call := Recognise.SelfCall(init);
      var stmt := init;
      var viaEnable := false;
      if call.Some? && call.value.0 == "enableHelpers" {
        var i := FindMethod(methods, LStr("enableHelpers"));
        if i.None? {
          return;
        }
        var first := Recognise.FirstStatement(methods[i.value].fn);
        if first.None? {
          return;
        }
        stmt := first.value;
        var inner := Recognise.SelfCall(stmt);
        if inner.Some? && inner.value.0 == "enableHelpers" {
          err := Some(EnableHelpersLoop);
          return;
        }
        viaEnable := true;
      }
      var c := Recognise.SelfCall(stmt);
      if c.None? || c.value.0 != "addHelpers" {
        return;
      }
      var a := Recognise.Arg(c.value.1, 0);
      if a.None? {
        err := Some(HelpersWithoutArgument);
        return;
      }
      if a.value.kind.ObjectExpr? {
        helpers := a;
      } else {
        var pick := Recognise.PickCall(a.value);
        if pick.None? {
          return;
        }
        helpers := Some(Mk(ArrayExpr(if pick.value == [] then [] else pick.value[1..])));
      }
      if viaEnable {
        methods := DropNamed(methods, LStr("enableHelpers"));
      }
      claimed := true;
    }

    /** `onEvent(init)`: writes `handlers` and `queue`. */
    method OnEvent(init: Node) returns (claimed: bool, err: Option<UpgradeError>)
      modifies this
      ensures ClaimAgrees(Recognise.OnEvent(old(State()), init), claimed, err, State())
    {
      claimed, err := false, None;
      var call := Recognise.SelfCall(init);
      if call.None? || call.value.0 != "on" {
        return;
      }
      var args := call.value.1;
      if Recognise.Arg(args, 0).None? {
        err := Some(EventArgumentMissing);
        return;
      }
      if !args[0].kind.Literal? {
        return;
      }
      if Recognise.Arg(args, 1).None? {
        err := Some(EventArgumentMissing);
        return;
      }
      if !args[1].kind.Literal? {
        return;
      }
      var e := args[0].kind.lit;
      var n := args[1].kind.lit;
      if Recognise.Arg(args, 2).None? {
        handlers := Put(handlers, LitKey(e), GetOr(handlers, LitKey(e), []));
        queue := queue + [(e, n)];
      } else if args[2].kind.FunctionExpr? || args[2].kind.ArrowFunction? {
        handlers := Recognise.PutHandler(handlers, LitKey(e), LitKey(n), Retype(args[2]));
      } else {
        return;
      }
      claimed := true;
    }

    /** `superCapture(init)`: writes `superCaptures`. */
    method SuperCapture(init: Node) returns (claimed: bool)
      modifies this
      ensures (claimed, State()) == Recognise.SuperCapture(old(State()), init)
    {
      match Recognise.SuperDeclaration(init) {
        case Some((v, p)) =>
          superCaptures := Put(superCaptures, NameKey(p), v);
          claimed := true;
        case None =>
          claimed := false;
      }
    }

    /** The body of the inits filter: the recognisers in their order of priority. */
    method Classify(init: Node) returns (claimed: bool, err: Option<UpgradeError>)
      modifies this
      ensures ClaimAgrees(Recognise.Classify(old(State()), init), claimed, err, State())
    {
      ghost var s0 := State();
      claimed, err := Route("apiRoute", init);
      if err.Some? || claimed {
        return;
      }
      RouteDeclines(s0, "apiRoute", init);
      claimed, err := Route("renderRoute", init);
      if err.Some? || claimed {
        return;
      }
      RouteDeclines(s0, "renderRoute", init);
      claimed, err := Route("htmlRoute", init);
      if err.Some? || claimed {
        return;
      }
      RouteDeclines(s0, "htmlRoute", init);
      claimed, err := Route("route", init);
      if err.Some? || claimed {
        return;
      }
      RouteDeclines(s0, "route", init);
      claimed, err := AddHelpers(init);
      if err.Some? || claimed {
        return;
      }
      AddHelpersDeclines(s0, init);
      claimed, err := OnEvent(init);
      if err.Some? || claimed {
        return;
      }
      OnEventDeclines(s0, init);
      claimed := SuperCapture(init);
    }

    /** `inits = inits.filter(…)`: the statements no recogniser claims. */
    method FilterInits(inits: seq<Node>) returns (kept: seq<Node>, err: Option<UpgradeError>)
      modifies this
      ensures match Recognise.FilterInits(old(State()), inits)
        case Ok((k, a)) => err.None? && kept == k && State() == a
        case Err(e) => err == Some(e)
    {
      ghost var s0 := State();
      kept, err := [], None;
      for i := 0 to |inits|
        invariant err.None? && Recognise.FilterInits(s0, inits[..i]) == Ok((kept, State()))
      {
        ghost var before := State();
        var claimed;
        claimed, err := Classify(inits[i]);
        if err.Some? {
          FilterInitsStepFails(s0, inits, i, kept, before, err.value);
          return;
        }
        FilterInitsStep(s0, inits, i, kept, before, claimed, State());
        if !claimed {
          kept := kept + [inits[i]];
        } else {
          assert kept + [] == kept;
        }
      }
      assert inits[..|inits|] == inits;
    }

    /** `for (const item of moveMethodsToHandlers)`: writes `handlers` and `methods`. */
    method MoveHandlers() returns (err: Option<UpgradeError>)
      modifies this
      ensures Agrees(Moves.MoveHandlers(old(State()), old(queue)), err, State())
    {
      ghost var s0 := State();
      var q := queue;
      err := None;
      for i := 0 to |q|
        invariant Moves.MoveHandlers(s0, q[..i]) == Ok(State())
      {
        var (e, n) := q[i];
        ghost var a := State();
        MoveHandlersStep(s0, q, i, a);
        var found := FindMethod(methods, n);
        if found.None? {
          err := Some(HandlerMethodMissing(n));
          MoveHandlersFailsFrom(s0, q, i + 1);
          return;
        }
        handlers := Recognise.PutHandler(handlers, LitKey(e), LitKey(n), methods[found.value].fn);
        methods := DropNamed(methods, n);
        assert State() == a.(handlers := handlers, methods := methods);
      }
      assert q[..|q|] == q;
    }

    // -------------------------------------------------------------------------
    // The fields options

    /** `invokeHelper('arrayOptionToObject', arg)`: writes `helpersNeeded` and
        `prologue` the first time. */
    method InvokeHelper(arg: Node) returns (call: Node)
      modifies this
      ensures (call, State()) == Fields.InvokeHelper(old(State()), arg)
    {
      call := Fields.HelperCall(arg);
      if !helpersNeeded {
        helpersNeeded := true;
        prologue := prologue + [Fields.HelperRequire];
      }
    }

    /** `ensureFields()`. */
    method EnsureFields()
      modifies this
      ensures State() == Fields.EnsureFields(old(State()))
    {
      if fields.None? {
        fields := Some([]);
      }
    }

    /** `fields.value.properties.push(p)`. */
    method PushField(p: Node)
      requires fields.Some?
      modifies this
      ensures State() == Fields.PushField(old(State()), p)
    {
      fields := Some(fields.value + [p]);
    }

    /** One element of a fields array. */
    method ConvertElement(el: Node) returns (p: Option<Node>, err: Option<UpgradeError>)
      modifies this
      ensures match Fields.ConvertElement(old(State()), el)
        case Ok((o, a)) => err.None? && p == o && State() == a
        case Err(e) => err == Some(e)
    {
      p, err := None, None;
      match el.kind {
        case Absent =>
          err := Some(FieldElementMissing);
        case ObjectExpr(props) =>
          match Fields.NameIndex(props) {
            case None =>
              err := Some(FieldNameMissing);
            case Some(i) =>
              match Fields.FieldKey(props[i].kind.value) {
                case Err(e) =>
                  err := Some(e);
                case Ok(key) =>
                  p := Some(Fields.FieldProperty(props, i, key));
              }
          }
        case Spread(arg) =>
          var call := InvokeHelper(arg);
          p := Some(Mk(Spread(call)));
        case _ =>
      }
    }

    /** The loop over a fields array; None when an element is unsupported. */
    method ConvertElements(elems: seq<Node>) returns (ps: Option<seq<Node>>, err: Option<UpgradeError>)
      modifies this
      ensures match Fields.ConvertElements(old(State()), elems)
        case Ok((o, a)) => err.None? && ps == o && State() == a
        case Err(e) => err == Some(e)
    {
      ghost var s0 := State();
      var out := [];
      ps, err := None, None;
      for i := 0 to |elems|
        invariant err.None? && Fields.ConvertElements(s0, elems[..i]) == Ok((Some(out), State()))
      {
        ghost var before := State();
        var p;
        p, err := ConvertElement(elems[i]);
        ConvertElementsStep(s0, elems, i, out, before);
        if err.Some? || p.None? {
          ConvertElementsStopsFrom(s0, elems, i + 1);
          return;
        }
        out := out + [p.value];
      }
      assert elems[..|elems|] == elems;
      ps := Some(out);
    }

    /** `handleFieldsOption(sub, value)`: writes `fields`, and `helpersNeeded` and
        `prologue` when the helper is needed. */
    method HandleFieldsOption(sub: string, value: Node) returns (err: Option<UpgradeError>)
      modifies this
      ensures Agrees(Fields.HandleFieldsOption(old(State()), sub, value), err, State())
    {
      err := None;
      EnsureFields();
      if value.kind.Absent? {
        err := Some(FieldsValueMissing);
        return;
      }
      var ps: Option<seq<Node>> := None;
      if value.kind.ArrayExpr? {
        ps, err := ConvertElements(value.kind.elements);
        if err.Some? {
          return;
        }
      }
      if ps.Some? {
        PushField(Prop(sub, Mk(ObjectExpr(ps.value)), false));
      } else {
        var call := InvokeHelper(value);
        PushField(Prop(sub, call, false));
      }
    }

    /** `removeFields`: writes `fields`. */
    method RemoveFields(value: Node)
      modifies this
      ensures State() == Fields.RemoveFields(old(State()), value)
    {
      EnsureFields();
      PushField(Prop("remove", value, false));
    }

    // -------------------------------------------------------------------------
    // The construct parser

    /** `parseConstruct(parsed, body)`. */
    method ParseConstruct(env: Construct.Env, body: seq<Node>, fuel: nat) returns (err: Option<UpgradeError>)
      modifies this
      ensures Agrees(Construct.ParseConstruct(env, old(State()), body, fuel), err, State())
      decreases fuel, 1, |body|
    {
      ghost var s0 := State();
      err := None;
      for i := 0 to |body|
        invariant err.None? && Construct.ParseConstruct(env, s0, body[..i], fuel) == Ok(State())
      {
        ghost var before := State();
        err := ParseStatement(env, body[i], fuel);
        ParseConstructStep(env, s0, body, i, before, fuel);
        if err.Some? {
          Construct.ParseConstructFailsFrom(env, s0, body, i + 1, fuel);
          return;
        }
      }
      assert body[..|body|] == body;
    }

    /** One statement of a construct body: a method, an init, or an inlined partial. */
    method ParseStatement(env: Construct.Env, st: Node, fuel: nat) returns (err: Option<UpgradeError>)
      modifies this
      ensures Agrees(Construct.ParseStatement(env, old(State()), st, fuel), err, State())
      decreases fuel, 0, 0
    {
      err := None;
      if st.kind.ExpressionStatement? && st.kind.expression.kind.Assignment? {
        var asg := st.kind.expression.kind;
        if asg.right.kind.FunctionExpr? {
          methods := methods + [Method(Construct.AssignedName(asg.left), asg.right, st.comments)];
        } else {
          earlyInits := earlyInits + [st];
        }
      } else if Construct.GateOn(env, State()) && Construct.PartialCall(st).Some? {
        match Construct.PartialCall(st).value {
          case Some(LStr(p)) =>
            var path := Construct.JsPath(env.resolve(env.dir, p));
            importedPaths := importedPaths + [path];
            match env.read(path) {
              case None =>
                err := Some(PartialUnreadable(path));
              case Some(stmts) =>
                if fuel == 0 {
                  err := Some(PartialTooDeep);
                } else {
                  err := PartialStatements(env, stmts, fuel - 1);
                }
            }
          case _ =>
            err := Some(RequirePathNotString);
        }
      } else {
        earlyInits := earlyInits + [st];
      }
    }

    /** The statements of a partial file. */
    method PartialStatements(env: Construct.Env, stmts: seq<Node>, fuel: nat) returns (err: Option<UpgradeError>)
      modifies this
      ensures Agrees(Construct.PartialStatements(env, old(State()), stmts, fuel), err, State())
      decreases fuel, 2, |stmts|
    {
      ghost var s0 := State();
      err := None;
      for i := 0 to |stmts|
        invariant err.None? && Construct.PartialStatements(env, s0, stmts[..i], fuel) == Ok(State())
      {
        ghost var before := State();
        var st := stmts[i];
        match Construct.ExportsRight(st) {
          case Some(right) =>
            match Construct.ExportedBody(right) {
              case Some(b) =>
                err := ParseConstruct(env, b, fuel);
              case None =>
            }
          case None =>
            prologue := prologue + [st];
        }
        PartialStatementsStep(env, s0, stmts, i, before, fuel);
        if err.Some? {
          PartialStatementsFailsFrom(env, s0, stmts, i + 1, fuel);
          return;
        }
      }
      assert stmts[..|stmts|] == stmts;
    }

    // -------------------------------------------------------------------------
    // The exported object

    /** One property of the exported object. */
    method TopProperty(env: Construct.Env, p: Node, fuel: nat) returns (err: Option<UpgradeError>)
      modifies this
      ensures Agrees(Upgrade.TopProperty(env, old(State()), p, fuel), err, State())
    {
      err := None;
      var name := Upgrade.KeyName(p);
      if name == Some("construct") {
        match Upgrade.BlockBody(p) {
          case Some(b) =>
            err := ParseConstruct(env, b, fuel);
          case None =>
        }
      } else if name == Some("beforeConstruct") {
        match Upgrade.BlockBody(p) {
          case Some(b) =>
            adjusts := b;
          case None =>
        }
      } else if name == Some("afterConstruct") {
        match Upgrade.BlockBody(p) {
          case Some(b) =>
            lateInits := lateInits + b;
          case None =>
        }
      } else if name.Some? && Upgrade.SpecialKey(name.value).Some? {
        specials := Put(specials, Upgrade.SpecialKey(name.value).value, Upgrade.PropValue(p));
      } else if name == Some("addFields") {
        err := HandleFieldsOption("add", Upgrade.PropValue(p));
      } else if name == Some("arrangeFields") {
        err := HandleFieldsOption("group", Upgrade.PropValue(p));
      } else if name == Some("removeFields") {
        RemoveFields(Upgrade.PropValue(p));
      } else if Upgrade.OptionKey(name) == "length" {
        err := Some(OptionsLengthInvalid);
      } else {
        options := Put(options, Upgrade.OptionKey(name), Upgrade.PropValue(p));
      }
    }

    /** The properties of one exported object literal, in order. */
    method TopProperties(env: Construct.Env, ps: seq<Node>, fuel: nat) returns (err: Option<UpgradeError>)
      modifies this
      ensures Agrees(Upgrade.TopProperties(env, old(State()), ps, fuel), err, State())
    {
      ghost var s0 := State();
      err := None;
      for i := 0 to |ps|
        invariant err.None? && Upgrade.TopProperties(env, s0, ps[..i], fuel) == Ok(State())
      {
        ghost var before := State();
        err := TopProperty(env, ps[i], fuel);
        TopPropertiesStep(env, s0, ps, i, before, fuel);
        if err.Some? {
          Upgrade.TopPropertiesFailsFrom(env, s0, ps, i + 1, fuel);
          return;
        }
      }
      assert ps[..|ps|] == ps;
    }

    /** `parsed.body.forEach(…)`. */
    method TopStatements(env: Construct.Env, body: seq<Node>, fuel: nat) returns (err: Option<UpgradeError>)
      modifies this
      ensures Agrees(Upgrade.TopStatements(env, old(State()), body, fuel), err, State())
    {
      ghost var s0 := State();
      err := None;
      for i := 0 to |body|
        invariant err.None? && Upgrade.TopStatements(env, s0, body[..i], fuel) == Ok(State())
      {
        ghost var before := State();
        match Upgrade.ObjectExport(body[i]) {
          case Some(ps) =>
            err := TopProperties(env, ps, fuel);
          case None =>
        }
        TopStatementsStep(env, s0, body, i, before, fuel);
        if err.Some? {
          TopStatementsFailsFrom(env, s0, body, i + 1, fuel);
          return;
        }
      }
      assert body[..|body|] == body;
    }
  }

  lemma RouteDeclines(acc: Acc, t: string, init: Node)
    requires Recognise.Route(acc, t, init).Ok? && !Recognise.Route(acc, t, init).value.0
    ensures Recognise.Route(acc, t, init).value.1 == acc
  {
  }

  lemma AddHelpersDeclines(acc: Acc, init: Node)
    requires Recognise.AddHelpers(acc, init).Ok? && !Recognise.AddHelpers(acc, init).value.0
    ensures Recognise.AddHelpers(acc, init).value.1 == acc
  {
  }

  lemma OnEventDeclines(acc: Acc, init: Node)
    requires Recognise.OnEvent(acc, init).Ok? && !Recognise.OnEvent(acc, init).value.0
    ensures Recognise.OnEvent(acc, init).value.1 == acc
  {
  }

  /** One more statement through the filter. */
  lemma FilterInitsStep(acc: Acc, inits: seq<Node>, i: nat, kept: seq<Node>, a: Acc, claimed: bool, a': Acc)
    requires i < |inits| && Recognise.FilterInits(acc, inits[..i]) == Ok((kept, a))
    requires Recognise.Classify(a, inits[i]) == Ok((claimed, a'))
    ensures Recognise.FilterInits(acc, inits[..i + 1]) == Ok((kept + (if claimed then [] else [inits[i]]), a'))
  {
    assert inits[..i + 1][..i] == inits[..i];
  }

  /** A statement a recogniser rejects ends the filter with its error. */
  lemma FilterInitsStepFails(acc: Acc, inits: seq<Node>, i: nat, kept: seq<Node>, a: Acc, e: UpgradeError)
    requires i < |inits| && Recognise.FilterInits(acc, inits[..i]) == Ok((kept, a))
    requires Recognise.Classify(a, inits[i]) == Err(e)
    ensures Recognise.FilterInits(acc, inits) == Err(e)
  {
    assert inits[..i + 1][..i] == inits[..i];
    FilterInitsFailsFrom(acc, inits, i + 1);
  }

  lemma {:induction false} FilterInitsFailsFrom(acc: Acc, inits: seq<Node>, i: nat)
    requires i <= |inits| && Recognise.FilterInits(acc, inits[..i]).Err?
    ensures Recognise.FilterInits(acc, inits) == Recognise.FilterInits(acc, inits[..i])
    decreases |inits| - i
  {
    if i < |inits| {
      assert inits[..i + 1][..i] == inits[..i];
      FilterInitsFailsFrom(acc, inits, i + 1);
    } else {
      assert inits[..i] == inits;
    }
  }

  /** `ProcessModule` once the scan has succeeded and the pieces check has passed:
      the module is skipped, fails with the error of the new properties, or is
      upgraded with them. */
  lemma ProcessModuleSkipped(env: Construct.Env, body: seq<Node>, fuel: nat, acc: Acc)
    requires Upgrade.TopStatements(env, Initial, body, fuel) == Ok(acc)
    requires !(Upgrade.ExtendsPieces(acc) && Upgrade.NameOptionMissing(acc))
    requires Upgrade.LastObjectExport(body).None?
    ensures Upgrade.ProcessModule(env, body, fuel) == Ok(Upgrade.Skipped)
  {
  }

  lemma ProcessModuleFails(env: Construct.Env, body: seq<Node>, fuel: nat, acc: Acc, e: UpgradeError)
    requires Upgrade.TopStatements(env, Initial, body, fuel) == Ok(acc)
    requires !(Upgrade.ExtendsPieces(acc) && Upgrade.NameOptionMissing(acc))
    requires Upgrade.LastObjectExport(body).Some? && Upgrade.NewProperties(acc) == Err(e)
    ensures Upgrade.ProcessModule(env, body, fuel) == Err(e)
  {
  }

  lemma ProcessModuleUpgrades(env: Construct.Env, body: seq<Node>, fuel: nat, acc: Acc, idx: nat, props: seq<Node>)
    requires Upgrade.TopStatements(env, Initial, body, fuel) == Ok(acc)
    requires !(Upgrade.ExtendsPieces(acc) && Upgrade.NameOptionMissing(acc))
    requires Upgrade.LastObjectExport(body) == Some(idx) && Upgrade.NewProperties(acc) == Ok(props)
    ensures idx < |body|
    ensures var program := acc.prologue + body[..idx] + [Upgrade.SetProperties(body[idx], props)] + body[idx + 1..];
      Upgrade.ProcessModule(env, body, fuel)
        == Ok(Upgrade.Upgraded(if Construct.GateOn(env, acc) then Upgrade.FirstRequires(program) else program, acc.importedPaths))
  {
  }

  /** `NewProperties` from the results of its two loops. */
  lemma NewPropertiesUnprintable(acc: Acc, kept: seq<Node>, a1: Acc, a2: Acc)
    requires Recognise.FilterInits(acc, acc.earlyInits + acc.lateInits) == Ok((kept, a1))
    requires Moves.MoveHandlers(a1, a1.queue) == Ok(a2)
    requires !Upgrade.RoutesPrintable(a2.routes)
    ensures Upgrade.NewProperties(acc) == Err(RouteNotPrintable)
  {
  }

  lemma NewPropertiesFromLoops(acc: Acc, kept: seq<Node>, a1: Acc, a2: Acc)
    requires Recognise.FilterInits(acc, acc.earlyInits + acc.lateInits) == Ok((kept, a1))
    requires Moves.MoveHandlers(a1, a1.queue) == Ok(a2)
    requires Upgrade.RoutesPrintable(a2.routes)
    ensures Upgrade.NewProperties(acc)
      == Ok(Output.Properties(a2, kept, Moves.PlainMethods(a2.methods, a2.superCaptures), Moves.ExtendMethods(a2.methods, a2.superCaptures)))
  {
  }

  lemma MoveHandlersStep(acc: Acc, queue: seq<(Lit, Lit)>, i: nat, a: Acc)
    requires i < |queue| && Moves.MoveHandlers(acc, queue[..i]) == Ok(a)
    ensures Moves.MoveHandlers(acc, queue[..i + 1]) == Moves.MoveHandler(a, queue[i].0, queue[i].1)
  {
    assert queue[..i + 1][..i] == queue[..i];
  }

  lemma {:induction false} MoveHandlersFailsFrom(acc: Acc, queue: seq<(Lit, Lit)>, i: nat)
    requires i <= |queue| && Moves.MoveHandlers(acc, queue[..i]).Err?
    ensures Moves.MoveHandlers(acc, queue) == Moves.MoveHandlers(acc, queue[..i])
    decreases |queue| - i
  {
    if i < |queue| {
      assert queue[..i + 1][..i] == queue[..i];
      MoveHandlersFailsFrom(acc, queue, i + 1);
    } else {
      assert queue[..i] == queue;
    }
  }

  lemma ConvertElementsStep(acc: Acc, elems: seq<Node>, i: nat, out: seq<Node>, a: Acc)
    requires i < |elems| && Fields.ConvertElements(acc, elems[..i]) == Ok((Some(out), a))
    ensures Fields.ConvertElements(acc, elems[..i + 1]) ==
      match Fields.ConvertElement(a, elems[i])
      case Err(e) => Err(e)
      case Ok((None, a')) => Ok((None, a'))
      case Ok((Some(p), a')) => Ok((Some(out + [p]), a'))
  {
    assert elems[..i + 1][..i] == elems[..i];
  }

  /** Once an element fails or is unsupported, the loop's outcome is settled. */
  lemma {:induction false} ConvertElementsStopsFrom(acc: Acc, elems: seq<Node>, i: nat)
    requires i <= |elems|
    requires Fields.ConvertElements(acc, elems[..i]).Err? || Fields.ConvertElements(acc, elems[..i]).value.0.None?
    ensures Fields.ConvertElements(acc, elems) == Fields.ConvertElements(acc, elems[..i])
    decreases |elems| - i
  {
    if i < |elems| {
      assert elems[..i + 1][..i] == elems[..i];
      ConvertElementsStopsFrom(acc, elems, i + 1);
    } else {
      assert elems[..i] == elems;
    }
  }

  lemma ParseConstructStep(env: Construct.Env, acc: Acc, body: seq<Node>, i: nat, a: Acc, fuel: nat)
    requires i < |body| && Construct.ParseConstruct(env, acc, body[..i], fuel) == Ok(a)
    ensures Construct.ParseConstruct(env, acc, body[..i + 1], fuel) == Construct.ParseStatement(env, a, body[i], fuel)
  {
    assert body[..i + 1][..i] == body[..i];
  }

  lemma PartialStatementsStep(env: Construct.Env, acc: Acc, stmts: seq<Node>, i: nat, a: Acc, fuel: nat)
    requires i < |stmts| && Construct.PartialStatements(env, acc, stmts[..i], fuel) == Ok(a)
    ensures Construct.PartialStatements(env, acc, stmts[..i + 1], fuel) ==
      match Construct.ExportsRight(stmts[i])
      case Some(right) =>
        (match Construct.ExportedBody(right)
         case Some(b) => Construct.ParseConstruct(env, a, b, fuel)
         case None => Ok(a))
      case None => Ok(a.(prologue := a.prologue + [stmts[i]]))
  {
    assert stmts[..i + 1][..i] == stmts[..i];
  }

  lemma {:induction false} PartialStatementsFailsFrom(env: Construct.Env, acc: Acc, stmts: seq<Node>, i: nat, fuel: nat)
    requires i <= |stmts| && Construct.PartialStatements(env, acc, stmts[..i], fuel).Err?
    ensures Construct.PartialStatements(env, acc, stmts, fuel) == Construct.PartialStatements(env, acc, stmts[..i], fuel)
    decreases |stmts| - i
  {
    if i < |stmts| {
      assert stmts[..i + 1][..i] == stmts[..i];
      PartialStatementsFailsFrom(env, acc, stmts, i + 1, fuel);
    } else {
      assert stmts[..i] == stmts;
    }
  }

  lemma TopPropertiesStep(env: Construct.Env, acc: Acc, ps: seq<Node>, i: nat, a: Acc, fuel: nat)
    requires i < |ps| && Upgrade.TopProperties(env, acc, ps[..i], fuel) == Ok(a)
    ensures Upgrade.TopProperties(env, acc, ps[..i + 1], fuel) == Upgrade.TopProperty(env, a, ps[i], fuel)
  {
    assert ps[..i + 1][..i] == ps[..i];
  }

  lemma TopStatementsStep(env: Construct.Env, acc: Acc, body: seq<Node>, i: nat, a: Acc, fuel: nat)
    requires i < |body| && Upgrade.TopStatements(env, acc, body[..i], fuel) == Ok(a)
    ensures Upgrade.TopStatements(env, acc, body[..i + 1], fuel) ==
      match Upgrade.ObjectExport(body[i])
      case Some(ps) => Upgrade.TopProperties(env, a, ps, fuel)
      case None => Ok(a)
  {
    assert body[..i + 1][..i] == body[..i];
  }

  lemma {:induction false} TopStatementsFailsFrom(env: Construct.Env, acc: Acc, body: seq<Node>, i: nat, fuel: nat)
    requires i <= |body| && Upgrade.TopStatements(env, acc, body[..i], fuel).Err?
    ensures Upgrade.TopStatements(env, acc, body, fuel) == Upgrade.TopStatements(env, acc, body[..i], fuel)
    decreases |body| - i
  {
    if i < |body| {
      assert body[..i + 1][..i] == body[..i];
      TopStatementsFailsFrom(env, acc, body, i + 1, fuel);
    } else {
      assert body[..i] == body;
    }
  }

  /** `processModule` on one module, run on a fresh set of accumulators: it computes
      exactly the outcome its definition gives. */
  method Process(env: Construct.Env, body: seq<Node>, fuel: nat) returns (r: Result<Upgrade.Outcome, UpgradeError>)
    ensures r == Upgrade.ProcessModule(env, body, fuel)
  {
    var m := new ModuleProcessor();
    var err := m.TopStatements(env, body, fuel);
    if err.Some? {
      return Err(err.value);
    }
    if Upgrade.ExtendsPieces(m.State()) && Upgrade.NameOptionMissing(m.State()) {
      return Err(PiecesWithoutName);
    }
    ghost var acc := m.State();
    var gate := Construct.GateOn(env, m.State());
    var prologue, paths := m.prologue, m.importedPaths;
    var idx := Upgrade.LastObjectExport(body);
    if idx.None? {
      ProcessModuleSkipped(env, body, fuel, acc);
      return Ok(Upgrade.Skipped);
    }
    var kept;
    kept, err := m.FilterInits(m.earlyInits + m.lateInits);
    if err.Some? {
      ProcessModuleFails(env, body, fuel, acc, err.value);
      return Err(err.value);
    }
    ghost var a1 := m.State();
    err := m.MoveHandlers();
    if err.Some? {
      ProcessModuleFails(env, body, fuel, acc, err.value);
      return Err(err.value);
    }
    if !Upgrade.RoutesPrintable(m.routes) {
      NewPropertiesUnprintable(acc, kept, a1, m.State());
      ProcessModuleFails(env, body, fuel, acc, RouteNotPrintable);
      return Err(RouteNotPrintable);
    }
    var props := Output.Properties(m.State(), kept, Moves.PlainMethods(m.methods, m.superCaptures),
                                   Moves.ExtendMethods(m.methods, m.superCaptures));
    NewPropertiesFromLoops(acc, kept, a1, m.State());
    var i := idx.value;
    ProcessModuleUpgrades(env, body, fuel, acc, i, props);
    var program := prologue + body[..i] + [Upgrade.SetProperties(body[i], props)] + body[i + 1..];
    if gate {
      program := Upgrade.DedupRequires(program);
    }
    r := Ok(Upgrade.Upgraded(program, paths));
  }
}
