/** `parseConstruct` of lib/upgrader.js (lines 545-602): each statement of a legacy
    `construct` body becomes a method, an early init, or – when the module's own
    `upgrade-required-files` option is set – the inlined content of a partial file
    required with `require(path)(self, options)`. */
module Construct {
  import opened Wrappers
  import opened Text
  import opened AssocList
  import opened Ast
  import opened UpgradeState
  import opened Seqs

  /** Where the `upgrade-required-files` switch is read from. As written, the name
      `options` inside processModule is the module's own options table (line 136),
      which shadows the command-line options the upgrader is called with (line 15);
      `Flag` is the command-line switch. */
  datatype GateSource = ModuleOptions | Flag(on: bool)

  /** The file system and the parser, seen from processModule: `path.resolve` applied
      to the module's directory and a require path, the read-and-parse of a file
      (None when either fails), and the source of the partials switch. */
  datatype Env = Env(dir: string, resolve: (string, string) -> string, read: string -> Option<seq<Node>>,
                     gate: GateSource)

  /** `options['upgrade-required-files']` at the moment it is read. */
  predicate GateOn(env: Env, acc: Acc) {
    match env.gate
    case ModuleOptions => Gate(acc)
    case Flag(b) => b
  }

  /** The `.js` suffix rule for a resolved partial path. */
  function JsPath(p: string): (r: string)
    ensures EndsWith(r, ".js")
    ensures EndsWith(p, ".js") ==> r == p
    ensures !EndsWith(p, ".js") ==> r == p + ".js"
  {
    if EndsWith(p, ".js") then p else p + ".js"
  }

  /** `module.exports = right`: the right side. */
  function ExportsRight(st: Node): Option<Node> {
    match st.kind
    case ExpressionStatement(e) =>
      (match e.kind
       case Assignment(left, right) =>
         (match left.kind
          case Member(o, p, _) =>
            if NameOf(o) == Some("module") && NameOf(p) == Some("exports") then Some(right) else None
          case _ => None)
       case _ => None)
    case _ => None
  }

  /** `get(statement, 'expression.left.property.name')`. */
  function AssignedName(left: Node): Option<string> {
    match left.kind
    case Member(_, p, _) => NameOf(p)
    case _ => None
  }

  /** `require(path)(self, options)` as a statement: the literal the path is read
      from (`expression.callee.arguments.0.value`, None when that is not a literal). */
  function PartialCall(st: Node): Option<Option<Lit>> {
    match st.kind
    case ExpressionStatement(e) =>
      (match e.kind
       case Call(callee, args) =>
         (match callee.kind
          case Call(inner, innerArgs) =>
            if NameOf(inner) == Some("require") && |args| == 2
               && NameOf(args[0]) == Some("self") && NameOf(args[1]) == Some("options")
            then Some(if |innerArgs| > 0 && innerArgs[0].kind.Literal? then Some(innerArgs[0].kind.lit) else None)
            else None
          case _ => None)
       case _ => None)
    case _ => None
  }

  /** The function body a partial exports: `module.exports = function (…) { body }`. */
  function ExportedBody(right: Node): Option<seq<Node>> {
    match right.kind
    case FunctionExpr(_, b) => if b.kind.Block? then Some(b.kind.stmts) else None
    case _ => None
  }

  /** `parseConstruct(parsed, body)`; `fuel` bounds the nesting of partials. */
  function ParseConstruct(env: Env, acc: Acc, body: seq<Node>, fuel: nat): Result<Acc, UpgradeError>
    decreases fuel, 1, |body|
  {
    if body == [] then Ok(acc)
    else
      match ParseConstruct(env, acc, body[..|body| - 1], fuel)
      case Err(e) => Err(e)
      case Ok(a) => ParseStatement(env, a, body[|body| - 1], fuel)
  }

  /** One statement of a construct body. */
  function ParseStatement(env: Env, acc: Acc, st: Node, fuel: nat): Result<Acc, UpgradeError>
    decreases fuel, 0, 0
  {
    if st.kind.ExpressionStatement? && st.kind.expression.kind.Assignment? then
      var asg := st.kind.expression.kind;
      if asg.right.kind.FunctionExpr? then
        Ok(acc.(methods := acc.methods + [Method(AssignedName(asg.left), asg.right, st.comments)]))
      else
        Ok(acc.(earlyInits := acc.earlyInits + [st]))
    else if GateOn(env, acc) && PartialCall(st).Some? then
      match PartialCall(st).value
      case Some(LStr(p)) =>
        var path := JsPath(env.resolve(env.dir, p));
        var acc1 := acc.(importedPaths := acc.importedPaths + [path]);
        (match env.read(path)
         case None => Err(PartialUnreadable(path))
         case Some(stmts) =>
           if fuel == 0 then Err(PartialTooDeep) else PartialStatements(env, acc1, stmts, fuel - 1))
      case _ => Err(RequirePathNotString)
    else
      Ok(acc.(earlyInits := acc.earlyInits + [st]))
  }

  /** The statements of a parsed partial: its exported function's body is parsed as
      construct code, everything else goes to the prologue. */
  function PartialStatements(env: Env, acc: Acc, stmts: seq<Node>, fuel: nat): Result<Acc, UpgradeError>
    decreases fuel, 2, |stmts|
  {
    if stmts == [] then Ok(acc)
    else
      match PartialStatements(env, acc, stmts[..|stmts| - 1], fuel)
      case Err(e) => Err(e)
      case Ok(a) =>
        var st := stmts[|stmts| - 1];
        match ExportsRight(st)
        case Some(right) =>
          (match ExportedBody(right)
           case Some(b) => ParseConstruct(env, a, b, fuel)
           case None => Ok(a))
        case None => Ok(a.(prologue := a.prologue + [st]))
  }

  predicate IsMethodStatement(st: Node) {
    st.kind.ExpressionStatement? && st.kind.expression.kind.Assignment?
    && st.kind.expression.kind.right.kind.FunctionExpr?
  }

  /** The methods a construct body declares, in order. */
  function MethodsOf(body: seq<Node>): seq<Method> {
    if body == [] then []
    else
      var st := body[|body| - 1];
      MethodsOf(body[..|body| - 1])
      + (if IsMethodStatement(st)
         then [Method(AssignedName(st.kind.expression.kind.left), st.kind.expression.kind.right, st.comments)]
         else [])
  }

  /** With the switch off, parseConstruct splits a body into methods and early inits:
      every statement lands in exactly one of them, both in source order. */
  lemma {:induction false} GateOffPartition(env: Env, acc: Acc, body: seq<Node>, fuel: nat)
    requires !GateOn(env, acc)
    ensures ParseConstruct(env, acc, body, fuel)
      == Ok(acc.(methods := acc.methods + MethodsOf(body),
                 earlyInits := acc.earlyInits + Filter(body, (st: Node) => !IsMethodStatement(st))))
  {
    if body != [] {
      var init := body[..|body| - 1];
      var st := body[|body| - 1];
      var keep := (st: Node) => !IsMethodStatement(st);
      GateOffPartition(env, acc, init, fuel);
      var a := acc.(methods := acc.methods + MethodsOf(init), earlyInits := acc.earlyInits + Filter(init, keep));
      assert !GateOn(env, a);
      if IsMethodStatement(st) {
        assert Filter(body, keep) == Filter(init, keep);
        assert acc.methods + MethodsOf(body) == acc.methods + MethodsOf(init) + [MethodsOf(body)[|MethodsOf(body)| - 1]];
      } else {
        assert Filter(body, keep) == Filter(init, keep) + [st];
        assert acc.earlyInits + Filter(body, keep) == acc.earlyInits + Filter(init, keep) + [st];
        assert MethodsOf(body) == MethodsOf(init);
      }
    } else {
      assert acc.methods + [] == acc.methods && acc.earlyInits + [] == acc.earlyInits;
    }
  }

  /** What classifying construct code can change: methods, early inits, prologue and
      imported paths, each only by appending. */
  ghost predicate Grows(acc: Acc, a: Acc) {
    a == acc.(methods := a.methods, earlyInits := a.earlyInits, prologue := a.prologue,
              importedPaths := a.importedPaths)
    && acc.methods <= a.methods && acc.earlyInits <= a.earlyInits
    && acc.prologue <= a.prologue && acc.importedPaths <= a.importedPaths
  }

  lemma {:induction false} ParseConstructGrows(env: Env, acc: Acc, body: seq<Node>, fuel: nat)
    requires ParseConstruct(env, acc, body, fuel).Ok?
    ensures Grows(acc, ParseConstruct(env, acc, body, fuel).value)
    decreases fuel, 1, |body|
  {
    if body != [] {
      ParseConstructGrows(env, acc, body[..|body| - 1], fuel);
      var a := ParseConstruct(env, acc, body[..|body| - 1], fuel).value;
      ParseStatementGrows(env, a, body[|body| - 1], fuel);
    }
  }

  lemma {:induction false} ParseStatementGrows(env: Env, acc: Acc, st: Node, fuel: nat)
    requires ParseStatement(env, acc, st, fuel).Ok?
    ensures Grows(acc, ParseStatement(env, acc, st, fuel).value)
    decreases fuel, 0, 0
  {
    if !(st.kind.ExpressionStatement? && st.kind.expression.kind.Assignment?) && GateOn(env, acc) && PartialCall(st).Some? {
      var p := PartialCall(st).value.value.str;
      var path := JsPath(env.resolve(env.dir, p));
      var acc1 := acc.(importedPaths := acc.importedPaths + [path]);
      PartialStatementsGrows(env, acc1, env.read(path).value, fuel - 1);
    }
  }

  lemma {:induction false} PartialStatementsGrows(env: Env, acc: Acc, stmts: seq<Node>, fuel: nat)
    requires PartialStatements(env, acc, stmts, fuel).Ok?
    ensures Grows(acc, PartialStatements(env, acc, stmts, fuel).value)
    decreases fuel, 2, |stmts|
  {
    if stmts != [] {
      PartialStatementsGrows(env, acc, stmts[..|stmts| - 1], fuel);
      var a := PartialStatements(env, acc, stmts[..|stmts| - 1], fuel).value;
      var st := stmts[|stmts| - 1];
      if ExportsRight(st).Some? && ExportedBody(ExportsRight(st).value).Some? {
        ParseConstructGrows(env, a, ExportedBody(ExportsRight(st).value).value, fuel);
      }
    }
  }

  /** Once a statement fails, the whole body fails with the same error. */
  lemma {:induction false} ParseConstructFailsFrom(env: Env, acc: Acc, body: seq<Node>, i: nat, fuel: nat)
    requires i <= |body| && ParseConstruct(env, acc, body[..i], fuel).Err?
    ensures ParseConstruct(env, acc, body, fuel) == ParseConstruct(env, acc, body[..i], fuel)
    decreases |body| - i
  {
    if i < |body| {
      var next := body[..i + 1];
      assert next[..i] == body[..i];
      ParseConstructFailsFrom(env, acc, body, i + 1, fuel);
    } else {
      assert body[..i] == body;
    }
  }

  /** A partial file without its own `module.exports` is hoisted whole: its
      statements go to the prologue and its path is recorded. */
  lemma InlinePlainPartial(env: Env, acc: Acc, st: Node, p: string, stmts: seq<Node>, fuel: nat)
    requires GateOn(env, acc) && !(st.kind.ExpressionStatement? && st.kind.expression.kind.Assignment?)
    requires PartialCall(st) == Some(Some(LStr(p))) && fuel > 0
    requires env.read(JsPath(env.resolve(env.dir, p))) == Some(stmts)
    requires forall i :: 0 <= i < |stmts| ==> ExportsRight(stmts[i]).None?
    ensures ParseStatement(env, acc, st, fuel)
      == Ok(acc.(importedPaths := acc.importedPaths + [JsPath(env.resolve(env.dir, p))],
                 prologue := acc.prologue + stmts))
  {
    var path := JsPath(env.resolve(env.dir, p));
    HoistAll(env, acc.(importedPaths := acc.importedPaths + [path]), stmts, fuel - 1);
  }

  lemma {:induction false} HoistAll(env: Env, acc: Acc, stmts: seq<Node>, fuel: nat)
    requires forall i :: 0 <= i < |stmts| ==> ExportsRight(stmts[i]).None?
    ensures PartialStatements(env, acc, stmts, fuel) == Ok(acc.(prologue := acc.prologue + stmts))
  {
    if stmts != [] {
      var init := stmts[..|stmts| - 1];
      HoistAll(env, acc, init, fuel);
      assert acc.prologue + init + [stmts[|stmts| - 1]] == acc.prologue + stmts;
    } else {
      assert acc.prologue + [] == acc.prologue;
    }
  }
}
