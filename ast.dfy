/** The syntax trees lib/upgrader.js works on: the ESTree shapes that acorn produces
    and escodegen prints, closed over the node types the upgrader inspects. Every
    node can carry `leadingComments`, kept as opaque text. A JavaScript `null` where
    a node is expected is the `Absent` kind. */
module Ast {
  import opened Wrappers
  import opened Text

  type Comment = string

  /** The value of a `Literal` node. */
  datatype Lit = LStr(str: string) | LNum(num: int) | LBool(boolean: bool) | LNull

  datatype Node = Node(kind: Kind, comments: seq<Comment>)

  datatype Kind =
    | ExpressionStatement(expression: Node)
    | Assignment(left: Node, right: Node)
    | Call(callee: Node, arguments: seq<Node>)
    | Member(object: Node, property: Node, computed: bool)
    | Identifier(name: string)
    | Literal(lit: Lit)
    | FunctionExpr(params: seq<Node>, fnBody: Node)
    | ArrowFunction(params: seq<Node>, fnBody: Node)
    | Block(stmts: seq<Node>)
    | Return(argument: Node)
    | ObjectExpr(properties: seq<Node>)
    | Property(key: Node, value: Node, computed: bool, isMethod: bool, isAsync: bool)
    | ArrayExpr(elements: seq<Node>)
    | Spread(argument: Node)
    | VarDecl(declKind: string, declarations: seq<Node>)
    | Declarator(id: Node, init: Node)
    | ObjectPattern(properties: seq<Node>)
    | Absent
    | Other(tag: string, children: seq<Node>)

  /** A node built by the upgrader, without comments. */
  function Mk(k: Kind): Node {
    Node(k, [])
  }

  function Ident(name: string): Node {
    Mk(Identifier(name))
  }

  /** `{ type: 'Property', key: { type: 'Identifier', name }, value, method }`. */
  function Prop(name: string, value: Node, isMethod: bool): Node {
    Mk(Property(Ident(name), value, false, isMethod, false))
  }

  /** `function(self, options) { body }`, the shape of every generated section. */
  function SelfOptionsFn(body: seq<Node>): Node {
    Mk(FunctionExpr([Ident("self"), Ident("options")], Mk(Block(body))))
  }

  /** `get(n, 'name')`: the name of an identifier, null for anything else. */
  function NameOf(n: Node): Option<string> {
    if n.kind.Identifier? then Some(n.kind.name) else None
  }

  /** `String(get(n, 'name'))`, a name used as a property key. */
  function NameKey(name: Option<string>): string {
    match name
    case Some(s) => s
    case None => "null"
  }

  /** `String(v)` for a literal value. */
  function LitKey(l: Lit): string {
    match l
    case LStr(s) => s
    case LNum(n) => IntToString(n)
    case LBool(b) => if b then "true" else "false"
    case LNull => "null"
  }

  /** JavaScript truthiness of a literal value. */
  predicate Truthy(l: Lit) {
    match l
    case LStr(s) => s != ""
    case LNum(n) => n != 0
    case LBool(b) => b
    case LNull => false
  }

  /** The direct children of a node, in the order of its fields. */
  function Children(k: Kind): (cs: seq<Node>)
    ensures forall i :: 0 <= i < |cs| ==> cs[i] < k
  {
    match k
    case ExpressionStatement(e) => [e]
    case Assignment(l, r) => [l, r]
    case Call(c, args) => [c] + args
    case Member(o, p, _) => [o, p]
    case Identifier(_) => []
    case Literal(_) => []
    case FunctionExpr(ps, b) => ps + [b]
    case ArrowFunction(ps, b) => ps + [b]
    case Block(ss) => ss
    case Return(a) => [a]
    case ObjectExpr(ps) => ps
    case Property(key, v, _, _, _) => [key, v]
    case ArrayExpr(es) => es
    case Spread(a) => [a]
    case VarDecl(_, ds) => ds
    case Declarator(id, init) => [id, init]
    case ObjectPattern(ps) => ps
    case Absent => []
    case Other(_, cs) => cs
  }

  /** The same kind of node with its children replaced, position by position. */
  function Rebuild(k: Kind, cs: seq<Node>): (r: Kind)
    requires |cs| == |Children(k)|
    ensures Children(r) == cs
  {
    match k
    case ExpressionStatement(_) => ExpressionStatement(cs[0])
    case Assignment(_, _) => Assignment(cs[0], cs[1])
    case Call(_, _) => Call(cs[0], cs[1..])
    case Member(_, _, c) => Member(cs[0], cs[1], c)
    case Identifier(_) => k
    case Literal(_) => k
    case FunctionExpr(_, _) => FunctionExpr(cs[..|cs| - 1], cs[|cs| - 1])
    case ArrowFunction(_, _) => ArrowFunction(cs[..|cs| - 1], cs[|cs| - 1])
    case Block(_) => Block(cs)
    case Return(_) => Return(cs[0])
    case ObjectExpr(_) => ObjectExpr(cs)
    case Property(_, _, c, m, a) => Property(cs[0], cs[1], c, m, a)
    case ArrayExpr(_) => ArrayExpr(cs)
    case Spread(_) => Spread(cs[0])
    case VarDecl(d, _) => VarDecl(d, cs)
    case Declarator(_, _) => Declarator(cs[0], cs[1])
    case ObjectPattern(_) => ObjectPattern(cs)
    case Absent => k
    case Other(t, _) => Other(t, cs)
  }

  /** Whether an identifier named `x` occurs in `n` or below it. */
  predicate HasIdent(n: Node, x: string)
    decreases n
  {
    (n.kind.Identifier? && n.kind.name == x)
    || exists i :: 0 <= i < |Children(n.kind)| && HasIdent(Children(n.kind)[i], x)
  }

  /** `replaceIdentifier`: every identifier named `from` below `n` is renamed `to`,
      whatever its role (binding, reference or property name). */
  function Rename(n: Node, from: string, to: string): Node
    decreases n
  {
    if n.kind.Identifier? && n.kind.name == from then Node(Identifier(to), n.comments)
    else
      var cs := Children(n.kind);
      Node(Rebuild(n.kind, seq(|cs|, i requires 0 <= i < |cs| => Rename(cs[i], from, to))), n.comments)
  }

  /** After renaming, no identifier keeps the old name. */
  lemma {:induction false} RenameRemoves(n: Node, from: string, to: string)
    requires from != to
    ensures !HasIdent(Rename(n, from, to), from)
    decreases n
  {
    var r := Rename(n, from, to);
    if !(n.kind.Identifier? && n.kind.name == from) {
      var cs := Children(n.kind);
      forall i | 0 <= i < |cs| ensures !HasIdent(Children(r.kind)[i], from) {
        RenameRemoves(cs[i], from, to);
      }
    }
  }

  /** Identifiers with any third name are neither created nor lost. */
  lemma {:induction false} RenameKeepsOthers(n: Node, from: string, to: string, x: string)
    requires x != from && x != to
    ensures HasIdent(Rename(n, from, to), x) <==> HasIdent(n, x)
    decreases n
  {
    if !(n.kind.Identifier? && n.kind.name == from) {
      var cs := Children(n.kind);
      var rs := Children(Rename(n, from, to).kind);
      forall i | 0 <= i < |cs| ensures HasIdent(rs[i], x) <==> HasIdent(cs[i], x) {
        RenameKeepsOthers(cs[i], from, to, x);
      }
      if HasIdent(n, x) && !(n.kind.Identifier? && n.kind.name == x) {
        var i :| 0 <= i < |cs| && HasIdent(cs[i], x);
        assert HasIdent(rs[i], x);
      }
      if HasIdent(Rename(n, from, to), x) && !(n.kind.Identifier? && n.kind.name == x) {
        var i :| 0 <= i < |rs| && HasIdent(rs[i], x);
        assert HasIdent(cs[i], x);
      }
    }
  }

  /** A tree without the old name is left as it is. */
  lemma {:induction false} RenameAbsent(n: Node, from: string, to: string)
    requires !HasIdent(n, from)
    ensures Rename(n, from, to) == n
    decreases n
  {
    var cs := Children(n.kind);
    var rs := seq(|cs|, i requires 0 <= i < |cs| => Rename(cs[i], from, to));
    forall i | 0 <= i < |cs| ensures rs[i] == cs[i] {
      RenameAbsent(cs[i], from, to);
    }
    assert rs == cs;
    RebuildSame(n.kind);
  }

  lemma RebuildSame(k: Kind)
    ensures Rebuild(k, Children(k)) == k
  {
    match k
    case Call(c, args) => assert ([c] + args)[1..] == args;
    case FunctionExpr(ps, b) => assert (ps + [b])[..|ps|] == ps;
    case ArrowFunction(ps, b) => assert (ps + [b])[..|ps|] == ps;
    case _ =>
  }

  /** `node.type = 'FunctionExpression'` on an arrow function: the same parameters
      and body, printed as a `function`. Other nodes are left as they are. */
  function Retype(n: Node): (r: Node)
    ensures n.kind.ArrowFunction? || n.kind.FunctionExpr? ==> r.kind.FunctionExpr?
    ensures n.kind.ArrowFunction? || n.kind.FunctionExpr? ==>
      r.kind.params == n.kind.params && r.kind.fnBody == n.kind.fnBody && r.comments == n.comments
    ensures !n.kind.ArrowFunction? ==> r == n
  {
    match n.kind
    case ArrowFunction(ps, b) => Node(FunctionExpr(ps, b), n.comments)
    case _ => n
  }

  /** Whether `t` matches `/^[a-zA-Z]\w*$/`. */
  predicate IsPlainName(t: string) {
    |t| > 0 && (IsAsciiUpper(t[0]) || IsAsciiLower(t[0]))
    && forall i :: 1 <= i < |t| ==> IsWordChar(t[i])
  }
}
