/** After the inits filter, lib/upgrader.js moves the methods named by queued
    `self.on(event, 'name')` calls into the handlers table (lines 400-406) and
    splits the remaining methods into plain methods and the methods that extend a
    captured `super…` function (lines 408-409), which get `_super` as their first
    parameter (lines 843-850). */
module Moves {
  import opened Wrappers
  import opened Text
  import opened AssocList
  import opened Ast
  import opened Seqs
  import opened UpgradeState
  import opened Recognise

  /** One queued move: the first method named `n` becomes `handlers[e][n]`, and every
      method of that name leaves `methods`. No such method is a TypeError. */
  function MoveHandler(acc: Acc, e: Lit, n: Lit): Result<Acc, UpgradeError> {
    match FindMethod(acc.methods, n)
    case None => Err(HandlerMethodMissing(n))
    case Some(i) =>
      Ok(acc.(handlers := PutHandler(acc.handlers, LitKey(e), LitKey(n), acc.methods[i].fn),
              methods := DropNamed(acc.methods, n)))
  }

  /** `for (const item of moveMethodsToHandlers)`, in queue order. */
  function MoveHandlers(acc: Acc, queue: seq<(Lit, Lit)>): Result<Acc, UpgradeError> {
    if queue == [] then Ok(acc)
    else
      match MoveHandlers(acc, queue[..|queue| - 1])
      case Err(e) => Err(e)
      case Ok(a) => MoveHandler(a, queue[|queue| - 1].0, queue[|queue| - 1].1)
  }

  /** A move fails exactly when no method has the queued name; otherwise the handler
      is the first such method's function, the methods of that name are all gone and
      every other method stays, in order. */
  lemma MoveHandlerSpec(acc: Acc, e: Lit, n: Lit)
    ensures MoveHandler(acc, e, n).Err? <==> forall j :: 0 <= j < |acc.methods| ==> !NameIs(acc.methods[j].name, n)
    ensures MoveHandler(acc, e, n).Ok? ==>
      var a := MoveHandler(acc, e, n).value;
      var i := FindMethod(acc.methods, n).value;
      HandlerAt(a.handlers, LitKey(e), LitKey(n)) == Some(acc.methods[i].fn)
      && (forall j :: 0 <= j < |a.methods| ==> !NameIs(a.methods[j].name, n))
      && (forall j :: 0 <= j < |acc.methods| && !NameIs(acc.methods[j].name, n) ==> acc.methods[j] in a.methods)
      && IsSubseq(a.methods, acc.methods)
      && a == acc.(handlers := a.handlers, methods := a.methods)
  {
    if FindMethod(acc.methods, n).Some? {
      var i := FindMethod(acc.methods, n).value;
      var p := (m: Method) => !NameIs(m.name, n);
      var inner := Put(GetOr(acc.handlers, LitKey(e), []), LitKey(n), acc.methods[i].fn);
      LookupPutSame(acc.handlers, LitKey(e), inner);
      LookupPutSame(GetOr(acc.handlers, LitKey(e), []), LitKey(n), acc.methods[i].fn);
      FilterIsSubseq(acc.methods, p);
      forall j | 0 <= j < |acc.methods| && !NameIs(acc.methods[j].name, n)
        ensures acc.methods[j] in DropNamed(acc.methods, n)
      {
        FilterKeeps(acc.methods, p, j);
      }
    }
  }

  /** After all moves, no method is left under any queued name, and what is left is
      a subsequence of the methods before. */
  lemma {:induction false} MoveHandlersEmpty(acc: Acc, queue: seq<(Lit, Lit)>)
    requires MoveHandlers(acc, queue).Ok?
    ensures var a := MoveHandlers(acc, queue).value;
      IsSubseq(a.methods, acc.methods)
      && (forall k, j :: 0 <= k < |queue| && 0 <= j < |a.methods| ==> !NameIs(a.methods[j].name, queue[k].1))
      && a == acc.(handlers := a.handlers, methods := a.methods)
  {
    if queue != [] {
      var init := queue[..|queue| - 1];
      var (e, n) := queue[|queue| - 1];
      MoveHandlersEmpty(acc, init);
      var a0 := MoveHandlers(acc, init).value;
      var a := MoveHandlers(acc, queue).value;
      MoveHandlerSpec(a0, e, n);
      SubseqTrans(a.methods, a0.methods, acc.methods);
      forall k, j | 0 <= k < |queue| && 0 <= j < |a.methods|
        ensures !NameIs(a.methods[j].name, queue[k].1)
      {
        if k < |queue| - 1 {
          SubseqMembers(a.methods, a0.methods, a.methods[j]);
          var j0 :| 0 <= j0 < |a0.methods| && a0.methods[j0] == a.methods[j];
          assert queue[k] == init[k];
        }
      }
    } else {
      SubseqRefl(acc.methods);
    }
  }

  /** `superCaptures[method.name]` is set. */
  predicate Extends(caps: AList<string>, m: Method) {
    HasKey(caps, NameKey(m.name))
  }

  /** `extendMethods`: the methods whose name has a captured `super…` variable. */
  function ExtendMethods(ms: seq<Method>, caps: AList<string>): seq<Method> {
    Filter(ms, (m: Method) => Extends(caps, m))
  }

  /** `methods` after the split: all the others. */
  function PlainMethods(ms: seq<Method>, caps: AList<string>): seq<Method> {
    Filter(ms, (m: Method) => !Extends(caps, m))
  }

  /** The split is a partition: every method lands in exactly one list, by whether
      its name was captured, and both lists keep source order. */
  lemma SplitPartition(ms: seq<Method>, caps: AList<string>)
    ensures multiset(ExtendMethods(ms, caps)) + multiset(PlainMethods(ms, caps)) == multiset(ms)
    ensures IsSubseq(ExtendMethods(ms, caps), ms) && IsSubseq(PlainMethods(ms, caps), ms)
    ensures forall m :: m in ExtendMethods(ms, caps) <==> m in ms && Extends(caps, m)
    ensures forall m :: m in PlainMethods(ms, caps) <==> m in ms && !Extends(caps, m)
  {
    var p := (m: Method) => Extends(caps, m);
    var q := (m: Method) => !Extends(caps, m);
    FilterPartition(ms, p, q);
    FilterIsSubseq(ms, p);
    FilterIsSubseq(ms, q);
    forall m ensures m in ExtendMethods(ms, caps) <==> m in ms && Extends(caps, m) {
      if m in ExtendMethods(ms, caps) {
        SubseqMembers(ExtendMethods(ms, caps), ms, m);
      }
      if m in ms && Extends(caps, m) {
        var i :| 0 <= i < |ms| && ms[i] == m;
        FilterKeeps(ms, p, i);
      }
    }
    forall m ensures m in PlainMethods(ms, caps) <==> m in ms && !Extends(caps, m) {
      if m in PlainMethods(ms, caps) {
        SubseqMembers(PlainMethods(ms, caps), ms, m);
      }
      if m in ms && !Extends(caps, m) {
        var i :| 0 <= i < |ms| && ms[i] == m;
        FilterKeeps(ms, q, i);
      }
    }
  }

  /** The function of an extend method: `_super` is unshifted onto its parameters and
      every identifier named after the captured variable becomes `_super`. */
  function ExtendFn(fn: Node, cap: string): Node {
    match fn.kind
    case FunctionExpr(ps, b) => Rename(Node(FunctionExpr([Ident("_super")] + ps, b), fn.comments), cap, "_super")
    case _ => Rename(fn, cap, "_super")
  }

  lemma HasIdentChild(n: Node, i: nat, x: string)
    requires i < |Children(n.kind)| && HasIdent(Children(n.kind)[i], x)
    ensures HasIdent(n, x)
  {
  }

  lemma SuperIsNotUnderscore(cap: string)
    requires StartsWith(cap, "super")
    ensures cap != "_super"
  {
    assert cap[0] == 's';
  }

  /** The result starts with the `_super` parameter, followed by the old ones. */
  lemma ExtendFnShape(fn: Node, cap: string)
    requires fn.kind.FunctionExpr? && StartsWith(cap, "super")
    ensures var r := ExtendFn(fn, cap);
      r.kind.FunctionExpr? && |r.kind.params| == |fn.kind.params| + 1
      && r.kind.params[0] == Ident("_super")
      && (forall i :: 0 <= i < |fn.kind.params| ==> r.kind.params[i + 1] == Rename(fn.kind.params[i], cap, "_super"))
      && r.kind.fnBody == Rename(fn.kind.fnBody, cap, "_super")
      && r.comments == fn.comments
  {
    SuperIsNotUnderscore(cap);
    var ps := fn.kind.params;
    var b := fn.kind.fnBody;
    var f1 := Node(FunctionExpr([Ident("_super")] + ps, b), fn.comments);
    var cs := Children(f1.kind);
    assert cs == [Ident("_super")] + ps + [b];
    var rs := seq(|cs|, i requires 0 <= i < |cs| => Rename(cs[i], cap, "_super"));
    assert Rename(f1, cap, "_super") == Node(FunctionExpr(rs[..|rs| - 1], rs[|rs| - 1]), fn.comments);
    assert Rename(Ident("_super"), cap, "_super") == Ident("_super");
    assert rs[0] == Ident("_super");
  }

  /** The captured name no longer occurs anywhere in the function. */
  lemma ExtendFnRemoves(fn: Node, cap: string)
    requires StartsWith(cap, "super")
    ensures !HasIdent(ExtendFn(fn, cap), cap)
  {
    SuperIsNotUnderscore(cap);
    match fn.kind
    case FunctionExpr(ps, b) => RenameRemoves(Node(FunctionExpr([Ident("_super")] + ps, b), fn.comments), cap, "_super");
    case _ => RenameRemoves(fn, cap, "_super");
  }

  /** Putting a parameter without `x` in front of a function's parameters neither
      adds nor removes an occurrence of `x`. */
  lemma PrependParamKeeps(fn: Node, p: Node, x: string)
    requires fn.kind.FunctionExpr? && !HasIdent(p, x)
    ensures HasIdent(Node(FunctionExpr([p] + fn.kind.params, fn.kind.fnBody), fn.comments), x) <==> HasIdent(fn, x)
  {
    var f1 := Node(FunctionExpr([p] + fn.kind.params, fn.kind.fnBody), fn.comments);
    var cs := Children(f1.kind);
    var fcs := Children(fn.kind);
    assert cs == [p] + fcs;
    if HasIdent(f1, x) {
      var i :| 0 <= i < |cs| && HasIdent(cs[i], x);
      assert i > 0;
      assert cs[i] == fcs[i - 1];
      HasIdentChild(fn, i - 1, x);
    }
    if HasIdent(fn, x) {
      var i :| 0 <= i < |fcs| && HasIdent(fcs[i], x);
      assert cs[i + 1] == fcs[i];
      HasIdentChild(f1, i + 1, x);
    }
  }

  /** Every other identifier occurs in the result exactly when it occurred before. */
  lemma ExtendFnKeeps(fn: Node, cap: string, x: string)
    requires fn.kind.FunctionExpr? && StartsWith(cap, "super")
    requires x != cap && x != "_super"
    ensures HasIdent(ExtendFn(fn, cap), x) <==> HasIdent(fn, x)
  {
    SuperIsNotUnderscore(cap);
    var f1 := Node(FunctionExpr([Ident("_super")] + fn.kind.params, fn.kind.fnBody), fn.comments);
    assert ExtendFn(fn, cap) == Rename(f1, cap, "_super");
    RenameKeepsOthers(f1, cap, "_super", x);
    assert !HasIdent(Ident("_super"), x);
    PrependParamKeeps(fn, Ident("_super"), x);
  }

  /** An extend method keeps its comments and its name; its function is rewritten. */
  function ExtendMethod(m: Method, caps: AList<string>): Method
    requires Extends(caps, m)
  {
    m.(fn := ExtendFn(m.fn, Lookup(caps, NameKey(m.name)).value))
  }
}
