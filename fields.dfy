/** The fields options of lib/upgrader.js: `handleFieldsOption`, `ensureFields`,
    `invokeHelper` (lines 872-998) and `nameToLiteralOrIdentifier` (lines 1033-1053).
    `addFields: [{ name: 'title', type: 'string' }]` becomes
    `fields: { add: { title: { type: 'string' } } }`; what cannot be converted at
    upgrade time becomes a call of the runtime helper `arrayOptionToObject`. */
module Fields {
  import opened Wrappers
  import opened Text
  import opened AssocList
  import opened Ast
  import opened UpgradeState

  /** `const aposCodeMigrationHelpers = require('../../lib/apostrophe-code-migration-helpers.js')`. */
  const HelperRequire: Node :=
    Mk(VarDecl("const", [Mk(Declarator(Ident("aposCodeMigrationHelpers"),
      Mk(Call(Ident("require"), [Mk(Literal(LStr("../../lib/apostrophe-code-migration-helpers.js")))]))))]))

  /** `aposCodeMigrationHelpers.arrayOptionToObject(arg)`. */
  function HelperCall(arg: Node): Node {
    Mk(Call(Mk(Member(Ident("aposCodeMigrationHelpers"), Ident("arrayOptionToObject"), false)), [arg]))
  }

  /** `invokeHelper('arrayOptionToObject', arg)`: the first call adds the helper's
      `require` to the prologue. */
  function InvokeHelper(acc: Acc, arg: Node): (Node, Acc) {
    (HelperCall(arg),
     if acc.helpersNeeded then acc
     else acc.(helpersNeeded := true, prologue := acc.prologue + [HelperRequire]))
  }

  /** `ensureFields()`: the `fields` property, created empty the first time. */
  function EnsureFields(acc: Acc): (a: Acc)
    ensures a.fields.Some?
    ensures acc.fields.Some? ==> a == acc
    ensures acc.fields.None? ==> a == acc.(fields := Some([]))
  {
    acc.(fields := Some(if acc.fields.Some? then acc.fields.value else []))
  }

  /** `fields.value.properties.push(p)`. */
  function PushField(acc: Acc, p: Node): Acc
    requires acc.fields.Some?
  {
    acc.(fields := Some(acc.fields.value + [p]))
  }

  /** The property `name`, non-computed with an identifier key, that names a field. */
  predicate IsNameProperty(p: Node) {
    p.kind.Property? && NameOf(p.kind.key) == Some("name") && !p.kind.computed
  }

  function NameIndex(props: seq<Node>): (r: Option<nat>)
    ensures r.Some? ==> r.value < |props| && IsNameProperty(props[r.value])
    ensures r.Some? ==> forall j :: 0 <= j < r.value ==> !IsNameProperty(props[j])
    ensures r.None? ==> forall j :: 0 <= j < |props| ==> !IsNameProperty(props[j])
  {
    if props == [] then None
    else if IsNameProperty(props[0]) then Some(0)
    else match NameIndex(props[1..])
      case Some(i) => Some(i + 1)
      case None => None
  }

  /** `nameToLiteralOrIdentifier(name)` on the value `v` of the name property:
      Some(key) for a plain key, None where the source returns false (a computed
      member access or any other expression: the key is then `v` itself, computed). */
  function FieldKey(v: Node): Result<Option<Node>, UpgradeError> {
    match v.kind
    case Absent => Err(FieldNameMissing)
    case Identifier(_) => Ok(Some(v))
    case Literal(LStr(t)) => if IsPlainName(t) then Ok(Some(Ident(t))) else Ok(Some(v))
    case Literal(_) => Err(FieldNameNotString)
    case _ => Ok(None)
  }

  /** The converted form of a field object whose name property is at `i`. */
  function FieldProperty(props: seq<Node>, i: nat, key: Option<Node>): Node
    requires i < |props| && props[i].kind.Property?
  {
    Mk(Property(if key.Some? then key.value else props[i].kind.value,
                Mk(ObjectExpr(props[..i] + props[i + 1..])), key.None?, false, false))
  }

  /** One array element: Ok(None) is the `unsupported` exception. */
  function ConvertElement(acc: Acc, el: Node): Result<(Option<Node>, Acc), UpgradeError> {
    match el.kind
    case Absent => Err(FieldElementMissing)
    case ObjectExpr(props) =>
      (match NameIndex(props)
       case None => Err(FieldNameMissing)
       case Some(i) =>
         match FieldKey(props[i].kind.value)
         case Err(e) => Err(e)
         case Ok(key) => Ok((Some(FieldProperty(props, i, key)), acc)))
    case Spread(arg) =>
      var (call, a) := InvokeHelper(acc, arg);
      Ok((Some(Mk(Spread(call))), a))
    case _ => Ok((None, acc))
  }

  /** The loop over the elements: it stops at the first unsupported element
      (Ok(None)), with whatever the elements before it did to the prologue. */
  function ConvertElements(acc: Acc, elems: seq<Node>): (r: Result<(Option<seq<Node>>, Acc), UpgradeError>)
    ensures r.Ok? ==> r.value.1 == acc.(helpersNeeded := r.value.1.helpersNeeded, prologue := r.value.1.prologue)
  {
    if elems == [] then Ok((Some([]), acc))
    else
      match ConvertElements(acc, elems[..|elems| - 1])
      case Err(e) => Err(e)
      case Ok((None, a)) => Ok((None, a))
      case Ok((Some(ps), a)) =>
        match ConvertElement(a, elems[|elems| - 1])
        case Err(e) => Err(e)
        case Ok((None, a')) => Ok((None, a'))
        case Ok((Some(p), a')) => Ok((Some(ps + [p]), a'))
  }

  /** `handleFieldsOption(sub, value)`: the subproperty `sub` of `fields`. */
  function HandleFieldsOption(acc: Acc, sub: string, value: Node): Result<Acc, UpgradeError> {
    var acc1 := EnsureFields(acc);
    match value.kind
    case Absent => Err(FieldsValueMissing)
    case ArrayExpr(elems) =>
      (match ConvertElements(acc1, elems)
       case Err(e) => Err(e)
       case Ok((Some(ps), a)) => Ok(PushField(a, Prop(sub, Mk(ObjectExpr(ps)), false)))
       case Ok((None, a)) =>
         var (call, a') := InvokeHelper(a, value);
         Ok(PushField(a', Prop(sub, call, false))))
    case _ =>
      var (call, a) := InvokeHelper(acc1, value);
      Ok(PushField(a, Prop(sub, call, false)))
  }

  /** `removeFields`: its value goes under `remove` unchanged. */
  function RemoveFields(acc: Acc, value: Node): Acc {
    PushField(EnsureFields(acc), Prop("remove", value, false))
  }

  /** The helper `require` is added at most once: only by the first use, and never
      when it is already there. */
  ghost predicate HelperAtMostOnce(acc: Acc, a: Acc) {
    a == acc.(helpersNeeded := a.helpersNeeded, prologue := a.prologue)
    && ((a.prologue == acc.prologue && a.helpersNeeded == acc.helpersNeeded)
        || (!acc.helpersNeeded && a.helpersNeeded && a.prologue == acc.prologue + [HelperRequire]))
  }

  lemma InvokeHelperTwice(acc: Acc, x: Node, y: Node)
    ensures var a := InvokeHelper(InvokeHelper(acc, x).1, y).1;
      a.helpersNeeded
      && a.prologue == acc.prologue + (if acc.helpersNeeded then [] else [HelperRequire])
  {
    assert acc.prologue + [] == acc.prologue;
  }

  lemma {:induction false} ConvertElementsOnce(acc: Acc, elems: seq<Node>)
    requires ConvertElements(acc, elems).Ok?
    ensures HelperAtMostOnce(acc, ConvertElements(acc, elems).value.1)
  {
    if elems != [] {
      ConvertElementsOnce(acc, elems[..|elems| - 1]);
    }
  }

  /** A fields option appends exactly one subproperty `sub` to `fields` and may add
      the helper `require` once; nothing else changes. */
  lemma HandleFieldsAppends(acc: Acc, sub: string, value: Node)
    requires HandleFieldsOption(acc, sub, value).Ok?
    ensures var a := HandleFieldsOption(acc, sub, value).value;
      var before := if acc.fields.Some? then acc.fields.value else [];
      a.fields.Some? && |a.fields.value| == |before| + 1
      && a.fields.value[..|before|] == before
      && a.fields.value[|before|].kind.Property? && a.fields.value[|before|].kind.key == Ident(sub)
      && HelperAtMostOnce(acc.(fields := a.fields), a)
  {
    if value.kind.ArrayExpr? {
      ConvertElementsOnce(EnsureFields(acc), value.kind.elements);
    }
  }

  /** A value that is not an array literal is handed to the runtime helper whole. */
  lemma NonArrayFallsBack(acc: Acc, sub: string, value: Node)
    requires !value.kind.ArrayExpr? && !value.kind.Absent?
    ensures HandleFieldsOption(acc, sub, value).Ok?
    ensures var a := HandleFieldsOption(acc, sub, value).value;
      a.fields.value[|a.fields.value| - 1] == Prop(sub, HelperCall(value), false)
      && a.helpersNeeded && HelperAtMostOnce(acc.(fields := a.fields), a)
  {
  }

  /** A field object with a name and a plain key. */
  predicate SimpleField(el: Node) {
    el.kind.ObjectExpr? && NameIndex(el.kind.properties).Some?
    && FieldKey(el.kind.properties[NameIndex(el.kind.properties).value].kind.value).Ok?
  }

  function SimpleFieldProperty(el: Node): Node
    requires SimpleField(el)
  {
    var props := el.kind.properties;
    var i := NameIndex(props).value;
    FieldProperty(props, i, FieldKey(props[i].kind.value).value)
  }

  /** An array of field objects becomes one property per element, in order, without
      touching the prologue. */
  lemma {:induction false} SimpleFieldsConvert(acc: Acc, elems: seq<Node>)
    requires forall i :: 0 <= i < |elems| ==> SimpleField(elems[i])
    ensures var r := ConvertElements(acc, elems);
      r.Ok? && r.value.1 == acc && r.value.0.Some?
      && |r.value.0.value| == |elems|
      && forall i :: 0 <= i < |elems| ==> r.value.0.value[i] == SimpleFieldProperty(elems[i])
  {
    if elems != [] {
      var init := elems[..|elems| - 1];
      SimpleFieldsConvert(acc, init);
    }
  }

  /** The accumulators once the helper has been invoked at least once. */
  function WithHelper(acc: Acc): (a: Acc)
    ensures a.helpersNeeded && HelperAtMostOnce(acc, a)
  {
    InvokeHelper(acc, Mk(Absent)).1
  }

  /** The elements the conversion handles: a named field object or a spread. */
  predicate Convertible(el: Node) {
    SimpleField(el) || el.kind.Spread?
  }

  /** A converted element: the field property, or the spread handed to the helper. */
  function Converted(el: Node): Node
    requires Convertible(el)
  {
    if SimpleField(el) then SimpleFieldProperty(el) else Mk(Spread(HelperCall(el.kind.argument)))
  }

  predicate HasSpread(elems: seq<Node>) {
    exists i :: 0 <= i < |elems| && elems[i].kind.Spread?
  }

  /** `ps` holds the converted elements, one per element, in order. */
  predicate ConvertedAll(ps: seq<Node>, elems: seq<Node>) {
    |ps| == |elems|
    && forall i :: 0 <= i < |elems| ==> Convertible(elems[i]) && ps[i] == Converted(elems[i])
  }

  /** An array of field objects and spreads becomes one property or spread per
      element, in order; the helper `require` is added exactly when some element is
      a spread (and it was not there yet). */
  lemma {:induction false} MixedFieldsConvert(acc: Acc, elems: seq<Node>)
    requires forall i :: 0 <= i < |elems| ==> Convertible(elems[i])
    ensures var r := ConvertElements(acc, elems);
      r.Ok? && r.value.0.Some? && ConvertedAll(r.value.0.value, elems)
      && r.value.1 == if HasSpread(elems) then WithHelper(acc) else acc
  {
    if elems != [] {
      var init := elems[..|elems| - 1];
      var last := elems[|elems| - 1];
      MixedFieldsConvert(acc, init);
      var a := ConvertElements(acc, init).value.1;
      var ps := ConvertElements(acc, init).value.0.value;
      ConvertOne(a, last);
      SnocSteps(ps, init, last);
    }
  }

  lemma SnocSteps(ps: seq<Node>, init: seq<Node>, last: Node)
    requires ConvertedAll(ps, init) && Convertible(last)
    ensures ConvertedAll(ps + [Converted(last)], init + [last])
    ensures HasSpread(init + [last]) <==> HasSpread(init) || last.kind.Spread?
  {
    var elems := init + [last];
    if HasSpread(init) {
      var i :| 0 <= i < |init| && init[i].kind.Spread?;
      assert elems[i] == init[i];
    }
    if HasSpread(elems) && !last.kind.Spread? {
      var i :| 0 <= i < |elems| && elems[i].kind.Spread?;
      assert init[i] == elems[i];
    }
    assert elems[|init|] == last;
  }

  lemma ConvertOne(acc: Acc, el: Node)
    requires Convertible(el)
    ensures ConvertElement(acc, el) == Ok((Some(Converted(el)), if el.kind.Spread? then WithHelper(acc) else acc))
    ensures WithHelper(WithHelper(acc)) == WithHelper(acc)
  {
  }

  /** Once the conversion has stopped, later elements are not looked at. */
  lemma {:induction false} ConvertStopped(acc: Acc, elems: seq<Node>, j: nat, a: Acc)
    requires j <= |elems| && ConvertElements(acc, elems[..j]) == Ok((None, a))
    ensures ConvertElements(acc, elems) == Ok((None, a))
    decreases |elems| - j
  {
    if j < |elems| {
      assert elems[..j + 1][..j] == elems[..j];
      ConvertStopped(acc, elems, j + 1, a);
    } else {
      assert elems[..j] == elems;
    }
  }

  /** The first element the conversion does not understand, after any number of
      field objects and spreads, stops it: the whole value goes to the runtime
      helper. The elements after it are never inspected, so nothing is required of
      them: not even a hole, which would otherwise throw. */
  lemma UnsupportedStopsEarly(acc: Acc, sub: string, elems: seq<Node>, k: nat, comments: seq<Comment>)
    requires k < |elems| && forall i :: 0 <= i < k ==> Convertible(elems[i])
    requires !(elems[k].kind.Absent? || elems[k].kind.ObjectExpr? || elems[k].kind.Spread?)
    ensures var value := Node(ArrayExpr(elems), comments);
      HandleFieldsOption(acc, sub, value)
        == Ok(PushField(WithHelper(EnsureFields(acc)), Prop(sub, HelperCall(value), false)))
  {
    var acc1 := EnsureFields(acc);
    MixedFieldsConvert(acc1, elems[..k]);
    var a := ConvertElements(acc1, elems[..k]).value.1;
    assert elems[..k + 1][..k] == elems[..k];
    assert ConvertElements(acc1, elems[..k + 1]) == Ok((None, a));
    ConvertStopped(acc1, elems, k + 1, a);
  }

  /** A converted field's value keeps the element's other properties, in order, and
      drops exactly its name property. */
  lemma FieldValueDropsName(el: Node)
    requires SimpleField(el)
    ensures var rest := SimpleFieldProperty(el).kind.value.kind.properties;
      var props := el.kind.properties;
      IsSubseqOf(rest, props)
      && multiset(rest) + multiset{props[NameIndex(props).value]} == multiset(props)
      && |rest| == |props| - 1
  {
    var props := el.kind.properties;
    var i := NameIndex(props).value;
    assert props == props[..i] + [props[i]] + props[i + 1..];
    DropIsSubseq(props, i);
  }

  predicate IsSubseqOf(xs: seq<Node>, ys: seq<Node>) {
    Seqs.IsSubseq(xs, ys)
  }

  lemma DropIsSubseq(xs: seq<Node>, i: nat)
    requires i < |xs|
    ensures IsSubseqOf(xs[..i] + xs[i + 1..], xs)
  {
    Seqs.DropOneIsSubseq(xs, i);
  }

  /** A name key: an identifier stays, a string that is a plain name becomes an
      identifier, any other string stays a literal key; all are non-computed. */
  lemma FieldKeyOfName(el: Node, v: Node)
    requires SimpleField(el)
    requires v == el.kind.properties[NameIndex(el.kind.properties).value].kind.value
    ensures v.kind.Identifier? ==> SimpleFieldProperty(el).kind.key == v
    ensures v.kind.Literal? && v.kind.lit.LStr? && IsPlainName(v.kind.lit.str) ==>
      SimpleFieldProperty(el).kind.key == Ident(v.kind.lit.str)
    ensures v.kind.Literal? && v.kind.lit.LStr? && !IsPlainName(v.kind.lit.str) ==>
      SimpleFieldProperty(el).kind.key == v
    ensures v.kind.Identifier? || v.kind.Literal? ==> !SimpleFieldProperty(el).kind.computed
    ensures !(v.kind.Identifier? || v.kind.Literal?) ==>
      SimpleFieldProperty(el).kind.computed && SimpleFieldProperty(el).kind.key == v
  {
  }

  /** The documented example: `addFields: [{ name: 'title', type: 'string' }]` gives
      `fields: { add: { title: { type: 'string' } } }`. */
  lemma AddFieldsExample(acc: Acc)
    requires acc.fields.None?
    ensures var typeProp := Prop("type", Mk(Literal(LStr("string"))), false);
      var el := Mk(ObjectExpr([Prop("name", Mk(Literal(LStr("title"))), false), typeProp]));
      HandleFieldsOption(acc, "add", Mk(ArrayExpr([el])))
        == Ok(acc.(fields := Some([Prop("add", Mk(ObjectExpr([Prop("title", Mk(ObjectExpr([typeProp])), false)])), false)])))
  {
    var typeProp := Prop("type", Mk(Literal(LStr("string"))), false);
    var nameProp := Prop("name", Mk(Literal(LStr("title"))), false);
    var el := Mk(ObjectExpr([nameProp, typeProp]));
    assert IsPlainName("title");
    assert NameIndex([nameProp, typeProp]) == Some(0);
    assert [el][..0] == [];
    assert [nameProp, typeProp][..0] + [nameProp, typeProp][1..] == [typeProp];
    assert FieldKey(Mk(Literal(LStr("title")))) == Ok(Some(Ident("title")));
    var p := Prop("title", Mk(ObjectExpr([typeProp])), false);
    assert ConvertElement(EnsureFields(acc), el) == Ok((Some(p), EnsureFields(acc)));
    assert ConvertElements(EnsureFields(acc), [el][..0]) == Ok((Some([]), EnsureFields(acc)));
    assert [] + [p] == [p];
    assert ConvertElements(EnsureFields(acc), [el]) == Ok((Some([p]), EnsureFields(acc)));
    assert [] + [Prop("add", Mk(ObjectExpr([p])), false)] == [Prop("add", Mk(ObjectExpr([p])), false)];
  }
}
