/** helpers/index.js: the runtime helper shipped to migrated projects.
    `arrayOptionToObject(fields)` turns an array of field objects into an object
    keyed by each field's `name`, via `Object.fromEntries`. */
module Helpers {
  import opened Wrappers
  import opened Text
  import opened JsonGet
  import opened AssocList

  datatype HelperError =
    | NotAnArray          // `fields.map` is not a function
    | NullField(at: nat)  // `field.name` read on null or undefined

  /** `String(v)`, the property key JavaScript derives from a value. */
  function ToPropertyKey(v: Json): string
    decreases v, 1
  {
    match v
    case JStr(s) => s
    case JNum(n) => IntToString(n)
    case JBool(b) => if b then "true" else "false"
    case JNull => "null"
    case JUndefined => "undefined"
    case JArr(xs) => JoinWith(ElementKeys(v, xs), ",")
    case JObj(_) => "[object Object]"
  }

  /** The pieces `Array.prototype.join` uses: null and undefined print as ''. */
  function ElementKeys(whole: Json, xs: seq<Json>): (ks: seq<string>)
    requires forall i :: 0 <= i < |xs| ==> xs[i] < whole
    ensures |ks| == |xs|
    decreases whole, 0, |xs|
  {
    if xs == [] then []
    else [if Nullish(xs[0]) then "" else ToPropertyKey(xs[0])] + ElementKeys(whole, xs[1..])
  }

  /** `Object.fromEntries(entries)`: entries are added in order, a repeated key keeps
      its first position and takes the later value. */
  function FromEntries(entries: seq<(string, Json)>): AList<Json> {
    if entries == [] then []
    else
      var last := entries[|entries| - 1];
      Put(FromEntries(entries[..|entries| - 1]), last.0, last.1)
  }

  /** The value of the last entry with key `k`, if any. */
  function LastWith(entries: seq<(string, Json)>, k: string): Option<Json> {
    if entries == [] then None
    else if entries[|entries| - 1].0 == k then Some(entries[|entries| - 1].1)
    else LastWith(entries[..|entries| - 1], k)
  }

  /** `[field.name, field]` for each field. */
  function NameEntries(xs: seq<Json>): (es: seq<(string, Json)>)
    ensures |es| == |xs|
    ensures forall i :: 0 <= i < |xs| ==> es[i] == (ToPropertyKey(Member(xs[i], "name")), xs[i])
  {
    if xs == [] then [] else [(ToPropertyKey(Member(xs[0], "name")), xs[0])] + NameEntries(xs[1..])
  }

  predicate NoNullish(xs: seq<Json>) {
    forall i :: 0 <= i < |xs| ==> !Nullish(xs[i])
  }

  function FirstNullish(xs: seq<Json>): (i: nat)
    requires !NoNullish(xs)
    ensures i < |xs| && Nullish(xs[i])
    ensures forall j :: 0 <= j < i ==> !Nullish(xs[j])
  {
    if Nullish(xs[0]) then 0
    else
      assert !NoNullish(xs[1..]) by {
        var k :| 0 <= k < |xs| && Nullish(xs[k]);
        assert xs[1..][k - 1] == xs[k];
      }
      1 + FirstNullish(xs[1..])
  }

  function ArrayOptionToObject(fields: Json): (r: Result<Json, HelperError>)
    ensures r.Ok? <==> fields.JArr? && NoNullish(fields.elems)
    ensures r.Ok? ==> r.value.JObj?
    ensures fields.JArr? && !NoNullish(fields.elems) ==> r == Err(NullField(FirstNullish(fields.elems)))
  {
    match fields
    case JArr(xs) =>
      if NoNullish(xs) then Ok(JObj(FromEntries(NameEntries(xs))))
      else Err(NullField(FirstNullish(xs)))
    case _ => Err(NotAnArray)
  }

  /** Reading key `k` of `Object.fromEntries(entries)` gives the last value given for `k`. */
  lemma {:induction false} FromEntriesGet(entries: seq<(string, Json)>, k: string)
    ensures Lookup(FromEntries(entries), k) == LastWith(entries, k)
  {
    if entries != [] {
      var init := entries[..|entries| - 1];
      var last := entries[|entries| - 1];
      FromEntriesGet(init, k);
      if last.0 == k {
        LookupPutSame(FromEntries(init), k, last.1);
      } else {
        LookupPutOther(FromEntries(init), last.0, last.1, k);
      }
    }
  }

  lemma {:induction false} FromEntriesUnique(entries: seq<(string, Json)>)
    ensures UniqueKeys(FromEntries(entries))
  {
    if entries != [] {
      var last := entries[|entries| - 1];
      FromEntriesUnique(entries[..|entries| - 1]);
      PutUnique(FromEntries(entries[..|entries| - 1]), last.0, last.1);
    }
  }

  lemma {:induction false} LastWithSpec(entries: seq<(string, Json)>, k: string)
    ensures LastWith(entries, k).None? <==> forall i :: 0 <= i < |entries| ==> entries[i].0 != k
    ensures LastWith(entries, k).Some? ==>
      exists i :: (0 <= i < |entries| && entries[i] == (k, LastWith(entries, k).value)
                   && forall j :: i < j < |entries| ==> entries[j].0 != k)
  {
    if entries != [] {
      var init := entries[..|entries| - 1];
      LastWithSpec(init, k);
      if entries[|entries| - 1].0 != k {
        assert forall i :: 0 <= i < |init| ==> init[i] == entries[i];
        if LastWith(init, k).Some? {
          var i :| 0 <= i < |init| && init[i] == (k, LastWith(init, k).value)
            && forall j :: i < j < |init| ==> init[j].0 != k;
          assert entries[i] == init[i];
        }
      }
    }
  }

  /** The keys of the result are exactly the fields' names, each once; a field whose
      name no later field repeats is stored intact, `name` included. */
  lemma ArrayOptionToObjectSpec(xs: seq<Json>, k: string)
    requires NoNullish(xs)
    ensures ArrayOptionToObject(JArr(xs)).Ok?
    ensures var obj := ArrayOptionToObject(JArr(xs)).value.props;
      && UniqueKeys(obj)
      && (HasKey(obj, k) <==> exists i :: 0 <= i < |xs| && ToPropertyKey(Member(xs[i], "name")) == k)
      && forall i :: 0 <= i < |xs| && ToPropertyKey(Member(xs[i], "name")) == k
           && (forall j :: i < j < |xs| ==> ToPropertyKey(Member(xs[j], "name")) != k)
           ==> Lookup(obj, k) == Some(xs[i])
  {
    var es := NameEntries(xs);
    FromEntriesUnique(es);
    FromEntriesGet(es, k);
    LastWithSpec(es, k);
    if LastWith(es, k).Some? {
      var i :| 0 <= i < |es| && es[i] == (k, LastWith(es, k).value) && forall j :: i < j < |es| ==> es[j].0 != k;
      forall i' | 0 <= i' < |xs| && es[i'].0 == k && (forall j :: i' < j < |xs| ==> es[j].0 != k)
        ensures Lookup(FromEntries(es), k) == Some(xs[i'])
      {
        assert es[i'].0 == k && es[i].0 == k;
      }
    }
  }

  /** Duplicated names: the later field wins. */
  lemma LaterFieldWins(a: Json, b: Json)
    requires !Nullish(a) && !Nullish(b)
    requires ToPropertyKey(Member(a, "name")) == ToPropertyKey(Member(b, "name"))
    ensures ArrayOptionToObject(JArr([a, b])) == Ok(JObj([(ToPropertyKey(Member(a, "name")), b)]))
  {
    var k := ToPropertyKey(Member(a, "name"));
    var es := NameEntries([a, b]);
    assert NoNullish([a, b]);
    assert es == [(k, a), (k, b)];
    assert es[..1] == [(k, a)];
    assert [(k, a)][..0] == [];
    assert FromEntries(es[..1]) == [(k, a)];
    assert [(k, a)][1..] == [];
    assert Put([(k, a)], k, b) == [(k, b)];
  }

  lemma EmptyArray()
    ensures ArrayOptionToObject(JArr([])) == Ok(JObj([]))
  {
  }

  /** What the project's own test checks (`converted.job.type === 'string'`), for any
      single field: `converted[name][p]` is the field's own `p`. */
  lemma SingleFieldAccess(field: Json, name: string, p: string)
    requires !Nullish(field) && Member(field, "name") == JStr(name)
    requires '.' !in name && '.' !in p && !Nullish(Member(field, p))
    ensures ArrayOptionToObject(JArr([field])).Ok?
    ensures GetPath(ArrayOptionToObject(JArr([field])).value, name + "." + p) == Member(field, p)
  {
    var obj := JObj([(name, field)]);
    assert NameEntries([field]) == [(name, field)];
    assert [(name, field)][..0] == [];
    assert NoNullish([field]);
    assert FromEntries([(name, field)]) == [(name, field)];
    assert ArrayOptionToObject(JArr([field])) == Ok(obj);
    assert Member(obj, name) == field;
    GetCompose(obj, name, p);
    SingleSegment(obj, name);
    SingleSegment(field, p);
  }
}
