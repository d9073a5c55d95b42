/** lib/get.js: the dotted-path accessor `get(o, 'a.b.0')` that the upgrader and
    the linter use to inspect syntax trees, modelled over JSON-like values. */
module JsonGet {
  import opened Text
  import AssocList

  /** A JavaScript value as far as property access is concerned. Object
      properties are kept in insertion order. */
  datatype Json =
    | JNull
    | JUndefined
    | JBool(b: bool)
    | JNum(n: int)
    | JStr(s: string)
    | JArr(elems: seq<Json>)
    | JObj(props: AssocList.AList<Json>)

  /** `v == null` in JavaScript: true for both null and undefined. */
  predicate Nullish(v: Json) {
    v.JNull? || v.JUndefined?
  }

  /** A canonical array index: decimal digits without a leading zero. */
  predicate IsArrayIndex(c: string) {
    |c| >= 1 && (forall i :: 0 <= i < |c| ==> IsAsciiDigit(c[i])) && (c == "0" || c[0] != '0')
  }

  function ParseNat(c: string): nat
    requires forall i :: 0 <= i < |c| ==> IsAsciiDigit(c[i])
  {
    if c == [] then 0
    else
      assert IsAsciiDigit(c[|c| - 1]);
      ParseNat(c[..|c| - 1]) * 10 + (c[|c| - 1] as int - '0' as int)
  }

  /** `o[c]` for one path segment: object properties, array elements and string
      characters by canonical index, and the `length` of arrays and strings. */
  function Member(o: Json, c: string): Json {
    match o
    case JObj(props) => AssocList.GetOr(props, c, JUndefined)
    case JArr(xs) =>
      if IsArrayIndex(c) && ParseNat(c) < |xs| then xs[ParseNat(c)]
      else if c == "length" then JNum(|xs|)
      else JUndefined
    case JStr(s) =>
      if IsArrayIndex(c) && ParseNat(c) < |s| then JStr([s[ParseNat(c)]])
      else if c == "length" then JNum(|s|)
      else JUndefined
    case _ => JUndefined
  }

  /** Following the segments from a present value: a missing or null step yields
      null at once. */
  function Follow(o: Json, segs: seq<string>): Json
    decreases segs
  {
    if segs == [] then o
    else
      var v := Member(o, segs[0]);
      if Nullish(v) then JNull else Follow(v, segs[1..])
  }

  /** What `get(o, s)` returns. */
  function GetPath(o: Json, s: string): Json {
    if Nullish(o) then JNull else Follow(o, SplitOn(s, '.'))
  }

  /** The accessor as the source writes it: one loop iteration per segment. */
  method Get(o: Json, s: string) returns (r: Json)
    ensures r == GetPath(o, s)
    ensures Nullish(o) ==> r == JNull
    ensures !r.JUndefined?
  {
    if Nullish(o) {
      return JNull;
    }
    var clauses := SplitOn(s, '.');
    var cur := o;
    for i := 0 to |clauses|
      invariant !Nullish(cur)
      invariant Follow(o, clauses) == Follow(cur, clauses[i..])
    {
      var next := Member(cur, clauses[i]);
      assert clauses[i..][1..] == clauses[i + 1..];
      if Nullish(next) {
        return JNull;
      }
      cur := next;
    }
    assert clauses[|clauses|..] == [];
    return cur;
  }

  /** Following from a present value never ends at undefined. */
  lemma {:induction false} FollowNotUndefined(o: Json, segs: seq<string>)
    requires !Nullish(o)
    ensures !Follow(o, segs).JUndefined?
    decreases segs
  {
    if segs != [] && !Nullish(Member(o, segs[0])) {
      FollowNotUndefined(Member(o, segs[0]), segs[1..]);
    }
  }

  /** `get` never returns undefined: a missing value anywhere gives null. */
  lemma GetNeverUndefined(o: Json, s: string)
    ensures !GetPath(o, s).JUndefined?
  {
    if !Nullish(o) {
      FollowNotUndefined(o, SplitOn(s, '.'));
    }
  }

  /** A path without dots reads one property; present falsy values such as `0`,
      `false` and `''` come back unchanged, only null and undefined become null. */
  lemma SingleSegment(o: Json, c: string)
    requires '.' !in c
    ensures GetPath(o, c) == if Nullish(o) || Nullish(Member(o, c)) then JNull else Member(o, c)
  {
    SplitOnNoSep(c, '.');
    if !Nullish(o) {
      assert Follow(o, [c]) == if Nullish(Member(o, c)) then JNull else Follow(Member(o, c), [c][1..]);
      assert [c][1..] == [];
    }
  }

  lemma {:induction false} FollowAppend(o: Json, a: seq<string>, b: seq<string>)
    requires !Nullish(o)
    ensures Follow(o, a + b) == (var x := Follow(o, a); if Nullish(x) then JNull else Follow(x, b))
    decreases a
  {
    if a == [] {
      assert a + b == b;
    } else {
      assert (a + b)[0] == a[0];
      assert (a + b)[1..] == a[1..] + b;
      var v := Member(o, a[0]);
      if !Nullish(v) {
        FollowAppend(v, a[1..], b);
      }
    }
  }

  /** Paths compose: `get(o, p + '.' + q) == get(get(o, p), q)`. */
  lemma GetCompose(o: Json, p: string, q: string)
    ensures GetPath(o, p + "." + q) == GetPath(GetPath(o, p), q)
  {
    SplitOnAppend(p, q, '.');
    assert p + "." + q == p + ['.'] + q;
    if !Nullish(o) {
      FollowAppend(o, SplitOn(p, '.'), SplitOn(q, '.'));
    }
  }

  lemma {:induction false} ParseNatToString(n: nat)
    ensures ParseNat(NatToString(n)) == n
    ensures IsArrayIndex(NatToString(n))
  {
    var s := NatToString(n);
    if n >= 10 {
      ParseNatToString(n / 10);
      assert s[..|s| - 1] == NatToString(n / 10);
      assert s[0] == NatToString(n / 10)[0];
    }
  }

  /** A numeric segment indexes an array, as `arguments.0` and `body.body.0` do. */
  lemma ArrayIndexSegment(xs: seq<Json>, i: nat)
    requires i < |xs|
    ensures Member(JArr(xs), NatToString(i)) == xs[i]
    ensures GetPath(JArr(xs), NatToString(i)) == if Nullish(xs[i]) then JNull else xs[i]
  {
    ParseNatToString(i);
    assert forall k :: 0 <= k < |NatToString(i)| ==> NatToString(i)[k] != '.';
    SingleSegment(JArr(xs), NatToString(i));
  }
}
