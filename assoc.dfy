/** Insertion-ordered association lists: the model of a JavaScript plain object used
    as a dictionary (`Object.keys` order is insertion order; assigning an existing
    key replaces its value in place, a new key goes last). */
module AssocList {
  import opened Wrappers

  /** Keys are property names, that is strings. */
  type AList<V> = seq<(string, V)>

  function Keys<V>(l: AList<V>): (ks: seq<string>)
    ensures |ks| == |l|
    ensures forall i :: 0 <= i < |l| ==> ks[i] == l[i].0
  {
    if l == [] then [] else [l[0].0] + Keys(l[1..])
  }

  predicate HasKey<V>(l: AList<V>, k: string) {
    exists i :: 0 <= i < |l| && l[i].0 == k
  }

  predicate UniqueKeys<V>(l: AList<V>) {
    forall i, j :: 0 <= i < j < |l| ==> l[i].0 != l[j].0
  }

  /** `o[k]`: the value stored under `k`, if any. */
  function Lookup<V>(l: AList<V>, k: string): (r: Option<V>)
    ensures r.None? <==> !HasKey(l, k)
    ensures r.Some? ==> exists i :: 0 <= i < |l| && l[i] == (k, r.value)
  {
    if l == [] then None
    else if l[0].0 == k then Some(l[0].1)
    else
      var r := Lookup(l[1..], k);
      assert r.Some? ==> exists i :: 0 <= i < |l[1..]| && l[1..][i] == (k, r.value);
      assert HasKey(l, k) ==> HasKey(l[1..], k) by {
        if HasKey(l, k) { var i :| 0 <= i < |l| && l[i].0 == k; assert l[1..][i - 1].0 == k; }
      }
      r
  }

  /** `o[k] || dflt`. */
  function GetOr<V>(l: AList<V>, k: string, dflt: V): V {
    match Lookup(l, k)
    case Some(v) => v
    case None => dflt
  }

  /** `o[k] = v`: replace in place when the key is present, else append. */
  function Put<V>(l: AList<V>, k: string, v: V): (r: AList<V>)
    ensures |r| == if HasKey(l, k) then |l| else |l| + 1
  {
    if l == [] then [(k, v)]
    else if l[0].0 == k then [(k, v)] + l[1..]
    else
      assert HasKey(l, k) <==> HasKey(l[1..], k) by { HasKeyTail(l, k); }
      [l[0]] + Put(l[1..], k, v)
  }

  lemma HasKeyTail<V>(l: AList<V>, k: string)
    requires l != [] && l[0].0 != k
    ensures HasKey(l, k) <==> HasKey(l[1..], k)
  {
    if HasKey(l, k) { var i :| 0 <= i < |l| && l[i].0 == k; assert l[1..][i - 1].0 == k; }
    if HasKey(l[1..], k) { var i :| 0 <= i < |l[1..]| && l[1..][i].0 == k; assert l[i + 1].0 == k; }
  }

  /** After `o[k] = v`, `o[k]` is `v`. */
  lemma {:induction false} LookupPutSame<V>(l: AList<V>, k: string, v: V)
    ensures Lookup(Put(l, k, v), k) == Some(v)
  {
    if l != [] && l[0].0 != k {
      LookupPutSame(l[1..], k, v);
    }
  }

  /** `o[k] = v` leaves every other key's value alone. */
  lemma {:induction false} LookupPutOther<V>(l: AList<V>, k: string, v: V, k': string)
    requires k' != k
    ensures Lookup(Put(l, k, v), k') == Lookup(l, k')
  {
    if l != [] && l[0].0 != k {
      LookupPutOther(l[1..], k, v, k');
    }
  }

  /** `o[k] = v` keeps the key order; a new key goes last. */
  lemma {:induction false} KeysPut<V>(l: AList<V>, k: string, v: V)
    ensures Keys(Put(l, k, v)) == if HasKey(l, k) then Keys(l) else Keys(l) + [k]
  {
    if l != [] && l[0].0 != k {
      HasKeyTail(l, k);
      KeysPut(l[1..], k, v);
    }
  }

  /** `o[k] = v` keeps keys unique. */
  lemma {:induction false} PutUnique<V>(l: AList<V>, k: string, v: V)
    requires UniqueKeys(l)
    ensures UniqueKeys(Put(l, k, v))
  {
    var r := Put(l, k, v);
    KeysPut(l, k, v);
    assert Keys(r) == if HasKey(l, k) then Keys(l) else Keys(l) + [k];
    HasKeyIsInKeys(l, k);
    forall i, j | 0 <= i < j < |r| ensures r[i].0 != r[j].0 {
      assert Keys(r)[i] == r[i].0 && Keys(r)[j] == r[j].0;
      if j < |l| {
        assert Keys(l)[i] == l[i].0 && Keys(l)[j] == l[j].0;
      } else {
        assert Keys(l)[i] == l[i].0;
      }
    }
  }

  /** `o[k] = v` adds no key but `k`. */
  lemma PutKeysWithin<V>(l: AList<V>, k: string, v: V, allowed: seq<string>)
    requires forall i :: 0 <= i < |l| ==> l[i].0 in allowed
    requires k in allowed
    ensures forall i :: 0 <= i < |Put(l, k, v)| ==> Put(l, k, v)[i].0 in allowed
  {
    KeysPut(l, k, v);
    var r := Put(l, k, v);
    forall i | 0 <= i < |r| ensures r[i].0 in allowed {
      assert Keys(r)[i] == r[i].0;
      if i < |l| { assert Keys(l)[i] == l[i].0; }
    }
  }

  lemma HasKeyIsInKeys<V>(l: AList<V>, k: string)
    ensures HasKey(l, k) <==> k in Keys(l)
  {
    if HasKey(l, k) { var i :| 0 <= i < |l| && l[i].0 == k; assert Keys(l)[i] == k; }
    if k in Keys(l) { var i :| 0 <= i < |Keys(l)| && Keys(l)[i] == k; assert l[i].0 == k; }
  }

  /** With unique keys, `Lookup` finds exactly the stored pair. */
  lemma LookupUnique<V>(l: AList<V>, i: nat)
    requires UniqueKeys(l) && i < |l|
    ensures Lookup(l, l[i].0) == Some(l[i].1)
  {
    if i > 0 {
      assert l[0].0 != l[i].0;
      assert UniqueKeys(l[1..]);
      assert l[1..][i - 1] == l[i];
      LookupUnique(l[1..], i - 1);
    }
  }

  /** `Object.keys(o).map(k => f(k, o[k]))`. */
  function MapEntries<V, U>(l: AList<V>, f: (string, V) -> U): (r: seq<U>)
    ensures |r| == |l|
    ensures forall i :: 0 <= i < |l| ==> r[i] == f(l[i].0, l[i].1)
  {
    if l == [] then [] else [f(l[0].0, l[0].1)] + MapEntries(l[1..], f)
  }
}
