/** `Array.prototype.filter` and what it keeps: the surviving elements in their
    original relative order. */
module Seqs {
  /** `xs` is `ys` with some elements left out, the rest in the same order
      (matched greedily from the end). */
  predicate IsSubseq<T(==)>(xs: seq<T>, ys: seq<T>)
    decreases |ys|
  {
    if ys == [] then xs == []
    else if xs != [] && xs[|xs| - 1] == ys[|ys| - 1] then IsSubseq(xs[..|xs| - 1], ys[..|ys| - 1])
    else IsSubseq(xs, ys[..|ys| - 1])
  }

  /** `xs.filter(p)`. */
  function Filter<T>(xs: seq<T>, p: T -> bool): (r: seq<T>)
    ensures |r| <= |xs|
    ensures forall i :: 0 <= i < |r| ==> p(r[i])
  {
    if xs == [] then []
    else Filter(xs[..|xs| - 1], p) + (if p(xs[|xs| - 1]) then [xs[|xs| - 1]] else [])
  }

  lemma {:induction false} SubseqDropLast<T>(xs: seq<T>, ys: seq<T>)
    requires xs != [] && IsSubseq(xs, ys)
    ensures IsSubseq(xs[..|xs| - 1], ys)
    decreases |ys|, 0
  {
    var xs' := xs[..|xs| - 1];
    var ys' := ys[..|ys| - 1];
    if xs[|xs| - 1] == ys[|ys| - 1] {
      if xs' != [] && xs'[|xs'| - 1] == ys[|ys| - 1] {
        SubseqDropLast(xs', ys');
      }
    } else {
      SubseqDropLast(xs, ys');
      SubseqExtend(xs', ys', ys[|ys| - 1]);
      assert ys'+ [ys[|ys| - 1]] == ys;
    }
  }

  /** A subsequence stays one when the longer sequence grows. */
  lemma {:induction false} SubseqExtend<T>(xs: seq<T>, ys: seq<T>, y: T)
    requires IsSubseq(xs, ys)
    ensures IsSubseq(xs, ys + [y])
    decreases |ys|, 1
  {
    var ys2 := ys + [y];
    assert ys2[..|ys2| - 1] == ys;
    if xs != [] && xs[|xs| - 1] == y {
      SubseqDropLast(xs, ys);
    }
  }

  /** Both grow by the same element. */
  lemma SubseqBoth<T>(xs: seq<T>, ys: seq<T>, y: T)
    requires IsSubseq(xs, ys)
    ensures IsSubseq(xs + [y], ys + [y])
  {
    assert (xs + [y])[..|xs|] == xs;
    assert (ys + [y])[..|ys|] == ys;
  }

  /** What a filter keeps is a subsequence of what it was given. */
  lemma {:induction false} FilterIsSubseq<T>(xs: seq<T>, p: T -> bool)
    ensures IsSubseq(Filter(xs, p), xs)
  {
    if xs != [] {
      var init := xs[..|xs| - 1];
      var x := xs[|xs| - 1];
      FilterIsSubseq(init, p);
      assert init + [x] == xs;
      if p(x) {
        assert Filter(xs, p) == Filter(init, p) + [x];
        SubseqBoth(Filter(init, p), init, x);
      } else {
        assert Filter(xs, p) == Filter(init, p);
        SubseqExtend(Filter(init, p), init, x);
      }
    }
  }

  /** Filtering distributes over concatenation. */
  lemma {:induction false} FilterAppend<T>(xs: seq<T>, ys: seq<T>, p: T -> bool)
    ensures Filter(xs + ys, p) == Filter(xs, p) + Filter(ys, p)
    decreases |ys|
  {
    if ys != [] {
      var zs := xs + ys;
      assert zs[..|zs| - 1] == xs + ys[..|ys| - 1];
      FilterAppend(xs, ys[..|ys| - 1], p);
    } else {
      assert xs + ys == xs;
    }
  }

  /** Every element that passes is kept. */
  lemma {:induction false} FilterKeeps<T>(xs: seq<T>, p: T -> bool, i: nat)
    requires i < |xs| && p(xs[i])
    ensures xs[i] in Filter(xs, p)
  {
    if i < |xs| - 1 {
      FilterKeeps(xs[..|xs| - 1], p, i);
    }
  }

  /** A filter and its complement split the sequence: nothing is lost or duplicated. */
  lemma {:induction false} FilterPartition<T>(xs: seq<T>, p: T -> bool, q: T -> bool)
    requires forall x :: q(x) == !p(x)
    ensures multiset(Filter(xs, p)) + multiset(Filter(xs, q)) == multiset(xs)
  {
    if xs != [] {
      var init := xs[..|xs| - 1];
      var x := xs[|xs| - 1];
      FilterPartition(init, p, q);
      assert init + [x] == xs;
      if p(x) {
        assert Filter(xs, p) == Filter(init, p) + [x];
        assert Filter(xs, q) == Filter(init, q);
      } else {
        assert Filter(xs, p) == Filter(init, p);
        assert Filter(xs, q) == Filter(init, q) + [x];
      }
    }
  }

  /** Every element kept by a subsequence comes from the longer sequence. */
  lemma {:induction false} SubseqMembers<T>(xs: seq<T>, ys: seq<T>, x: T)
    requires IsSubseq(xs, ys) && x in xs
    ensures x in ys
    decreases |ys|
  {
    var ys' := ys[..|ys| - 1];
    if xs != [] && xs[|xs| - 1] == ys[|ys| - 1] {
      var xs' := xs[..|xs| - 1];
      if x != xs[|xs| - 1] {
        assert x in xs';
        SubseqMembers(xs', ys', x);
      }
    } else {
      SubseqMembers(xs, ys', x);
    }
  }

  /** One step of a filter: the next element is kept or dropped. */
  lemma SubseqStep<T>(xs: seq<T>, ys: seq<T>, y: T, keep: bool)
    requires IsSubseq(xs, ys)
    ensures IsSubseq(xs + (if keep then [y] else []), ys + [y])
  {
    if keep { SubseqBoth(xs, ys, y); } else { assert xs + [] == xs; SubseqExtend(xs, ys, y); }
  }
  /** The same step, for a sequence given with its last element split off. */
  lemma SubseqStepLast<T>(xs: seq<T>, ys: seq<T>, out: seq<T>, keep: bool)
    requires ys != [] && IsSubseq(xs, ys[..|ys| - 1])
    requires out == xs + (if keep then [ys[|ys| - 1]] else [])
    ensures IsSubseq(out, ys)
  {
    SubseqStep(xs, ys[..|ys| - 1], ys[|ys| - 1], keep);
    assert ys[..|ys| - 1] + [ys[|ys| - 1]] == ys;
  }


  lemma {:induction false} SubseqRefl<T>(xs: seq<T>)
    ensures IsSubseq(xs, xs)
  {
    if xs != [] {
      SubseqRefl(xs[..|xs| - 1]);
    }
  }

  lemma {:induction false} SubseqAppend<T>(xs: seq<T>, ys: seq<T>, zs: seq<T>)
    requires IsSubseq(xs, ys)
    ensures IsSubseq(xs + zs, ys + zs)
  {
    if zs != [] {
      var init := zs[..|zs| - 1];
      var z := zs[|zs| - 1];
      SubseqAppend(xs, ys, init);
      SubseqBoth(xs + init, ys + init, z);
      assert xs + init + [z] == xs + zs;
      assert ys + init + [z] == ys + zs;
    } else {
      assert xs + [] == xs && ys + [] == ys;
    }
  }

  /** Leaving out one element gives a subsequence. */
  lemma {:induction false} DropOneIsSubseq<T>(xs: seq<T>, i: nat)
    requires i < |xs|
    ensures IsSubseq(xs[..i] + xs[i + 1..], xs)
    decreases |xs|
  {
    var last := |xs| - 1;
    var ys := xs[..last];
    assert ys + [xs[last]] == xs;
    if i == last {
      SubseqRefl(ys);
      SubseqExtend(ys, ys, xs[last]);
      assert xs[..i] + xs[i + 1..] == ys;
    } else {
      DropOneIsSubseq(ys, i);
      SubseqBoth(ys[..i] + ys[i + 1..], ys, xs[last]);
      assert ys[..i] + ys[i + 1..] + [xs[last]] == xs[..i] + xs[i + 1..];
    }
  }

  /** Subsequences compose. */
  lemma {:induction false} SubseqTrans<T>(xs: seq<T>, ys: seq<T>, zs: seq<T>)
    requires IsSubseq(xs, ys) && IsSubseq(ys, zs)
    ensures IsSubseq(xs, zs)
    decreases |zs|
  {
    if zs != [] {
      var zs' := zs[..|zs| - 1];
      var z := zs[|zs| - 1];
      assert zs' + [z] == zs;
      if ys != [] && ys[|ys| - 1] == z {
        var ys' := ys[..|ys| - 1];
        if xs != [] && xs[|xs| - 1] == z {
          SubseqTrans(xs[..|xs| - 1], ys', zs');
        } else {
          SubseqTrans(xs, ys', zs');
          SubseqExtend(xs, zs', z);
        }
      } else {
        SubseqTrans(xs, ys, zs');
        SubseqExtend(xs, zs', z);
      }
    }
  }
}
