/** `camelName` of lib/upgrader.js: the method name a legacy route name becomes,
    such as `my-route` becoming `myRoute`. */
module Camel {
  import opened Text

  /** Whether the alphanumeric at position `i` comes out upper-cased: an upper-case
      letter past the first position, or any character right after a character that
      is not alphanumeric. */
  predicate UpAt(s: string, i: nat)
    requires i < |s|
  {
    i > 0 && (IsAsciiUpper(s[i]) || !IsAsciiAlnum(s[i - 1]))
  }

  /** What `camelName(s)` returns, position by position. */
  function CamelRef(s: string): string {
    if s == [] then []
    else
      var i := |s| - 1;
      CamelRef(s[..i]) + (if !IsAsciiAlnum(s[i]) then [] else if UpAt(s, i) then [ToUpper(s[i])] else [ToLower(s[i])])
  }

  /** The loop of the source: `nextUp` remembers that the previous character was not
      alphanumeric, or is raised by an upper-case letter. */
  method CamelName(s: string) returns (n: string)
    ensures n == CamelRef(s)
  {
    n := "";
    var nextUp := false;
    for i := 0 to |s|
      invariant n == CamelRef(s[..i])
      invariant nextUp <==> i > 0 && !IsAsciiAlnum(s[i - 1])
    {
      var c := s[i];
      assert s[..i + 1][..i] == s[..i];
      if i > 0 && IsAsciiUpper(c) {
        nextUp := true;
      }
      if IsAsciiAlnum(c) {
        if nextUp {
          n := n + [ToUpper(c)];
          nextUp := false;
        } else {
          n := n + [ToLower(c)];
        }
      } else {
        nextUp := true;
      }
    }
    assert s[..|s|] == s;
  }

  /** The ASCII alphanumerics of `s`, in order. */
  function Alnums(s: string): (r: string)
    ensures forall k :: 0 <= k < |r| ==> IsAsciiAlnum(r[k])
  {
    if s == [] then [] else Alnums(s[..|s| - 1]) + (if IsAsciiAlnum(s[|s| - 1]) then [s[|s| - 1]] else [])
  }

  /** Two strings equal up to ASCII case. */
  predicate SameLetters(a: string, b: string) {
    |a| == |b| && forall k :: 0 <= k < |a| ==> ToLower(a[k]) == ToLower(b[k])
  }

  /** `camelName` keeps exactly the alphanumerics of its input, in order, changing
      only their case. */
  lemma {:induction false} CamelKeepsAlnums(s: string)
    ensures SameLetters(CamelRef(s), Alnums(s))
    ensures forall k :: 0 <= k < |CamelRef(s)| ==> IsAsciiAlnum(CamelRef(s)[k])
  {
    if s != [] {
      var i := |s| - 1;
      CamelKeepsAlnums(s[..i]);
      CaseRoundTrip(s[i]);
    }
  }

  /** The name is empty exactly when the input has no alphanumeric; this is when
      `route` declines a statement. */
  lemma CamelEmpty(s: string)
    ensures CamelRef(s) == [] <==> forall i :: 0 <= i < |s| ==> !IsAsciiAlnum(s[i])
  {
    CamelKeepsAlnums(s);
    AlnumsEmpty(s);
  }

  lemma {:induction false} AlnumsEmpty(s: string)
    ensures Alnums(s) == [] <==> forall i :: 0 <= i < |s| ==> !IsAsciiAlnum(s[i])
  {
    if s != [] {
      AlnumsEmpty(s[..|s| - 1]);
      assert forall i :: 0 <= i < |s| - 1 ==> s[..|s| - 1][i] == s[i];
    }
  }

  /** A name already in camel case (alphanumerics only, not starting upper-case)
      is left as it is. */
  lemma {:induction false} CamelFixesCamelCase(s: string)
    requires forall i :: 0 <= i < |s| ==> IsAsciiAlnum(s[i])
    requires s == [] || !IsAsciiUpper(s[0])
    ensures CamelRef(s) == s
  {
    if s != [] {
      var i := |s| - 1;
      CamelFixesCamelCase(s[..i]);
      assert s == s[..i] + [s[i]];
    }
  }

  /** The example of the source's comment: `my-route` becomes `myRoute`. */
  lemma MyRoute()
    ensures CamelRef("my-route") == "myRoute"
  {
    assert "my-route"[..7] == "my-rout";
    assert "my-rout"[..6] == "my-rou";
    assert "my-rou"[..5] == "my-ro";
    assert "my-ro"[..4] == "my-r";
    assert "my-r"[..3] == "my-";
    assert "my-"[..2] == "my";
    assert "my"[..1] == "m";
    assert "m"[..0] == "";
  }
}
