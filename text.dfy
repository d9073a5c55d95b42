/** String utilities that JavaScript provides built in: `split` on one character,
    `join`, `trim`, `startsWith`/`endsWith`, number-to-string conversion and the
    character classes used by the regular expressions of the source. */
module Text {

  /** ECMAScript WhiteSpace and LineTerminator code points: what `\s` matches and
      what `String.prototype.trim` removes. */
  predicate IsJsSpace(c: char) {
    c == ' ' || c == '\t' || c == '\n' || c == '\r' || c == '\U{000B}' || c == '\U{000C}'
    || c == '\U{00A0}' || c == '\U{1680}' || ('\U{2000}' <= c <= '\U{200A}')
    || c == '\U{2028}' || c == '\U{2029}' || c == '\U{202F}' || c == '\U{205F}'
    || c == '\U{3000}' || c == '\U{FEFF}'
  }

  predicate IsAsciiUpper(c: char) { 'A' <= c <= 'Z' }
  predicate IsAsciiLower(c: char) { 'a' <= c <= 'z' }
  predicate IsAsciiDigit(c: char) { '0' <= c <= '9' }
  /** The class `[A-Za-z0-9]`. */
  predicate IsAsciiAlnum(c: char) { IsAsciiUpper(c) || IsAsciiLower(c) || IsAsciiDigit(c) }
  /** The class `\w`, that is `[A-Za-z0-9_]`. */
  predicate IsWordChar(c: char) { IsAsciiAlnum(c) || c == '_' }

  /** `toUpperCase` restricted to the characters it is applied to here (ASCII). */
  function ToUpper(c: char): (u: char)
    ensures IsAsciiLower(c) ==> IsAsciiUpper(u)
    ensures !IsAsciiLower(c) ==> u == c
  {
    if IsAsciiLower(c) then (c as int - 32) as char else c
  }

  /** `toLowerCase` restricted to ASCII. */
  function ToLower(c: char): (l: char)
    ensures IsAsciiUpper(c) ==> IsAsciiLower(l)
    ensures !IsAsciiUpper(c) ==> l == c
  {
    if IsAsciiUpper(c) then (c as int + 32) as char else c
  }

  lemma CaseRoundTrip(c: char)
    ensures IsAsciiAlnum(c) ==> IsAsciiAlnum(ToUpper(c)) && IsAsciiAlnum(ToLower(c))
    ensures ToLower(ToUpper(c)) == ToLower(c)
  {
  }

  predicate StartsWith(s: string, prefix: string) {
    |prefix| <= |s| && s[..|prefix|] == prefix
  }

  predicate EndsWith(s: string, suffix: string) {
    |suffix| <= |s| && s[|s| - |suffix|..] == suffix
  }

  function CountChar(s: string, c: char): (n: nat)
    ensures n <= |s|
  {
    if s == [] then 0 else (if s[0] == c then 1 else 0) + CountChar(s[1..], c)
  }

  lemma CountCharAppend(a: string, b: string, c: char)
    ensures CountChar(a + b, c) == CountChar(a, c) + CountChar(b, c)
  {
    if a == [] {
      assert a + b == b;
    } else {
      assert (a + b)[1..] == a[1..] + b;
      CountCharAppend(a[1..], b, c);
    }
  }

  /** `s.split(sep)` for a one-character separator: never empty, and no piece
      contains the separator. */
  function SplitOn(s: string, sep: char): (parts: seq<string>)
    ensures |parts| >= 1
    ensures forall i :: 0 <= i < |parts| ==> sep !in parts[i]
  {
    if |s| == 0 then [""]
    else
      var rest := SplitOn(s[1..], sep);
      if s[0] == sep then [""] + rest
      else [[s[0]] + rest[0]] + rest[1..]
  }

  /** `parts.join(sep)`. */
  function JoinWith(parts: seq<string>, sep: string): string {
    if |parts| == 0 then ""
    else if |parts| == 1 then parts[0]
    else parts[0] + sep + JoinWith(parts[1..], sep)
  }

  lemma JoinWithCons(p: string, rest: seq<string>, sep: string)
    requires |rest| >= 1
    ensures JoinWith([p] + rest, sep) == p + sep + JoinWith(rest, sep)
  {
    assert ([p] + rest)[1..] == rest;
  }

  /** Joining the pieces of a split gives the original string back. */
  lemma {:induction false} JoinSplit(s: string, sep: char)
    ensures JoinWith(SplitOn(s, sep), [sep]) == s
  {
    if |s| > 0 {
      var rest := SplitOn(s[1..], sep);
      JoinSplit(s[1..], sep);
      if s[0] == sep {
        JoinWithCons("", rest, [sep]);
        assert s == [sep] + s[1..];
      } else if |rest| == 1 {
        assert s == [s[0]] + s[1..];
      } else {
        JoinWithCons(rest[0], rest[1..], [sep]);
        assert rest == [rest[0]] + rest[1..];
        JoinWithCons([s[0]] + rest[0], rest[1..], [sep]);
        assert s == [s[0]] + s[1..];
      }
    }
  }

  /** Splitting around one separator splits each side independently. */
  lemma {:induction false} SplitOnAppend(a: string, b: string, sep: char)
    ensures SplitOn(a + [sep] + b, sep) == SplitOn(a, sep) + SplitOn(b, sep)
  {
    if a == [] {
      assert a + [sep] + b == [sep] + b;
      assert ([sep] + b)[1..] == b;
    } else {
      assert (a + [sep] + b)[1..] == a[1..] + [sep] + b;
      assert (a + [sep] + b)[0] == a[0];
      SplitOnAppend(a[1..], b, sep);
    }
  }

  /** A piece without the separator splits to itself. */
  lemma {:induction false} SplitOnNoSep(s: string, sep: char)
    requires sep !in s
    ensures SplitOn(s, sep) == [s]
  {
    if |s| > 0 {
      SplitOnNoSep(s[1..], sep);
      assert s == [s[0]] + s[1..];
    }
  }

  /** Splitting a join of separator-free pieces gives the pieces back. */
  lemma {:induction false} SplitJoin(parts: seq<string>, sep: char)
    requires |parts| >= 1
    requires forall i :: 0 <= i < |parts| ==> sep !in parts[i]
    ensures SplitOn(JoinWith(parts, [sep]), sep) == parts
  {
    if |parts| == 1 {
      SplitOnNoSep(parts[0], sep);
    } else {
      SplitJoin(parts[1..], sep);
      SplitOnNoSep(parts[0], sep);
      SplitOnAppend(parts[0], JoinWith(parts[1..], [sep]), sep);
      assert parts == [parts[0]] + parts[1..];
    }
  }

  /** The number of pieces is one more than the number of separators. */
  lemma {:induction false} SplitOnCount(s: string, sep: char)
    ensures |SplitOn(s, sep)| == CountChar(s, sep) + 1
  {
    if |s| > 0 {
      SplitOnCount(s[1..], sep);
    }
  }

  function TrimStart(s: string): (r: string)
    ensures |r| <= |s| && r == s[|s| - |r|..]
    ensures r == [] || !IsJsSpace(r[0])
    ensures forall i :: 0 <= i < |s| - |r| ==> IsJsSpace(s[i])
  {
    if s != [] && IsJsSpace(s[0]) then TrimStart(s[1..]) else s
  }

  function TrimEnd(s: string): (r: string)
    ensures |r| <= |s| && r == s[..|r|]
    ensures r == [] || !IsJsSpace(r[|r| - 1])
    ensures forall i :: |r| <= i < |s| ==> IsJsSpace(s[i])
  {
    if s != [] && IsJsSpace(s[|s| - 1]) then TrimEnd(s[..|s| - 1]) else s
  }

  /** `String.prototype.trim`. */
  function Trim(s: string): string {
    TrimEnd(TrimStart(s))
  }

  /** `r` is `s` without a whitespace prefix and suffix, and begins and ends with a
      non-space. */
  ghost predicate IsTrimOf(r: string, s: string) {
    (exists a, b :: (0 <= a <= b <= |s| && r == s[a..b]
                     && (forall i :: 0 <= i < a ==> IsJsSpace(s[i]))
                     && (forall i :: b <= i < |s| ==> IsJsSpace(s[i]))))
    && (r == [] || (!IsJsSpace(r[0]) && !IsJsSpace(r[|r| - 1])))
  }

  /** `trim` removes a whitespace prefix and suffix and nothing else. */
  lemma TrimShape(s: string)
    ensures IsTrimOf(Trim(s), s)
  {
    var t := TrimStart(s);
    var u := TrimEnd(t);
    var a := |s| - |t|;
    var b := a + |u|;
    assert u == s[a..b];
    forall i | b <= i < |s| ensures IsJsSpace(s[i]) {
      assert s[i] == t[i - a];
    }
    if u != [] {
      assert u[0] == t[0];
    }
    TrimOfAt(u, s, a, b);
  }

  lemma TrimOfAt(r: string, s: string, a: nat, b: nat)
    requires a <= b <= |s| && r == s[a..b]
    requires forall i :: 0 <= i < a ==> IsJsSpace(s[i])
    requires forall i :: b <= i < |s| ==> IsJsSpace(s[i])
    requires r == [] || (!IsJsSpace(r[0]) && !IsJsSpace(r[|r| - 1]))
    ensures IsTrimOf(r, s)
  {
  }

  /** Trimming twice is trimming once. */
  lemma TrimIdempotent(s: string)
    ensures Trim(Trim(s)) == Trim(s)
  {
    var r := Trim(s);
    TrimShape(s);
    if r != [] {
      assert TrimStart(r) == r;
      assert TrimEnd(r) == r;
    }
  }

  function DigitChar(d: nat): (c: char)
    requires d < 10
    ensures IsAsciiDigit(c)
  {
    ('0' as int + d) as char
  }

  function NatToString(n: nat): (s: string)
    ensures |s| >= 1
    ensures forall i :: 0 <= i < |s| ==> IsAsciiDigit(s[i])
  {
    if n < 10 then [DigitChar(n)] else NatToString(n / 10) + [DigitChar(n % 10)]
  }

  /** `String(n)` for an integer. */
  function IntToString(n: int): string {
    if n < 0 then "-" + NatToString(-n) else NatToString(n)
  }
}
