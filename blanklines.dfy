/** The blank-line guard of lib/upgrader.js. Before the module is re-generated every
    empty or whitespace-only line is replaced by a marker comment, which the printer
    keeps; afterwards the markers are deleted, leaving the blank lines behind. */
module BlankLines {
  import opened Text

  /** A random comment that a module is not expected to contain. */
  const Marker := "// X0k7FEu5a6!bC6mV"

  /** An empty line, or one that `/^\s+$/` matches. */
  predicate Blank(line: string) {
    forall i :: 0 <= i < |line| ==> IsJsSpace(line[i])
  }

  function ProtectLine(line: string): string {
    if Blank(line) then Marker else line
  }

  function ProtectLines(lines: seq<string>): (r: seq<string>)
    ensures |r| == |lines|
    ensures forall i :: 0 <= i < |lines| ==> r[i] == ProtectLine(lines[i])
  {
    if lines == [] then [] else [ProtectLine(lines[0])] + ProtectLines(lines[1..])
  }

  /** The count of spaces that `s` begins with. */
  function LeadingSpaces(s: string): (k: nat)
    ensures k <= |s|
    ensures forall i :: 0 <= i < k ==> s[i] == ' '
    ensures k == |s| || s[k] != ' '
  {
    if s != [] && s[0] == ' ' then 1 + LeadingSpaces(s[1..]) else 0
  }

  /** `s.replace(/\n +\n/g, '\n\n')`: each leftmost match is replaced and the scan
      resumes after it. */
  function CollapseSpaceLines(s: string): string
    decreases |s|
  {
    if s == [] then []
    else
      var k := LeadingSpaces(s[1..]);
      if s[0] == '\n' && k >= 1 && 1 + k < |s| && s[1 + k] == '\n' then "\n\n" + CollapseSpaceLines(s[k + 2..])
      else [s[0]] + CollapseSpaceLines(s[1..])
  }

  /** `protectBlankLines(code)`. */
  function Protect(code: string): string {
    CollapseSpaceLines(JoinWith(ProtectLines(SplitOn(code, '\n')), "\n"))
  }

  /** `code.split(Marker).join('')`: every occurrence of the marker, found left to
      right, is deleted. */
  function DeleteMarkers(s: string): string
    decreases |s|
  {
    if |s| < |Marker| then s
    else if s[..|Marker|] == Marker then DeleteMarkers(s[|Marker|..])
    else [s[0]] + DeleteMarkers(s[1..])
  }

  /** `restoreBlankLines(code)`. */
  function Restore(code: string): string {
    DeleteMarkers(code)
  }

  /** `part` occurs in `s` at offset `a`. */
  predicate OccursAt(s: string, a: int, part: string) {
    0 <= a <= |s| - |part| && s[a..a + |part|] == part
  }

  predicate ContainsMarker(s: string) {
    exists i :: 0 <= i <= |s| && OccursAt(s, i, Marker)
  }

  // ---------------------------------------------------------------------------
  // The trailing `replace` of protectBlankLines changes nothing
  // ---------------------------------------------------------------------------

  /** No line strictly between two newlines consists of spaces only. */
  predicate NoSpaceLine(s: string) {
    forall i, j :: 0 <= i < j < |s| && i + 1 < j && s[i] == '\n' && s[j] == '\n' ==>
      exists m :: i < m < j && s[m] != ' '
  }

  lemma {:induction false} CollapseNoOp(s: string)
    requires NoSpaceLine(s)
    ensures CollapseSpaceLines(s) == s
    decreases |s|
  {
    if s != [] {
      var k := LeadingSpaces(s[1..]);
      if s[0] == '\n' && k >= 1 && 1 + k < |s| && s[1 + k] == '\n' {
        assert false;
      }
      assert NoSpaceLine(s[1..]) by {
        forall i, j | 0 <= i < j < |s[1..]| && i + 1 < j && s[1..][i] == '\n' && s[1..][j] == '\n'
          ensures exists m :: i < m < j && s[1..][m] != ' '
        {
          var m :| i + 1 < m < j + 1 && s[m] != ' ';
          assert s[1..][m - 1] == s[m];
        }
      }
      CollapseNoOp(s[1..]);
      assert s == [s[0]] + s[1..];
    }
  }

  /** A piece without newlines between two newlines is a line. */
  lemma LineInMiddle(a: string, b: string, mid: string, c: string)
    requires '\n' !in mid && b == mid + ['\n'] + c
    ensures |SplitOn(a, '\n')| < |SplitOn(a + ['\n'] + b, '\n')|
    ensures SplitOn(a + ['\n'] + b, '\n')[|SplitOn(a, '\n')|] == mid
  {
    SplitOnNoSep(mid, '\n');
    SplitOnAppend(mid, c, '\n');
    SplitOnAppend(a, b, '\n');
  }

  /** The text between two neighbouring newlines is one of the lines: the one
      whose number is the count of lines before it. */
  function LineIndex(s: string, i: nat, j: nat): (k: nat)
    requires i < j < |s| && s[i] == '\n' && s[j] == '\n' && '\n' !in s[i + 1..j]
    ensures k < |SplitOn(s, '\n')| && SplitOn(s, '\n')[k] == s[i + 1..j]
  {
    var a, b, mid, c := s[..i], s[i + 1..], s[i + 1..j], s[j + 1..];
    assert b == mid + ['\n'] + c;
    assert s == a + ['\n'] + b;
    LineInMiddle(a, b, mid, c);
    |SplitOn(a, '\n')|
  }

  lemma MarkerHasNoNewline()
    ensures '\n' !in Marker
    ensures forall i :: 0 <= i < |Marker| ==> !IsJsSpace(Marker[i]) || Marker[i] == ' '
    ensures Marker[0] == '/'
  {
  }

  /** Two newlines of the joined protected lines have a non-space between them. */
  lemma NonSpaceBetween(lines: seq<string>, i: nat, j: nat)
    requires forall k :: 0 <= k < |lines| ==> '\n' !in lines[k]
    requires SplitOn(JoinWith(ProtectLines(lines), "\n"), '\n') == ProtectLines(lines)
    requires var s := JoinWith(ProtectLines(lines), "\n");
      i + 1 < j < |s| && s[i] == '\n' && s[j] == '\n'
    ensures var s := JoinWith(ProtectLines(lines), "\n");
      exists m :: i < m < j && s[m] != ' '
  {
    var p := ProtectLines(lines);
    var s := JoinWith(p, "\n");
    var j' := FirstNewline(s, i + 1, j);
    if j' == i + 1 {
      assert s[i + 1] != ' ';
    } else {
      var line := s[i + 1..j'];
      var k := LineIndex(s, i, j');
      if Blank(lines[k]) {
        MarkerHasNoNewline();
        assert s[i + 1] == line[0] == '/';
      } else {
        var c :| 0 <= c < |lines[k]| && !IsJsSpace(lines[k][c]);
        assert s[i + 1 + c] == line[c];
      }
    }
  }

  /** Joined protected lines have no run of spaces between two newlines. */
  lemma ProtectedHasNoSpaceLine(lines: seq<string>)
    requires |lines| >= 1 && forall k :: 0 <= k < |lines| ==> '\n' !in lines[k]
    ensures NoSpaceLine(JoinWith(ProtectLines(lines), "\n"))
  {
    var p := ProtectLines(lines);
    var s := JoinWith(p, "\n");
    MarkerHasNoNewline();
    assert forall k :: 0 <= k < |p| ==> '\n' !in p[k];
    SplitJoin(p, '\n');
    forall i, j | 0 <= i < j < |s| && i + 1 < j && s[i] == '\n' && s[j] == '\n'
      ensures exists m :: i < m < j && s[m] != ' '
    {
      NonSpaceBetween(lines, i, j);
    }
  }

  /** The first newline at or after `from`, below a known newline at `j`. */
  function FirstNewline(s: string, from: nat, j: nat): (r: nat)
    requires from <= j < |s| && s[j] == '\n'
    ensures from <= r <= j && s[r] == '\n' && '\n' !in s[from..r]
    decreases j - from
  {
    if s[from] == '\n' then from
    else
      var r := FirstNewline(s, from + 1, j);
      assert s[from..r] == [s[from]] + s[from + 1..r];
      r
  }

  /** The trailing `replace` of `protectBlankLines` never finds a match: every
      whitespace-only line has become the marker already. */
  lemma ProtectIsJoin(code: string)
    ensures Protect(code) == JoinWith(ProtectLines(SplitOn(code, '\n')), "\n")
  {
    ProtectedHasNoSpaceLine(SplitOn(code, '\n'));
    CollapseNoOp(JoinWith(ProtectLines(SplitOn(code, '\n')), "\n"));
  }

  /** `protectBlankLines` keeps the number of lines, keeps every line that is not
      blank and turns every blank one into the marker. */
  lemma ProtectLinewise(code: string)
    ensures |SplitOn(Protect(code), '\n')| == |SplitOn(code, '\n')|
    ensures forall k :: 0 <= k < |SplitOn(code, '\n')| ==>
      SplitOn(Protect(code), '\n')[k] == if Blank(SplitOn(code, '\n')[k]) then Marker else SplitOn(code, '\n')[k]
  {
    ProtectIsJoin(code);
    var p := ProtectLines(SplitOn(code, '\n'));
    MarkerHasNoNewline();
    SplitJoin(p, '\n');
  }

  // ---------------------------------------------------------------------------
  // Restoring
  // ---------------------------------------------------------------------------

  /** A marker at the front of `x + "\n" + y` lies inside `x`. */
  lemma MarkerBeforeNewline(x: string, y: string)
    requires |x + ['\n'] + y| >= |Marker| && (x + ['\n'] + y)[..|Marker|] == Marker
    ensures |x| >= |Marker| && x[..|Marker|] == Marker
  {
    MarkerHasNoNewline();
    var s := x + ['\n'] + y;
    assert s[|x|] == '\n';
    if |x| < |Marker| {
      assert false;
    }
    assert x[..|Marker|] == s[..|Marker|];
  }

  /** The marker can never straddle a newline, so deleting markers works line by
      line. */
  lemma {:induction false} DeleteMarkersAroundNewline(x: string, y: string)
    ensures DeleteMarkers(x + ['\n'] + y) == DeleteMarkers(x) + ['\n'] + DeleteMarkers(y)
    decreases |x|
  {
    var s := x + ['\n'] + y;
    if |s| < |Marker| {
      assert DeleteMarkers(s) == s;
      if |x| >= |Marker| {
        assert false;
      }
    } else if s[..|Marker|] == Marker {
      MarkerBeforeNewline(x, y);
      assert s[|Marker|..] == x[|Marker|..] + ['\n'] + y;
      DeleteMarkersAroundNewline(x[|Marker|..], y);
    } else if x == [] {
      assert s[1..] == y;
    } else {
      assert s[1..] == x[1..] + ['\n'] + y;
      DeleteMarkersAroundNewline(x[1..], y);
      if |x| >= |Marker| {
        assert x[..|Marker|] == s[..|Marker|];
      }
    }
  }

  lemma {:induction false} DeleteMarkersAbsent(s: string)
    requires !ContainsMarker(s)
    ensures DeleteMarkers(s) == s
    decreases |s|
  {
    if |s| >= |Marker| {
      assert !OccursAt(s, 0, Marker);
      assert !ContainsMarker(s[1..]) by {
        if ContainsMarker(s[1..]) {
          var i :| 0 <= i <= |s[1..]| && OccursAt(s[1..], i, Marker);
          assert s[i + 1..i + 1 + |Marker|] == s[1..][i..i + |Marker|];
          assert OccursAt(s, i + 1, Marker);
        }
      }
      DeleteMarkersAbsent(s[1..]);
      assert s == [s[0]] + s[1..];
    }
  }

  lemma DeleteMarkerAlone()
    ensures DeleteMarkers(Marker) == ""
  {
    assert Marker[|Marker|..] == "";
  }

  function RestoreLine(line: string): string {
    if Blank(line) then "" else line
  }

  function RestoreLines(lines: seq<string>): (r: seq<string>)
    ensures |r| == |lines|
    ensures forall i :: 0 <= i < |lines| ==> r[i] == RestoreLine(lines[i])
  {
    if lines == [] then [] else [RestoreLine(lines[0])] + RestoreLines(lines[1..])
  }

  lemma {:induction false} DeleteMarkersJoin(lines: seq<string>)
    requires |lines| >= 1 && forall k :: 0 <= k < |lines| ==> !ContainsMarker(lines[k])
    ensures DeleteMarkers(JoinWith(ProtectLines(lines), "\n")) == JoinWith(RestoreLines(lines), "\n")
  {
    var l := lines[0];
    var head := DeleteMarkers(ProtectLine(l));
    assert head == RestoreLine(l) by {
      if Blank(l) { DeleteMarkerAlone(); } else { DeleteMarkersAbsent(l); }
    }
    if |lines| > 1 {
      var rest := lines[1..];
      DeleteMarkersJoin(rest);
      assert ProtectLines(lines) == [ProtectLine(l)] + ProtectLines(rest);
      assert RestoreLines(lines) == [RestoreLine(l)] + RestoreLines(rest);
      JoinWithCons(ProtectLine(l), ProtectLines(rest), "\n");
      JoinWithCons(RestoreLine(l), RestoreLines(rest), "\n");
      DeleteMarkersAroundNewline(ProtectLine(l), JoinWith(ProtectLines(rest), "\n"));
    }
  }

  /** An occurrence in the tail is an occurrence in the whole. */
  lemma OccursInTail(s: string, a: int, part: string)
    requires s != [] && OccursAt(s[1..], a, part)
    ensures OccursAt(s, a + 1, part)
  {
    assert s[a + 1..a + 1 + |part|] == s[1..][a..a + |part|];
  }

  /** A line of a text is part of the text. */
  lemma {:induction false} LinesAreInText(s: string, k: nat)
    requires k < |SplitOn(s, '\n')|
    ensures exists a :: OccursAt(s, a, SplitOn(s, '\n')[k])
  {
    if |s| > 0 {
      var rest := SplitOn(s[1..], '\n');
      if s[0] == '\n' {
        if k > 0 {
          LinesAreInText(s[1..], k - 1);
          var a :| OccursAt(s[1..], a, rest[k - 1]);
          OccursInTail(s, a, rest[k - 1]);
          assert SplitOn(s, '\n')[k] == rest[k - 1];
        } else {
          assert OccursAt(s, 0, "");
        }
      } else if k == 0 {
        FirstLineIsPrefix(s[1..]);
        assert s[0..1 + |rest[0]|] == [s[0]] + rest[0];
        assert OccursAt(s, 0, SplitOn(s, '\n')[0]);
      } else {
        LinesAreInText(s[1..], k);
        var a :| OccursAt(s[1..], a, rest[k]);
        OccursInTail(s, a, rest[k]);
        assert SplitOn(s, '\n')[k] == rest[k];
      }
    } else {
      assert SplitOn(s, '\n')[k] == "";
      assert OccursAt(s, 0, SplitOn(s, '\n')[k]);
    }
  }

  lemma {:induction false} FirstLineIsPrefix(s: string)
    ensures StartsWith(s, SplitOn(s, '\n')[0])
  {
    if |s| > 0 && s[0] != '\n' {
      FirstLineIsPrefix(s[1..]);
    }
  }

  /** An occurrence inside an occurrence. */
  lemma OccursTrans(s: string, a: int, line: string, i: int, part: string)
    requires OccursAt(s, a, line) && OccursAt(line, i, part)
    ensures OccursAt(s, a + i, part)
  {
    forall t | 0 <= t < |part| ensures s[a + i + t] == part[t] {
      assert part[t] == line[i + t];
      assert line[i + t] == s[a + i + t];
    }
    assert s[a + i..a + i + |part|] == part;
  }

  /** Text without the marker has lines without the marker. */
  lemma LinesLackMarker(s: string)
    requires !ContainsMarker(s)
    ensures forall k :: 0 <= k < |SplitOn(s, '\n')| ==> !ContainsMarker(SplitOn(s, '\n')[k])
  {
    forall k | 0 <= k < |SplitOn(s, '\n')| ensures !ContainsMarker(SplitOn(s, '\n')[k]) {
      var line := SplitOn(s, '\n')[k];
      LinesAreInText(s, k);
      var a :| OccursAt(s, a, line);
      if ContainsMarker(line) {
        var i :| 0 <= i <= |line| && OccursAt(line, i, Marker);
        OccursTrans(s, a, line, i, Marker);
      }
    }
  }

  /** The round trip: for code without the marker, restoring after protecting gives
      the code back with every whitespace-only line emptied. */
  lemma RestoreProtect(code: string)
    requires !ContainsMarker(code)
    ensures Restore(Protect(code)) == JoinWith(RestoreLines(SplitOn(code, '\n')), "\n")
  {
    ProtectIsJoin(code);
    LinesLackMarker(code);
    DeleteMarkersJoin(SplitOn(code, '\n'));
  }

  /** Code whose blank lines are all empty comes back unchanged. */
  lemma RestoreProtectIdentity(code: string)
    requires !ContainsMarker(code)
    requires forall k :: 0 <= k < |SplitOn(code, '\n')| ==>
      (Blank(SplitOn(code, '\n')[k]) ==> SplitOn(code, '\n')[k] == [])
    ensures Restore(Protect(code)) == code
  {
    RestoreProtect(code);
    var lines := SplitOn(code, '\n');
    assert RestoreLines(lines) == lines;
    JoinSplit(code, '\n');
  }
}
