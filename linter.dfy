/** lib/linter.js: the pure helpers of the linter and the `once` bookkeeping of
    module linting. Globbing, file reads, parsing and `console.error` are outside the
    model: module linting returns the list of reports it would print. */
module Linter {
  import opened Wrappers
  import opened Text

  // ---------------------------------------------------------------------------
  // indexToLine
  // ---------------------------------------------------------------------------

  /** The line containing a source offset, with 1-based line and column numbers. */
  datatype Line = Line(text: string, lineNumber: nat, columnNumber: nat)

  const IndexNotFound := "Could not find index in string"

  /** The first offset of the line containing offset `i`. */
  function LineStart(src: string, i: nat): (r: nat)
    requires i <= |src|
    ensures r <= i
    ensures '\n' !in src[r..i]
    ensures r == 0 || src[r - 1] == '\n'
  {
    if i == 0 || src[i - 1] == '\n' then i
    else
      var r := LineStart(src, i - 1);
      assert src[r..i] == src[r..i - 1] + [src[i - 1]];
      r
  }

  /** The offset of the newline ending the line that contains offset `i`, or the
      end of the source. */
  function LineEnd(src: string, i: nat): (r: nat)
    requires i <= |src|
    ensures i <= r <= |src|
    ensures '\n' !in src[i..r]
    ensures r == |src| || src[r] == '\n'
    decreases |src| - i
  {
    if i == |src| || src[i] == '\n' then i
    else
      var r := LineEnd(src, i + 1);
      assert src[i..r] == [src[i]] + src[i + 1..r];
      r
  }

  /** What `indexToLine(src, index)` returns or throws. */
  function LineAt(src: string, index: int): (r: Result<Line, string>)
    ensures r.Ok? <==> 0 <= index < |src|
    ensures r.Err? ==> r.error == IndexNotFound
    ensures r.Ok? ==> ('\n' !in r.value.text && r.value.lineNumber >= 1
                       && 1 <= r.value.columnNumber <= |r.value.text| + 1)
  {
    if 0 <= index < |src| then
      var s := LineStart(src, index);
      var e := LineEnd(src, index);
      assert src[s..e] == src[s..index] + src[index..e];
      Ok(Line(src[s..e], 1 + CountChar(src[..index], '\n'), 1 + index - s))
    else Err(IndexNotFound)
  }

  /** The scan as the source writes it: one pass that counts lines and columns up to
      `index` and then collects the rest of that line. */
  method IndexToLine(src: string, index: int) returns (r: Result<Line, string>)
    ensures r == LineAt(src, index)
  {
    var text := "";
    var lineNumber := 1;
    var columnNumber := 1;
    var found := false;
    var i := 0;
    while i < |src|
      invariant 0 <= i <= |src|
      invariant found <==> 0 <= index < i
      invariant !found ==> (text == src[LineStart(src, i)..i]
                            && lineNumber == 1 + CountChar(src[..i], '\n')
                            && columnNumber == 1 + i - LineStart(src, i))
      invariant found ==> (text == src[LineStart(src, index)..i] && '\n' !in src[index..i]
                           && lineNumber == 1 + CountChar(src[..index], '\n')
                           && columnNumber == 1 + index - LineStart(src, index))
    {
      if i == index {
        found := true;
      }
      var c := src[i];
      LineStartNext(src, i);
      if found {
        SliceSnoc(src, LineStart(src, index), i);
        SliceSnoc(src, index, i);
      }
      if c == '\n' {
        if found {
          break;
        }
        lineNumber := lineNumber + 1;
        columnNumber := 1;
        text := "";
      } else {
        if !found {
          columnNumber := columnNumber + 1;
        }
        text := text + [c];
      }
      i := i + 1;
    }
    if found {
      assert LineEnd(src, index) == i by { LineEndAt(src, index, i); }
      r := Ok(Line(text, lineNumber, columnNumber));
    } else {
      r := Err(IndexNotFound);
    }
  }

  /** One character further: a newline starts a new line, anything else extends the
      current one. */
  lemma LineStartNext(src: string, i: nat)
    requires i < |src|
    ensures src[i] == '\n' ==> LineStart(src, i + 1) == i + 1
    ensures src[i] != '\n' ==>
      LineStart(src, i + 1) == LineStart(src, i)
      && src[LineStart(src, i)..i + 1] == src[LineStart(src, i)..i] + [src[i]]
    ensures CountChar(src[..i + 1], '\n') == CountChar(src[..i], '\n') + (if src[i] == '\n' then 1 else 0)
  {
    assert src[..i + 1] == src[..i] + [src[i]];
    CountCharAppend(src[..i], [src[i]], '\n');
  }

  lemma SliceSnoc(s: string, a: nat, b: nat)
    requires a <= b < |s|
    ensures s[a..b + 1] == s[a..b] + [s[b]]
  {
  }

  /** The line end is the first newline at or after the offset. */
  lemma {:induction false} LineEndAt(src: string, i: nat, j: nat)
    requires i <= j <= |src| && '\n' !in src[i..j] && (j == |src| || src[j] == '\n')
    ensures LineEnd(src, i) == j
    decreases j - i
  {
    if i < j {
      assert src[i] == src[i..j][0];
      assert src[i + 1..j] == src[i..j][1..];
      LineEndAt(src, i + 1, j);
    }
  }

  lemma {:induction false} CountCharNone(s: string, c: char)
    ensures CountChar(s, c) == 0 <==> c !in s
  {
    if s != [] {
      CountCharNone(s[1..], c);
      assert s == [s[0]] + s[1..];
    }
  }

  /** The lines before the one starting at `s`. */
  function LinesBefore(src: string, s: nat): seq<string>
    requires s <= |src|
  {
    if s == 0 then [] else SplitOn(src[..s - 1], '\n')
  }

  /** The lines after the one ending at `e`. */
  function LinesAfter(src: string, e: nat): seq<string>
    requires e <= |src|
  {
    if e == |src| then [] else SplitOn(src[e + 1..], '\n')
  }

  /** As many lines precede a line start as there are newlines before it. */
  lemma LinesBeforeCount(src: string, s: nat)
    requires s <= |src| && (s == 0 || src[s - 1] == '\n')
    ensures |LinesBefore(src, s)| == CountChar(src[..s], '\n')
  {
    if s > 0 {
      assert src[..s] == src[..s - 1] + ['\n'];
      CountCharAppend(src[..s - 1], ['\n'], '\n');
      SplitOnCount(src[..s - 1], '\n');
    }
  }

  /** The lines from a line start on: that line, then the lines after it. */
  lemma SplitFrom(src: string, s: nat, e: nat)
    requires s <= e <= |src| && (e == |src| || src[e] == '\n') && '\n' !in src[s..e]
    ensures SplitOn(src[s..], '\n') == [src[s..e]] + LinesAfter(src, e)
  {
    SplitOnNoSep(src[s..e], '\n');
    if e < |src| {
      assert src[s..] == src[s..e] + ['\n'] + src[e + 1..];
      SplitOnAppend(src[s..e], src[e + 1..], '\n');
    } else {
      assert src[s..] == src[s..e];
    }
  }

  lemma ConcatAssoc<T>(a: seq<T>, b: seq<T>, c: seq<T>)
    ensures a + (b + c) == a + b + c
  {
  }

  /** The lines before a line start, then the lines from it on. */
  lemma SplitAt(src: string, s: nat)
    requires s <= |src| && (s == 0 || src[s - 1] == '\n')
    ensures SplitOn(src, '\n') == LinesBefore(src, s) + SplitOn(src[s..], '\n')
  {
    if s > 0 {
      var h := src[..s - 1];
      assert src == h + ['\n'] + src[s..];
      SplitOnAppend(h, src[s..], '\n');
    } else {
      assert src[s..] == src;
    }
  }

  /** Splitting a source into lines around one of its lines. */
  lemma SplitAround(src: string, s: nat, e: nat)
    requires s <= e <= |src| && (s == 0 || src[s - 1] == '\n') && (e == |src| || src[e] == '\n')
    requires '\n' !in src[s..e]
    ensures SplitOn(src, '\n') == LinesBefore(src, s) + [src[s..e]] + LinesAfter(src, e)
  {
    SplitFrom(src, s, e);
    SplitAt(src, s);
    ConcatAssoc(LinesBefore(src, s), [src[s..e]], LinesAfter(src, e));
  }

  /** `indexToLine` agrees with splitting the source into lines: the line number
      counts the lines up to the offset, the text is that line of `src.split('\n')`,
      and the column is one more than the length of the line's part before the
      offset. */
  lemma IndexToLineMatchesSplit(src: string, index: nat)
    requires index < |src|
    ensures var l := LineAt(src, index).value;
      && l.lineNumber == |SplitOn(src[..index], '\n')|
      && l.lineNumber <= |SplitOn(src, '\n')|
      && SplitOn(src, '\n')[l.lineNumber - 1] == l.text
      && l.columnNumber == 1 + |SplitOn(src[..index], '\n')[l.lineNumber - 1]|
  {
    var s := LineStart(src, index);
    var e := LineEnd(src, index);
    PrefixLines(src, index);
    assert src[s..e] == src[s..index] + src[index..e];
    SplitAround(src, s, e);
  }

  /** The lines of the source up to an offset: the lines before its line, then the
      part of its line before the offset. */
  lemma PrefixLines(src: string, index: nat)
    requires index < |src|
    ensures SplitOn(src[..index], '\n') == LinesBefore(src, LineStart(src, index)) + [src[LineStart(src, index)..index]]
    ensures |LinesBefore(src, LineStart(src, index))| == CountChar(src[..index], '\n')
  {
    var s := LineStart(src, index);
    PrefixSplit(src[..index], src, s, index);
    PrefixCount(src, s, index);
  }

  lemma PrefixSplit(pre: string, src: string, s: nat, index: nat)
    requires index <= |src| && pre == src[..index] && s <= index
    requires (s == 0 || src[s - 1] == '\n') && '\n' !in src[s..index]
    ensures SplitOn(pre, '\n') == LinesBefore(src, s) + [src[s..index]]
  {
    assert pre[s..index] == src[s..index];
    SplitAround(pre, s, index);
    assert s > 0 ==> pre[..s - 1] == src[..s - 1];
  }

  lemma PrefixCount(src: string, s: nat, index: nat)
    requires s <= index <= |src| && (s == 0 || src[s - 1] == '\n') && '\n' !in src[s..index]
    ensures |LinesBefore(src, s)| == CountChar(src[..index], '\n')
  {
    LinesBeforeCount(src, s);
    assert src[..index] == src[..s] + src[s..index];
    CountCharAppend(src[..s], src[s..index], '\n');
    CountCharNone(src[s..index], '\n');
  }

  /** An offset on a newline reports the line that the newline ends, with the column
      just past its last character. */
  lemma NewlineEndsLine(src: string, index: nat)
    requires index < |src| && src[index] == '\n'
    ensures var l := LineAt(src, index).value;
      l.columnNumber == |l.text| + 1
  {
    assert LineEnd(src, index) == index;
  }

  /** On any other character, the column points at that character in the text. */
  lemma ColumnPointsAtChar(src: string, index: nat)
    requires index < |src| && src[index] != '\n'
    ensures var l := LineAt(src, index).value;
      l.columnNumber <= |l.text| && l.text[l.columnNumber - 1] == src[index]
  {
    var s := LineStart(src, index);
    var e := LineEnd(src, index);
    assert e > index;
  }

  // ---------------------------------------------------------------------------
  // moduleName
  // ---------------------------------------------------------------------------

  /** `s.lastIndexOf(c)`, `None` standing for -1. */
  function LastIndexOf(s: string, c: char): (r: Option<nat>)
    ensures r.None? <==> c !in s
    ensures r.Some? ==> r.value < |s| && s[r.value] == c && c !in s[r.value + 1..]
  {
    if s == [] then None
    else if s[|s| - 1] == c then
      assert s[|s|..] == [];
      Some(|s| - 1)
    else
      var r := LastIndexOf(s[..|s| - 1], c);
      assert r.Some? ==> s[r.value + 1..] == s[..|s| - 1][r.value + 1..] + [s[|s| - 1]];
      assert c in s ==> c in s[..|s| - 1] by {
        if c in s {
          var k :| 0 <= k < |s| && s[k] == c;
          assert s[..|s| - 1][k] == c;
        }
      }
      r
  }

  /** The module name the linter derives from a module directory path. */
  function ModuleName(path: string): (r: string)
    ensures EndsWith(path, r)
    ensures '@' in path ==> |r| >= 1 && r[0] == '@' && '@' !in r[1..]
    ensures '@' !in path && '/' in path ==> '/' !in r && EndsWith(path, "/" + r)
    ensures '@' !in path && '/' !in path ==> r == path
  {
    match LastIndexOf(path, '@')
    case Some(i) =>
      assert path[i..][1..] == path[i + 1..];
      path[i..]
    case None =>
      match LastIndexOf(path, '/')
      case Some(i) =>
        assert path[i..] == "/" + path[i + 1..];
        path[i + 1..]
      case None => path
  }

  /** A scoped module keeps its scope, as in `modules/@apostrophecms/page`. */
  lemma ScopedModuleName(base: string, scope: string, name: string)
    requires '@' !in base && '@' !in scope && '@' !in name
    ensures ModuleName(base + "@" + scope + "/" + name) == "@" + scope + "/" + name
  {
    var p := base + "@" + scope + "/" + name;
    var r := ModuleName(p);
    assert p[|base|] == '@';
    assert '@' in p;
    assert p == base + ("@" + scope + "/" + name);
    var i := LastIndexOf(p, '@').value;
  }

  /** An unscoped module is named by its last path segment. */
  lemma PlainModuleName(dir: string, name: string)
    requires '@' !in dir && '@' !in name && '/' !in name
    ensures ModuleName(dir + "/" + name) == name
  {
    var p := dir + "/" + name;
    assert p[|dir|] == '/';
    assert '@' !in p;
    assert p[|dir| + 1..] == name;
  }

  // ---------------------------------------------------------------------------
  // matchRule and getMessage
  // ---------------------------------------------------------------------------

  /** One match: where it starts and what it matched. */
  datatype Match = Match(index: nat, matched: string)

  /** A rule is a predicate function or a regular expression. Regular-expression
      semantics are abstract: `exec` is what `String.prototype.match` returns for a
      non-global expression and `execAll` what `matchAll` yields for a global one. */
  datatype Rule =
    | FnRule(test: string -> Option<Match>)
    | RegexRule(global: bool, exec: string -> Option<Match>, execAll: string -> seq<Match>)

  function MatchRule(s: string, rule: Rule): (r: seq<Match>)
    ensures (rule.FnRule? || !rule.global) ==> |r| <= 1
    ensures rule.FnRule? ==> (r == [] <==> rule.test(s).None?)
    ensures rule.FnRule? && r != [] ==> r[0] == rule.test(s).value
    ensures rule.RegexRule? && !rule.global ==> (r == [] <==> rule.exec(s).None?)
    ensures rule.RegexRule? && !rule.global && r != [] ==> r[0] == rule.exec(s).value
    ensures rule.RegexRule? && rule.global ==> r == rule.execAll(s)
  {
    match rule
    case FnRule(test) => (match test(s) case Some(m) => [m] case None => [])
    case RegexRule(global, exec, execAll) =>
      if global then execAll(s)
      else (match exec(s) case Some(m) => [m] case None => [])
  }

  /** A message is literal text or a function of what matched. */
  datatype Message<-I> = Plain(text: string) | Template(render: I -> string)

  /** The message text before trimming. */
  function Formatted<I>(input: I, message: Message<I>): string {
    match message
    case Plain(t) => t
    case Template(f) => f(input)
  }

  /** The message with the surrounding whitespace removed. */
  function GetMessage<I>(input: I, message: Message<I>): (r: string)
    ensures IsTrimOf(r, Formatted(input, message))
  {
    TrimShape(Formatted(input, message));
    Trim(Formatted(input, message))
  }

  // ---------------------------------------------------------------------------
  // lintModules
  // ---------------------------------------------------------------------------

  /** What a module message is rendered from. */
  datatype ModuleInput = ModuleInput(name: string, filename: string)

  /** A module rule of the linter table. */
  datatype ModuleRule = ModuleRule(
    once: bool,
    matchName: Option<Rule>,
    matchFilename: Option<Rule>,
    message: Message<ModuleInput>)

  /** One printed report: the module path, the rule's name and its message. */
  datatype Report = Report(dir: string, rule: string, message: string)

  /** The `matchedModuleRule` table and the reports printed so far. */
  datatype LintState = LintState(matched: set<string>, reports: seq<Report>)

  /** `report(module, name, options)`. */
  function Reported(st: LintState, dir: string, name: string, rule: ModuleRule): LintState {
    LintState(st.matched + {name},
              st.reports + [Report(dir, name, GetMessage(ModuleInput(ModuleName(dir), dir), rule.message))])
  }

  /** Whether a rule fires on a module: `matchName` when present, otherwise
      `matchFilename`, otherwise never. */
  predicate Fires(dir: string, rule: ModuleRule) {
    if rule.matchName.Some? then |MatchRule(ModuleName(dir), rule.matchName.value)| > 0
    else if rule.matchFilename.Some? then |MatchRule(dir, rule.matchFilename.value)| > 0
    else false
  }

  /** One iteration of the rule loop of `lintModule`. */
  function RuleStep(st: LintState, dir: string, name: string, rule: ModuleRule): LintState {
    if rule.once && name in st.matched then st
    else if Fires(dir, rule) then Reported(st, dir, name, rule)
    else st
  }

  /** `lintModule(module)`: the rules tried in table order. */
  function ModuleSteps(st: LintState, dir: string, rules: seq<(string, ModuleRule)>): LintState {
    if rules == [] then st
    else
      var last := rules[|rules| - 1];
      RuleStep(ModuleSteps(st, dir, rules[..|rules| - 1]), dir, last.0, last.1)
  }

  /** `modules.forEach(lintModule)` from an empty table. */
  function LintSpec(modules: seq<string>, rules: seq<(string, ModuleRule)>): LintState {
    if modules == [] then LintState({}, [])
    else ModuleSteps(LintSpec(modules[..|modules| - 1], rules), modules[|modules| - 1], rules)
  }

  /** `lintModule(dir)`: tries each rule in table order, skipping a `once` rule
      that has already been reported. */
  method LintModule(dir: string, rules: seq<(string, ModuleRule)>, matched0: set<string>, reports0: seq<Report>)
    returns (matched: set<string>, reports: seq<Report>)
    ensures LintState(matched, reports) == ModuleSteps(LintState(matched0, reports0), dir, rules)
  {
    matched, reports := matched0, reports0;
    for k := 0 to |rules|
      invariant LintState(matched, reports) == ModuleSteps(LintState(matched0, reports0), dir, rules[..k])
    {
      assert rules[..k + 1][..k] == rules[..k];
      var name := rules[k].0;
      var rule := rules[k].1;
      if rule.once && name in matched {
        continue;
      }
      var fires := false;
      if rule.matchName.Some? {
        var ms := MatchRule(ModuleName(dir), rule.matchName.value);
        fires := |ms| > 0;
      } else if rule.matchFilename.Some? {
        var ms := MatchRule(dir, rule.matchFilename.value);
        fires := |ms| > 0;
      }
      assert fires == Fires(dir, rule);
      if fires {
        matched := matched + {name};
        reports := reports + [Report(dir, name, GetMessage(ModuleInput(ModuleName(dir), dir), rule.message))];
      }
    }
    assert rules[..|rules|] == rules;
  }

  /** `lintModules()`: every module directory against the whole rule table, with one
      `matchedModuleRule` table for the run. */
  method LintModules(modules: seq<string>, rules: seq<(string, ModuleRule)>) returns (reports: seq<Report>)
    ensures reports == LintSpec(modules, rules).reports
  {
    var matched: set<string> := {};
    reports := [];
    for m := 0 to |modules|
      invariant LintState(matched, reports) == LintSpec(modules[..m], rules)
    {
      assert modules[..m + 1][..m] == modules[..m];
      matched, reports := LintModule(modules[m], rules, matched, reports);
    }
    assert modules[..|modules|] == modules;
  }

  /** The number of reports for rule `name`. */
  function ReportCount(reports: seq<Report>, name: string): (n: nat)
    ensures n <= |reports|
  {
    if reports == [] then 0
    else ReportCount(reports[..|reports| - 1], name) + (if reports[|reports| - 1].rule == name then 1 else 0)
  }

  predicate UniqueNames(rules: seq<(string, ModuleRule)>) {
    forall i, j :: 0 <= i < j < |rules| ==> rules[i].0 != rules[j].0
  }

  /** The table holds exactly the reported rules, and a `once` rule has been reported
      at most once. */
  ghost predicate OnceInv(st: LintState, rules: seq<(string, ModuleRule)>) {
    (forall n :: n in st.matched <==> ReportCount(st.reports, n) > 0)
    && (forall i :: 0 <= i < |rules| && rules[i].1.once ==> ReportCount(st.reports, rules[i].0) <= 1)
  }

  lemma ReportCountAppend(rs: seq<Report>, r: Report, n: string)
    ensures ReportCount(rs + [r], n) == ReportCount(rs, n) + (if r.rule == n then 1 else 0)
  {
    assert (rs + [r])[..|rs|] == rs;
  }

  lemma RuleStepInv(st: LintState, dir: string, rules: seq<(string, ModuleRule)>, k: nat)
    requires UniqueNames(rules) && k < |rules| && OnceInv(st, rules)
    ensures OnceInv(RuleStep(st, dir, rules[k].0, rules[k].1), rules)
  {
    var name := rules[k].0;
    var rule := rules[k].1;
    if !(rule.once && name in st.matched) && Fires(dir, rule) {
      var r := Report(dir, name, GetMessage(ModuleInput(ModuleName(dir), dir), rule.message));
      var st' := LintState(st.matched + {name}, st.reports + [r]);
      assert RuleStep(st, dir, name, rule) == st';
      forall n ensures n in st'.matched <==> ReportCount(st'.reports, n) > 0 {
        ReportCountAppend(st.reports, r, n);
      }
      forall i | 0 <= i < |rules| && rules[i].1.once
        ensures ReportCount(st'.reports, rules[i].0) <= 1
      {
        ReportCountAppend(st.reports, r, rules[i].0);
        if rules[i].0 == name {
          assert i == k;
        }
      }
    }
  }

  lemma {:induction false} ModuleStepsInv(st: LintState, dir: string, rules: seq<(string, ModuleRule)>, k: nat)
    requires UniqueNames(rules) && k <= |rules| && OnceInv(st, rules)
    ensures OnceInv(ModuleSteps(st, dir, rules[..k]), rules)
  {
    if k > 0 {
      assert rules[..k][..k - 1] == rules[..k - 1];
      ModuleStepsInv(st, dir, rules, k - 1);
      RuleStepInv(ModuleSteps(st, dir, rules[..k - 1]), dir, rules, k - 1);
    }
  }

  lemma {:induction false} LintSpecInv(modules: seq<string>, rules: seq<(string, ModuleRule)>)
    requires UniqueNames(rules)
    ensures OnceInv(LintSpec(modules, rules), rules)
  {
    if modules != [] {
      LintSpecInv(modules[..|modules| - 1], rules);
      ModuleStepsInv(LintSpec(modules[..|modules| - 1], rules), modules[|modules| - 1], rules, |rules|);
      assert rules[..|rules|] == rules;
    }
  }

  /** A rule marked `once` is reported for at most one module. */
  lemma OnceReportedAtMostOnce(modules: seq<string>, rules: seq<(string, ModuleRule)>, i: nat)
    requires UniqueNames(rules) && i < |rules| && rules[i].1.once
    ensures ReportCount(LintSpec(modules, rules).reports, rules[i].0) <= 1
  {
    LintSpecInv(modules, rules);
  }

  /** A rule with `matchName` is never tested against the filename: its
      `matchFilename`, whatever it is, changes nothing. */
  lemma MatchNameIgnoresFilename(modules: seq<string>, rules: seq<(string, ModuleRule)>, i: nat, other: Option<Rule>)
    requires i < |rules| && rules[i].1.matchName.Some?
    ensures LintSpec(modules, rules[i := (rules[i].0, rules[i].1.(matchFilename := other))]) == LintSpec(modules, rules)
  {
    var rules' := rules[i := (rules[i].0, rules[i].1.(matchFilename := other))];
    forall st: LintState, dir: string
      ensures ModuleSteps(st, dir, rules') == ModuleSteps(st, dir, rules)
    {
      ModuleStepsSame(st, dir, rules, rules', |rules|);
      assert rules[..|rules|] == rules && rules'[..|rules|] == rules';
    }
    LintSpecSame(modules, rules, rules');
  }

  /** Two tables whose rules fire alike and share names and `once` flags. */
  ghost predicate SameBehaviour(a: seq<(string, ModuleRule)>, b: seq<(string, ModuleRule)>) {
    |a| == |b| && forall k :: 0 <= k < |a| ==>
      a[k].0 == b[k].0 && a[k].1.once == b[k].1.once && a[k].1.message == b[k].1.message
      && forall dir: string :: Fires(dir, a[k].1) == Fires(dir, b[k].1)
  }

  lemma {:induction false} ModuleStepsSame(st: LintState, dir: string, a: seq<(string, ModuleRule)>,
                                           b: seq<(string, ModuleRule)>, k: nat)
    requires SameBehaviour(a, b) && k <= |a|
    ensures ModuleSteps(st, dir, a[..k]) == ModuleSteps(st, dir, b[..k])
  {
    if k > 0 {
      assert a[..k][..k - 1] == a[..k - 1] && b[..k][..k - 1] == b[..k - 1];
      ModuleStepsSame(st, dir, a, b, k - 1);
      assert Fires(dir, a[k - 1].1) == Fires(dir, b[k - 1].1);
    }
  }

  lemma {:induction false} LintSpecSame(modules: seq<string>, a: seq<(string, ModuleRule)>, b: seq<(string, ModuleRule)>)
    requires forall st: LintState, dir: string :: ModuleSteps(st, dir, b) == ModuleSteps(st, dir, a)
    ensures LintSpec(modules, b) == LintSpec(modules, a)
  {
    if modules != [] {
      LintSpecSame(modules[..|modules| - 1], a, b);
    }
  }

  /** Every report names a module that was linted and a rule of the table that fires
      on it. */
  lemma {:induction false} ReportsFire(modules: seq<string>, rules: seq<(string, ModuleRule)>)
    ensures forall r :: r in LintSpec(modules, rules).reports ==>
      r.dir in modules && exists k :: 0 <= k < |rules| && rules[k].0 == r.rule && Fires(r.dir, rules[k].1)
  {
    if modules != [] {
      var init := modules[..|modules| - 1];
      ReportsFire(init, rules);
      ModuleStepsFire(LintSpec(init, rules), modules[|modules| - 1], rules, |rules|);
      assert rules[..|rules|] == rules;
      forall r | r in LintSpec(modules, rules).reports ensures r.dir in modules {
        if r in LintSpec(init, rules).reports {
          assert r.dir in init;
          var j :| 0 <= j < |init| && init[j] == r.dir;
          assert modules[j] == r.dir;
        }
      }
    }
  }

  lemma {:induction false} ModuleStepsFire(st: LintState, dir: string, rules: seq<(string, ModuleRule)>, k: nat)
    requires k <= |rules|
    ensures forall r :: r in ModuleSteps(st, dir, rules[..k]).reports ==>
      r in st.reports || (r.dir == dir && exists j :: 0 <= j < k && rules[j].0 == r.rule && Fires(dir, rules[j].1))
  {
    if k > 0 {
      assert rules[..k][..k - 1] == rules[..k - 1];
      ModuleStepsFire(st, dir, rules, k - 1);
    }
  }
}
