// Statement grouping of the C checker (`parse_line`): from a line index, the
// group of lines that make up one construct and the construct's kind.
//
// The definitions below follow the source branch by branch; `None` stands for
// the cases where the source stops with an exception (a scanner that finds
// nothing, or the assertion of `find_code_block`). `ParseLine` runs the
// source's loops and is proved equal to `ParseSpec`; the lemmas at the end
// state what the groups are.
module CParse {
  import opened Common
  import opened Keywords
  import opened Scan
  import opened Scanners
  import opened CPatterns

  datatype Kind =
    | EmptyLine | Cmmt | BlockCmmt | Conditional | Unconditional
    | SwitchCase | Directive | Func | Structure | Statement

  datatype Parsed = Parsed(group: seq<nat>, kind: Kind)

  // ---------------------------------------------------------------- definitions

  // `g` is the run of line indices from `n` up to some line before `bound`, and is not empty.
  predicate RunFrom(g: seq<nat>, n: nat, bound: nat) {
    0 < |g| && n + |g| <= bound && g == Range(n, n + |g|)
  }

  // The first line from `m` on that is not blank (`|lines|` when there is none).
  function BlankRunEnd(lines: seq<string>, m: nat): (e: nat)
    ensures m <= e && (m <= |lines| ==> e <= |lines|)
    ensures forall i :: m <= i < e && i < |lines| ==> IsBlank(lines[i])
    ensures e < |lines| ==> !IsBlank(lines[e])
    decreases |lines| - m
  {
    if m >= |lines| || !IsBlank(lines[m]) then m else BlankRunEnd(lines, m + 1)
  }

  // The first line from `m` on holding a `*/`: on line `n` it must start at or after `start + 2`
  // (past the opening `/*`), on other lines anywhere.
  function CommentCloseLine(lines: seq<string>, n: nat, start: int, m: nat): (r: Option<nat>)
    requires start >= -1
    ensures r.Some? ==> m <= r.value < |lines|
                        && FindFrom(lines[r.value], "*/", if r.value == n then start + 2 else 0) != -1
    ensures forall i :: m <= i < |lines| && (r.None? || i < r.value) ==>
              FindFrom(lines[i], "*/", if i == n then start + 2 else 0) == -1
    decreases |lines| - m
  {
    if m >= |lines| then None
    else if FindFrom(lines[m], "*/", if m == n then start + 2 else 0) != -1 then Some(m)
    else CommentCloseLine(lines, n, start, m + 1)
  }

  // The line opens a block comment that is never closed; the source then goes on with the rest of
  // the analysis, keeping every remaining line in the group.
  predicate OpensUnclosedComment(lines: seq<string>, n: nat)
    requires n < |lines|
  {
    var line := LStrip(lines[n]);
    |line| != 0 && !IsLineComment(line) && IsBlockComment(line)
    && CommentCloseLine(lines, n, Find(lines[n], "/*"), n).None?
  }

  // Where the running count of braces of one line, started at `count`, first drops to zero at a
  // `}`; otherwise the count at the end of the line.
  datatype BraceScan = ClosedAt(col: nat) | Carried(count: int)

  function ScanBraces(s: string, j: nat, count: int): (r: BraceScan)
    ensures r.ClosedAt? ==> j <= r.col < |s| && s[r.col] == '}'
    decreases |s| - j
  {
    if j >= |s| then Carried(count)
    else if s[j] == '{' then ScanBraces(s, j + 1, count + 1)
    else if s[j] == '}' then (if count - 1 == 0 then ClosedAt(j) else ScanBraces(s, j + 1, count - 1))
    else ScanBraces(s, j + 1, count)
  }

  // The lines after a `case` or `default` line that belong to it: up to the next case label, or up to
  // the `}` that closes the switch. That line is taken in unless one or more spaces or tabs, and
  // nothing else, precede the brace; a `}` in column 0 is taken in.
  function CaseLines(lines: seq<string>, m: nat, count: int): seq<nat>
    decreases |lines| - m
  {
    if m >= |lines| || IsSwitchCaseLine(lines[m]) then []
    else match ScanBraces(lines[m], 0, count)
      case ClosedAt(j) => if IsWhiteSpace(lines[m][..j]) then [] else [m]
      case Carried(c) => [m] + CaseLines(lines, m + 1, c)
  }

  // The last line of a directive: the first line from `m` on that does not end in a backslash
  // (trailing white space ignored), or the last line of the text.
  function DirectiveEnd(lines: seq<string>, m: nat): (e: nat)
    requires m < |lines|
    ensures m <= e < |lines|
    decreases |lines| - m
  {
    if !EndsWith(RStrip(lines[m]), "\\") || m + 1 == |lines| then m else DirectiveEnd(lines, m + 1)
  }

  // `parse_line(n)`.
  function ParseSpec(lines: seq<string>, pats: Patterns, n: nat): Option<Parsed>
    requires n < |lines|
  {
    var line := LStrip(lines[n]);
    if |line| == 0 then GroupTo(n, Some(BlankRunEnd(lines, n + 1) - 1), EmptyLine, |lines|)
    else if IsLineComment(line) then Some(Parsed([n], Cmmt))
    else if IsBlockComment(line) then
      match CommentCloseLine(lines, n, Find(lines[n], "/*"), n)
      case Some(m) => GroupTo(n, Some(m), BlockCmmt, |lines|)
      case None => ParseCode(lines, pats, n, Range(n, |lines|))
    else Dispatch(lines, pats, n, MatchSpec(lines[n]))
  }

  // The part of `parse_line` after the comment tests; `pre` is the group built so far.
  function ParseCode(lines: seq<string>, pats: Patterns, n: nat, pre: seq<nat>): (r: Option<Parsed>)
    requires n < |lines|
    ensures r.Some? ==> |pre| < |r.value.group| && r.value.group[..|pre|] == pre
                        && RunFrom(r.value.group[|pre|..], n, |lines|)
  {
    match Dispatch(lines, pats, n, MatchSpec(lines[n]))
    case None => None
    case Some(p) => Some(Parsed(pre + p.group, p.kind))
  }

  // The branch taken for the keyword `m` of line `n`, and the lines it adds to the group.
  function Dispatch(lines: seq<string>, pats: Patterns, n: nat, m: KwMatch): (r: Option<Parsed>)
    requires n < |lines| && (m.Found? ==> m.index < |lines[n]|)
    ensures r.Some? ==> RunFrom(r.value.group, n, |lines|)
  {
    if m.Found? && IsConditional(m.kw) then ConditionalGroup(lines, n, m.index)
    else if m.Found? && IsUnconditional(m.kw) then UnconditionalGroup(lines, n, m.kw == Do)
    else if m.Found? && IsSwitchCase(m.kw) then
      CaseRun(lines, n, 1);
      Some(Parsed([n] + CaseLines(lines, n + 1, 1), SwitchCase))
    else if IsDirective(LStrip(lines[n])) then DirectiveGroup(lines, n)
    else StatementGroup(lines, pats, n)
  }

  // A preprocessor directive: through the last line continued by backslashes.
  function DirectiveGroup(lines: seq<string>, n: nat): Option<Parsed>
    requires n < |lines|
  {
    Some(Parsed(Range(n, DirectiveEnd(lines, n) + 1), Directive))
  }

  // A conditional: through the condition's `)`, then through the block or the `;` that follows.
  function ConditionalGroup(lines: seq<string>, n: nat, index: nat): (r: Option<Parsed>)
    requires n < |lines| && index <= |lines[n]|
    ensures r.Some? ==> RunFrom(r.value.group, n, |lines|)
  {
    var c := ConditionalLast(lines, n, index);
    if c.None? then None else GroupTo(n, Some(c.value.1), Conditional, |lines|)
  }

  // The run `n .. last` of a construct of the given kind that ends on line `last`.
  function GroupTo(n: nat, last: Option<nat>, kind: Kind, bound: nat): (r: Option<Parsed>)
    requires last.Some? ==> n <= last.value < bound
    ensures r.Some? ==> RunFrom(r.value.group, n, bound)
  {
    match last
    case None => None
    case Some(l) => Some(Parsed(Range(n, l + 1), kind))
  }

  // The line where the condition closes and the last line of the body that follows it.
  function ConditionalLast(lines: seq<string>, n: nat, index: nat): (r: Option<(nat, nat)>)
    ensures r.Some? && n < |lines| && index <= |lines[n]| ==> n <= r.value.0 <= r.value.1 < |lines|
  {
    var cond := ConditionSpec(lines, n, index);
    if cond.None? then None
    else
      var end := cond.value.1;
      assert StartOk(lines, end.line, end.col);
      var t := TerminatorSpec(lines, end.line, end.col, None, false);
      if t.None? then None
      else
        match TermLast(lines, t.value)
        case None => None
        case Some(last) => Some((end.line, last))
  }

  // The last line of what a terminator at `t` ends: the closing brace's line for `{`, else its own.
  function TermLast(lines: seq<string>, t: Loc): (r: Option<nat>)
    ensures r.Some? && IsPos(lines, t) ==> t.line <= r.value < |lines|
  {
    if IsPos(lines, t) && lines[t.line][t.col] == '{' then BlockLast(lines, t)
    else Some(t.line)
  }

  // The line of the brace that closes the block opened at `b`.
  function BlockLast(lines: seq<string>, b: Loc): (r: Option<nat>)
    ensures r.Some? ==> b.line <= r.value < |lines|
  {
    var block := CodeBlockSpec(lines, b.line, b.col);
    if block.None? then None else Some(block.value.1.line)
  }

  // The line of the `;` (or `{`) that follows the block opened at `b`, as for `do ... while (...);`.
  function DoLast(lines: seq<string>, b: Loc): (r: Option<nat>)
    ensures r.Some? ==> b.line <= r.value < |lines|
  {
    var block := CodeBlockSpec(lines, b.line, b.col);
    if block.None? then None
    else
      var close := block.value.1;
      assert StartOk(lines, close.line, close.col);
      var e := TerminatorSpec(lines, close.line, close.col, None, false);
      if e.None? then None else Some(e.value.line)
  }

  // The line of the brace that closes the body of a function whose header ends at `t`.
  function FuncLast(lines: seq<string>, t: Loc): (r: Option<nat>)
    ensures r.Some? && IsPos(lines, t) ==> t.line <= r.value < |lines|
  {
    var f := TerminatorSpec(lines, t.line, t.col, Some('{'), false);
    if f.None? then None
    else
      assert IsPos(lines, t) ==> StartOk(lines, t.line, t.col);
      BlockLast(lines, f.value)
  }

  // `else` or `do`: through the block or the `;`; for `do`, through the `;` after the block.
  function UnconditionalGroup(lines: seq<string>, n: nat, isDo: bool): (r: Option<Parsed>)
    requires n < |lines|
    ensures r.Some? ==> RunFrom(r.value.group, n, |lines|)
  {
    GroupTo(n, UnconditionalLast(lines, n, isDo), Unconditional, |lines|)
  }

  function UnconditionalLast(lines: seq<string>, n: nat, isDo: bool): (r: Option<nat>)
    ensures r.Some? && n < |lines| ==> n <= r.value < |lines|
  {
    var t := TerminatorSpec(lines, n, 0, None, false);
    assert StartOk(lines, n, 0);
    if t.None? then None
    else if isDo then DoLast(lines, t.value)
    else TermLast(lines, t.value)
  }

  // Anything else: a function definition, a structure (`{`) or a statement (`;`).
  function StatementGroup(lines: seq<string>, pats: Patterns, n: nat): (r: Option<Parsed>)
    requires n < |lines|
    ensures r.Some? ==> RunFrom(r.value.group, n, |lines|)
  {
    match StatementLast(lines, pats, n)
    case None => None
    case Some((last, kind)) => GroupTo(n, Some(last), kind, |lines|)
  }

  // The last line of the statement, structure or function definition that starts on line `n`, with its kind.
  function StatementLast(lines: seq<string>, pats: Patterns, n: nat): (r: Option<(nat, Kind)>)
    requires n < |lines|
    ensures r.Some? ==> n <= r.value.0 < |lines|
  {
    var t := TerminatorSpec(lines, n, 0, None, false);
    assert StartOk(lines, n, 0);
    if t.None? then None
    else
      var code := lines[n..t.value.line + 1];
      if pats.funcDef(code) && !pats.funcHdr(code) then
        match FuncLast(lines, t.value)
        case None => None
        case Some(last) => Some((last, Func))
      else
        match TermLast(lines, t.value)
        case None => None
        case Some(last) => Some((last, if lines[t.value.line][t.value.col] == '{' then Structure else Statement))
  }

  // ---------------------------------------------------------------- the source's loops

  // `parse_line(n)`.
  method ParseLine(lines: seq<string>, pats: Patterns, n: nat) returns (r: Option<Parsed>)
    requires n < |lines|
    ensures r == ParseSpec(lines, pats, n)
  {
    var line := LStrip(lines[n]);
    if |line| == 0 {
      var group := BlankRunLines(lines, n);
      return Some(Parsed(group, EmptyLine));
    }
    if IsLineComment(line) {
      return Some(Parsed([n], Cmmt));
    }
    if IsBlockComment(line) {
      var start := Find(lines[n], "/*");
      var closed, group := BlockCommentLines(lines, n, start);
      if closed {
        return Some(Parsed(group, BlockCmmt));
      }
      r := ParseCodeLine(lines, pats, n, group);
      return;
    }
    var m := MatchKeywords(lines[n]);
    r := DispatchLines(lines, pats, n, m);
  }

  // Line `n` and the blank lines that follow it.
  method BlankRunLines(lines: seq<string>, n: nat) returns (group: seq<nat>)
    requires n < |lines|
    ensures group == Range(n, BlankRunEnd(lines, n + 1))
  {
    group := [n];
    var lineN := n + 1;
    while lineN < |lines|
      invariant n + 1 <= lineN <= |lines|
      invariant group == Range(n, lineN)
      invariant BlankRunEnd(lines, lineN) == BlankRunEnd(lines, n + 1)
    {
      if |LStrip(lines[lineN])| == 0 {
        RangeSnoc(n, lineN);
        group := group + [lineN];
      } else {
        break;
      }
      lineN := lineN + 1;
    }
  }

  // The lines of a block comment opened at column `start` of line `n`, through the line that closes
  // it; when it is never closed, every line from `n` on.
  method BlockCommentLines(lines: seq<string>, n: nat, start: int) returns (closed: bool, group: seq<nat>)
    requires n < |lines| && start >= -1
    ensures var close := CommentCloseLine(lines, n, start, n);
            closed == close.Some? && group == Range(n, if closed then close.value + 1 else |lines|)
  {
    group := [];
    var lineN := n;
    while lineN < |lines|
      invariant n <= lineN <= |lines|
      invariant group == Range(n, lineN)
      invariant CommentCloseLine(lines, n, start, lineN) == CommentCloseLine(lines, n, start, n)
    {
      var found := HasCommentEnd(lines[lineN], if lineN == n then start + 2 else 0);
      RangeSnoc(n, lineN);
      group := group + [lineN];
      if found {
        return true, group;
      }
      lineN := lineN + 1;
    }
    closed := false;
  }

  // Whether a `*/` starts at or after column `lo`: the inner loop of the block-comment branch.
  method HasCommentEnd(s: string, lo: nat) returns (found: bool)
    ensures found == (FindFrom(s, "*/", lo) != -1)
  {
    var j := lo;
    while j + 1 < |s|
      invariant lo <= j
      invariant FindFrom(s, "*/", j) == FindFrom(s, "*/", lo)
    {
      if s[j] == '*' && s[j + 1] == '/' {
        assert OccursAt(s, "*/", j);
        return true;
      }
      assert s[j..j + 2] != "*/" by {
        assert s[j..j + 2][0] == s[j] && s[j..j + 2][1] == s[j + 1];
      }
      assert FindFrom(s, "*/", j) == FindFrom(s, "*/", j + 1);
      j := j + 1;
    }
    found := false;
  }

  // The part of `parse_line` after the comment tests, continuing the group `pre`.
  method ParseCodeLine(lines: seq<string>, pats: Patterns, n: nat, pre: seq<nat>) returns (r: Option<Parsed>)
    requires n < |lines|
    ensures r == ParseCode(lines, pats, n, pre)
  {
    var m := MatchKeywords(lines[n]);
    r := DispatchLines(lines, pats, n, m);
    if r.Some? {
      r := Some(Parsed(pre + r.value.group, r.value.kind));
    }
  }

  method DispatchLines(lines: seq<string>, pats: Patterns, n: nat, m: KwMatch) returns (r: Option<Parsed>)
    requires n < |lines| && (m.Found? ==> m.index < |lines[n]|)
    ensures r == Dispatch(lines, pats, n, m)
  {
    if m.Found? && IsConditional(m.kw) {
      r := ConditionalLines(lines, n, m.index);
    } else if m.Found? && IsUnconditional(m.kw) {
      r := UnconditionalLines(lines, n, m.kw == Do);
    } else if m.Found? && IsSwitchCase(m.kw) {
      r := CaseGroupLines(lines, n);
    } else if IsDirective(LStrip(lines[n])) {
      var group := DirectiveLines(lines, n);
      r := Some(Parsed(group, Directive));
    } else {
      r := StatementLines(lines, pats, n);
    }
  }

  // A directive line and its continuation lines.
  method DirectiveLines(lines: seq<string>, n: nat) returns (group: seq<nat>)
    requires n < |lines|
    ensures group == Range(n, DirectiveEnd(lines, n) + 1)
  {
    group := [];
    var lineN := n;
    while true
      invariant n <= lineN < |lines|
      invariant group == Range(n, lineN)
      invariant DirectiveEnd(lines, lineN) == DirectiveEnd(lines, n)
      decreases |lines| - lineN
    {
      RangeSnoc(n, lineN);
      group := group + [lineN];
      if !EndsWith(RStrip(lines[lineN]), "\\") || lineN + 1 == |lines| {
        break;
      }
      lineN := lineN + 1;
    }
  }

  method ConditionalLines(lines: seq<string>, n: nat, index: nat) returns (r: Option<Parsed>)
    requires n < |lines| && index <= |lines[n]|
    ensures r == ConditionalGroup(lines, n, index)
  {
    var c := ConditionalLastLines(lines, n, index);
    if c.None? {
      return None;
    }
    var end := c.value.0;
    var last := c.value.1;
    var group := Range(n, end + 1);
    group := group + Range(end + 1, last + 1);
    RangeJoin(n, end + 1, last + 1);
    assert group == Range(n, last + 1);
    r := Some(Parsed(group, Conditional));
  }

  // The line of the condition's `)` and the last line of the body after it.
  method ConditionalLastLines(lines: seq<string>, n: nat, index: nat) returns (r: Option<(nat, nat)>)
    requires n < |lines| && index <= |lines[n]|
    ensures r == ConditionalLast(lines, n, index)
  {
    var cond := FindCondition(lines, n, index);
    if cond.None? {
      return None;
    }
    var end := cond.value.1;
    var term := FindStatementTerminator(lines, end.line, end.col, None, false);
    if term.None? {
      return None;
    }
    var last := TermLastLine(lines, term.value);
    if last.None? {
      return None;
    }
    return Some((end.line, last.value));
  }

  // The last line of what the terminator at `t` ends.
  method TermLastLine(lines: seq<string>, t: Loc) returns (r: Option<nat>)
    ensures r == TermLast(lines, t)
  {
    if IsPos(lines, t) && lines[t.line][t.col] == '{' {
      var block := FindCodeBlock(lines, t.line, t.col);
      if block.None? {
        return None;
      }
      return Some(block.value.1.line);
    }
    return Some(t.line);
  }

  method UnconditionalLines(lines: seq<string>, n: nat, isDo: bool) returns (r: Option<Parsed>)
    requires n < |lines|
    ensures r == UnconditionalGroup(lines, n, isDo)
  {
    var last := UnconditionalLastLine(lines, n, isDo);
    if last.None? {
      return None;
    }
    return Some(Parsed(Range(n, last.value + 1), Unconditional));
  }

  method UnconditionalLastLine(lines: seq<string>, n: nat, isDo: bool) returns (r: Option<nat>)
    requires n < |lines|
    ensures r == UnconditionalLast(lines, n, isDo)
  {
    var term := FindStatementTerminator(lines, n, 0, None, false);
    if term.None? {
      return None;
    }
    var t := term.value;
    if isDo {
      var block := FindCodeBlock(lines, t.line, t.col);
      if block.None? {
        return None;
      }
      var close := block.value.1;
      var after := FindStatementTerminator(lines, close.line, close.col, None, false);
      if after.None? {
        return None;
      }
      return Some(after.value.line);
    }
    r := TermLastLine(lines, t);
  }

  method CaseGroupLines(lines: seq<string>, n: nat) returns (r: Option<Parsed>)
    requires n < |lines|
    ensures r == Some(Parsed([n] + CaseLines(lines, n + 1, 1), SwitchCase))
  {
    var count := 1;
    var group: seq<nat> := [n];
    var lineN := n + 1;
    while lineN < |lines|
      invariant n + 1 <= lineN <= |lines|
      invariant group + CaseLines(lines, lineN, count) == [n] + CaseLines(lines, n + 1, 1)
    {
      if IsSwitchCaseLine(lines[lineN]) {
        break;
      }
      var line := lines[lineN];
      ghost var count0 := count;
      var j := 0;
      while j < |line|
        invariant 0 <= j <= |line|
        invariant ScanBraces(line, j, count) == ScanBraces(line, 0, count0)
        invariant group + CaseLines(lines, lineN, count0) == [n] + CaseLines(lines, n + 1, 1)
      {
        if line[j] == '{' {
          count := count + 1;
        } else if line[j] == '}' {
          count := count - 1;
          if count == 0 {
            assert ScanBraces(line, 0, count0) == ClosedAt(j);
            assert CaseLines(lines, lineN, count0) == if IsWhiteSpace(line[..j]) then [] else [lineN];
            if !IsWhiteSpace(line[..j]) {
              group := group + [lineN];
            }
            assert group == [n] + CaseLines(lines, n + 1, 1);
            return Some(Parsed(group, SwitchCase));
          }
        }
        j := j + 1;
      }
      assert ScanBraces(line, 0, count0) == Carried(count);
      group := group + [lineN];
      lineN := lineN + 1;
    }
    assert CaseLines(lines, lineN, count) == [];
    assert group == [n] + CaseLines(lines, n + 1, 1);
    r := Some(Parsed(group, SwitchCase));
  }

  // The rest of a function definition: the `{` after the header, then the block it opens.
  method FuncBodyLast(lines: seq<string>, t: Loc) returns (r: Option<nat>)
    ensures r == FuncLast(lines, t)
  {
    var brace := FindStatementTerminator(lines, t.line, t.col, Some('{'), false);
    if brace.None? {
      return None;
    }
    var block := FindCodeBlock(lines, brace.value.line, brace.value.col);
    if block.None? {
      return None;
    }
    return Some(block.value.1.line);
  }

  method StatementLines(lines: seq<string>, pats: Patterns, n: nat) returns (r: Option<Parsed>)
    requires n < |lines|
    ensures r == StatementGroup(lines, pats, n)
  {
    var last := StatementLastLine(lines, pats, n);
    if last.None? {
      return None;
    }
    return Some(Parsed(Range(n, last.value.0 + 1), last.value.1));
  }

  method StatementLastLine(lines: seq<string>, pats: Patterns, n: nat) returns (r: Option<(nat, Kind)>)
    requires n < |lines|
    ensures r == StatementLast(lines, pats, n)
  {
    var term := FindStatementTerminator(lines, n, 0, None, false);
    if term.None? {
      return None;
    }
    var t := term.value;
    var code := lines[n..t.line + 1];
    if pats.funcDef(code) && !pats.funcHdr(code) {
      var last := FuncBodyLast(lines, t);
      if last.None? {
        return None;
      }
      return Some((last.value, Func));
    }
    var last := TermLastLine(lines, t);
    if last.None? {
      return None;
    }
    return Some((last.value, if lines[t.line][t.col] == '{' then Structure else Statement));
  }

  // ---------------------------------------------------------------- what the groups are

  lemma RangeSnoc(a: nat, b: nat)
    requires a <= b
    ensures Range(a, b) + [b] == Range(a, b + 1)
  {
    assert |Range(a, b) + [b]| == |Range(a, b + 1)|;
  }

  lemma RangeJoin(a: nat, b: nat, c: nat)
    requires a <= b <= c
    ensures Range(a, b) + Range(b, c) == Range(a, c)
  {
    assert |Range(a, b) + Range(b, c)| == |Range(a, c)|;
  }

  // The lines a case label takes in after its own line are the run of lines that follow it.
  lemma {:induction false} CaseLinesRun(lines: seq<string>, m: nat, count: int)
    requires m <= |lines|
    ensures m + |CaseLines(lines, m, count)| <= |lines|
    ensures CaseLines(lines, m, count) == Range(m, m + |CaseLines(lines, m, count)|)
    decreases |lines| - m
  {
    if m < |lines| && !IsSwitchCaseLine(lines[m]) && ScanBraces(lines[m], 0, count).Carried? {
      var c := ScanBraces(lines[m], 0, count).count;
      CaseLinesRun(lines, m + 1, c);
      var rest := CaseLines(lines, m + 1, c);
      RangeJoin(m, m + 1, m + 1 + |rest|);
    }
  }

  lemma RangeCons(a: nat, rest: seq<nat>)
    requires rest == Range(a + 1, a + 1 + |rest|)
    ensures [a] + rest == Range(a, a + 1 + |rest|)
  {
  }

  // The group of a case label is the run from its line on.
  lemma CaseRun(lines: seq<string>, n: nat, count: int)
    requires n < |lines|
    ensures RunFrom([n] + CaseLines(lines, n + 1, count), n, |lines|)
  {
    var rest := CaseLines(lines, n + 1, count);
    CaseLinesRun(lines, n + 1, count);
    RangeCons(n, rest);
  }

  // `parse_line(n)` yields a group that starts at line `n` and stays within the text; unless line
  // `n` opens a block comment that is never closed, the group is the run of lines from `n` to its
  // last line.
  lemma ParseGroupShape(lines: seq<string>, pats: Patterns, n: nat)
    requires n < |lines|
    ensures var r := ParseSpec(lines, pats, n);
            r.Some? ==>
              var g := r.value.group;
              |g| > 0 && g[0] == n && (forall i :: 0 <= i < |g| ==> n <= g[i] < |lines|)
              && (!OpensUnclosedComment(lines, n) ==> IsRun(g, n, g[|g| - 1]))
  {
    var line := LStrip(lines[n]);
    var r := ParseSpec(lines, pats, n);
    if r.Some? {
      if OpensUnclosedComment(lines, n) {
        UnclosedCommentShape(lines, pats, n);
      } else {
        ClosedShape(lines, pats, n);
        RunShape(r.value.group, n, |lines|);
      }
    }
  }

  // Unless line `n` opens a block comment that is never closed, the group is a run from `n`.
  lemma ClosedShape(lines: seq<string>, pats: Patterns, n: nat)
    requires n < |lines| && !OpensUnclosedComment(lines, n)
    ensures var r := ParseSpec(lines, pats, n);
            r.Some? ==> RunFrom(r.value.group, n, |lines|)
  {
    var line := LStrip(lines[n]);
    if |line| == 0 {
      BlankShape(lines, pats, n);
    } else if IsLineComment(line) {
    } else if IsBlockComment(line) {
      ClosedCommentShape(lines, pats, n);
    } else {
      CodeShape(lines, pats, n);
    }
  }

  lemma BlankShape(lines: seq<string>, pats: Patterns, n: nat)
    requires n < |lines| && |LStrip(lines[n])| == 0
    ensures var r := ParseSpec(lines, pats, n);
            r.Some? ==> RunFrom(r.value.group, n, |lines|)
  {
  }

  lemma ClosedCommentShape(lines: seq<string>, pats: Patterns, n: nat)
    requires n < |lines| && |LStrip(lines[n])| != 0
    requires !IsLineComment(LStrip(lines[n])) && IsBlockComment(LStrip(lines[n]))
    requires CommentCloseLine(lines, n, Find(lines[n], "/*"), n).Some?
    ensures var r := ParseSpec(lines, pats, n);
            r.Some? ==> RunFrom(r.value.group, n, |lines|)
  {
  }

  lemma CodeShape(lines: seq<string>, pats: Patterns, n: nat)
    requires n < |lines| && |LStrip(lines[n])| != 0
    requires !IsLineComment(LStrip(lines[n])) && !IsBlockComment(LStrip(lines[n]))
    ensures var r := ParseSpec(lines, pats, n);
            r.Some? ==> RunFrom(r.value.group, n, |lines|)
  {
    CodeIsDispatch(lines, pats, n);
  }

  lemma UnclosedCommentShape(lines: seq<string>, pats: Patterns, n: nat)
    requires n < |lines| && OpensUnclosedComment(lines, n)
    ensures var r := ParseSpec(lines, pats, n);
            r.Some? ==> var g := r.value.group;
                        |g| > 0 && g[0] == n && (forall i :: 0 <= i < |g| ==> n <= g[i] < |lines|)
  {
    var r := ParseSpec(lines, pats, n);
    var pre := Range(n, |lines|);
    assert r == ParseCode(lines, pats, n, pre);
    if r.Some? {
      PrefixedShape(pre, r.value.group, n, |lines|);
    }
  }

  // What a run of line indices looks like element by element.
  lemma RunShape(g: seq<nat>, n: nat, bound: nat)
    requires RunFrom(g, n, bound)
    ensures |g| > 0 && g[0] == n && (forall i :: 0 <= i < |g| ==> n <= g[i] < bound)
    ensures IsRun(g, n, g[|g| - 1])
  {
  }

  // A group made of every line from `n` on, followed by a run from `n`, starts at `n` and stays in
  // the text.
  lemma PrefixedShape(pre: seq<nat>, g: seq<nat>, n: nat, bound: nat)
    requires n < bound && pre == Range(n, bound)
    requires |pre| < |g| && g[..|pre|] == pre && RunFrom(g[|pre|..], n, bound)
    ensures |g| > 0 && g[0] == n && (forall i :: 0 <= i < |g| ==> n <= g[i] < bound)
  {
    forall i | 0 <= i < |g| ensures n <= g[i] < bound {
      if i < |pre| {
        assert g[i] == g[..|pre|][i];
      } else {
        assert g[i] == g[|pre|..][i - |pre|];
      }
    }
    assert g[0] == g[..|pre|][0];
  }

  // A line index belongs to a run exactly when it lies between the run's bounds.
  lemma RangeMember(a: nat, b: nat, i: nat)
    ensures i in Range(a, b) <==> a <= i < b
  {
    if a <= i < b {
      assert Range(a, b)[i - a] == i;
    }
  }

  // Lines `a` through `b`, both included, are blank.
  predicate AllBlank(lines: seq<string>, a: nat, b: nat)
    requires b < |lines|
  {
    forall k :: a <= k <= b ==> IsBlank(lines[k])
  }

  // A blank line takes in exactly the blank lines that directly follow it: a later line belongs to
  // the group if and only if it and every line before it down to `n` are blank.
  lemma BlankRunAbsorbs(lines: seq<string>, pats: Patterns, n: nat)
    requires n < |lines| && IsBlank(lines[n])
    ensures var r := ParseSpec(lines, pats, n);
            r.Some? && r.value.kind == EmptyLine
            && forall i :: n <= i < |lines| ==> (i in r.value.group <==> AllBlank(lines, n, i))
  {
    BlankParsed(lines, pats, n);
    var e := BlankRunMembers(lines, n);
    var g := ParseSpec(lines, pats, n).value.group;
    assert g == Range(n, e);
  }

  lemma BlankParsed(lines: seq<string>, pats: Patterns, n: nat)
    requires n < |lines| && IsBlank(lines[n])
    ensures ParseSpec(lines, pats, n) == GroupTo(n, Some(BlankRunEnd(lines, n + 1) - 1), EmptyLine, |lines|)
  {
  }

  lemma BlankRunMembers(lines: seq<string>, n: nat) returns (e: nat)
    requires n < |lines| && IsBlank(lines[n])
    ensures e == BlankRunEnd(lines, n + 1)
    ensures forall i :: n <= i < |lines| ==> (i in Range(n, e) <==> AllBlank(lines, n, i))
  {
    e := BlankRunEnd(lines, n + 1);
    forall i | n <= i < |lines| ensures i in Range(n, e) <==> AllBlank(lines, n, i) {
      RangeMember(n, e, i);
      if i >= e {
        assert !IsBlank(lines[e]);
      }
    }
  }

  // A line led by `//` is a group of its own.
  lemma LineCommentAlone(lines: seq<string>, pats: Patterns, n: nat)
    requires n < |lines| && !IsBlank(lines[n]) && IsLineComment(LStrip(lines[n]))
    ensures var r := ParseSpec(lines, pats, n);
            r.Some? && r.value.kind == Cmmt && r.value.group == [n]
  {
  }

  // A block comment that is closed takes in the lines up to the first one holding `*/` (on its own
  // line, only a `*/` after the opening `/*` counts).
  lemma BlockCommentGroup(lines: seq<string>, pats: Patterns, n: nat, c: nat) returns (m: nat)
    requires n < |lines| && !IsBlank(lines[n])
    requires !IsLineComment(LStrip(lines[n])) && IsBlockComment(LStrip(lines[n]))
    requires n <= c < |lines| && FindFrom(lines[c], "*/", if c == n then Find(lines[n], "/*") + 2 else 0) != -1
    ensures n <= m <= c
    ensures var r := ParseSpec(lines, pats, n);
            r.Some? && r.value.kind == BlockCmmt && r.value.group == Range(n, m + 1)
    ensures forall i :: n <= i < m ==> FindFrom(lines[i], "*/", if i == n then Find(lines[n], "/*") + 2 else 0) == -1
  {
    var close := CommentCloseLine(lines, n, Find(lines[n], "/*"), n);
    assert close.Some?;
    m := close.value;
    CommentParsed(lines, pats, n, m);
  }

  lemma CommentParsed(lines: seq<string>, pats: Patterns, n: nat, m: nat)
    requires n < |lines| && !IsBlank(lines[n])
    requires !IsLineComment(LStrip(lines[n])) && IsBlockComment(LStrip(lines[n]))
    requires CommentCloseLine(lines, n, Find(lines[n], "/*"), n) == Some(m)
    ensures ParseSpec(lines, pats, n) == GroupTo(n, Some(m), BlockCmmt, |lines|)
  {
  }

  // The last line of a directive ends the backslash continuation: every line before it ends in a
  // backslash, and it does not, unless it is the last line of the text.
  lemma {:induction false} DirectiveEndMeaning(lines: seq<string>, m: nat)
    requires m < |lines|
    ensures var e := DirectiveEnd(lines, m);
            (forall i :: m <= i < e ==> EndsWith(RStrip(lines[i]), "\\"))
            && (e == |lines| - 1 || !EndsWith(RStrip(lines[e]), "\\"))
    decreases |lines| - m
  {
    if EndsWith(RStrip(lines[m]), "\\") && m + 1 < |lines| {
      DirectiveEndMeaning(lines, m + 1);
    }
  }

  // A line that is neither blank nor a comment is dispatched on its keyword.
  lemma CodeIsDispatch(lines: seq<string>, pats: Patterns, n: nat)
    requires n < |lines| && |LStrip(lines[n])| != 0
    requires !IsLineComment(LStrip(lines[n])) && !IsBlockComment(LStrip(lines[n]))
    ensures ParseSpec(lines, pats, n) == Dispatch(lines, pats, n, MatchSpec(lines[n]))
  {
  }

  // A directive line without a control keyword takes in the lines continued by backslashes: every
  // line of the group but the last ends in a backslash, and the last does not unless it ends the text.
  lemma DirectiveDispatch(lines: seq<string>, pats: Patterns, n: nat, m: KwMatch) returns (last: nat)
    requires n < |lines| && (m.Found? ==> m.index < |lines[n]|)
    requires !(m.Found? && (IsConditional(m.kw) || IsUnconditional(m.kw) || IsSwitchCase(m.kw)))
    requires IsDirective(LStrip(lines[n]))
    ensures var r := Dispatch(lines, pats, n, m);
            r.Some? && r.value.kind == Directive && r.value.group == Range(n, last + 1)
    ensures n <= last < |lines|
    ensures forall i :: n <= i < last ==> EndsWith(RStrip(lines[i]), "\\")
    ensures last == |lines| - 1 || !EndsWith(RStrip(lines[last]), "\\")
  {
    DirectiveIsDispatched(lines, pats, n, m);
    last := DirectiveEnd(lines, n);
    DirectiveEndMeaning(lines, n);
  }

  lemma DirectiveIsDispatched(lines: seq<string>, pats: Patterns, n: nat, m: KwMatch)
    requires n < |lines| && (m.Found? ==> m.index < |lines[n]|)
    requires !(m.Found? && (IsConditional(m.kw) || IsUnconditional(m.kw) || IsSwitchCase(m.kw)))
    requires IsDirective(LStrip(lines[n]))
    ensures Dispatch(lines, pats, n, m) == DirectiveGroup(lines, n)
  {
  }

  // ---------------------------------------------------------------- what each branch ends on

  // A `{` of the text.
  predicate OpensBrace(lines: seq<string>, p: Loc) {
    IsPos(lines, p) && lines[p.line][p.col] == '{'
  }

  // The `}` at `close` balances the `{` at `open`: reading on from the `{`, the count of braces
  // stays positive up to that `}` and is zero through it.
  ghost predicate ClosesBlock(lines: seq<string>, open: Loc, close: Loc) {
    OpensBrace(lines, open)
    && var s := Stream(lines, open.line, open.col);
       exists k: nat :: 0 < k < |s| && s[k] == Ch(close, '}') && Balance(s, k, '{', '}') == 0
                        && forall i :: 0 <= i < k ==> Balance(s, i, '{', '}') > 0
  }

  // No `}` balances the `{` at `open`: the count stays positive to the end of the text.
  ghost predicate NeverCloses(lines: seq<string>, open: Loc) {
    OpensBrace(lines, open)
    && var s := Stream(lines, open.line, open.col);
       forall i :: 0 <= i < |s| ==> Balance(s, i, '{', '}') > 0
  }

  // The construct whose terminator is at `t` ends on line `last`: the line of the `}` that balances
  // a `{`, or the terminator's own line for a `;`.
  ghost predicate EndsOn(lines: seq<string>, t: Loc, last: nat) {
    IsPos(lines, t)
    && if lines[t.line][t.col] == '{' then exists c :: ClosesBlock(lines, t, c) && c.line == last
       else last == t.line
  }

  lemma BlockLastMeaning(lines: seq<string>, b: Loc)
    requires OpensBrace(lines, b)
    ensures BlockLast(lines, b).Some? ==> exists c :: ClosesBlock(lines, b, c) && c.line == BlockLast(lines, b).value
    ensures BlockLast(lines, b).None? ==> NeverCloses(lines, b)
  {
    CodeBlockIsBalanced(lines, b.line, b.col);
    var block := CodeBlockSpec(lines, b.line, b.col);
    if block.Some? {
      assert ClosesBlock(lines, b, block.value.1);
    }
  }

  // What `TermLast` finds for a terminator of the text.
  lemma TermLastMeaning(lines: seq<string>, t: Loc)
    requires IsPos(lines, t)
    ensures TermLast(lines, t).Some? ==> EndsOn(lines, t, TermLast(lines, t).value)
    ensures TermLast(lines, t).None? ==> NeverCloses(lines, t)
  {
    if lines[t.line][t.col] == '{' {
      BlockLastMeaning(lines, t);
    }
  }

  // The `do` construct whose first terminator is the `{` at `b` ends on line `last`: the line of the
  // first `;` or `{` after the `}` that balances `b` (the one that ends `while (...);`).
  ghost predicate DoEndsOn(lines: seq<string>, b: Loc, last: nat) {
    exists c :: ClosesBlock(lines, b, c)
                && var e := TerminatorSpec(lines, c.line, c.col, None, false);
                   e.Some? && FirstStop(lines, c.line, c.col, None, false, e.value) && e.value.line == last
  }

  // Why no `do` construct is found from its first terminator `b`: `b` is not a `{`, no `}` balances
  // it, or no `;` or `{` follows the balancing `}`.
  ghost predicate DoUnended(lines: seq<string>, b: Loc) {
    !OpensBrace(lines, b) || NeverCloses(lines, b)
    || exists c :: ClosesBlock(lines, b, c) && TerminatorSpec(lines, c.line, c.col, None, false).None?
  }

  lemma DoLastMeaning(lines: seq<string>, b: Loc)
    ensures DoLast(lines, b).Some? ==> OpensBrace(lines, b) && DoEndsOn(lines, b, DoLast(lines, b).value)
    ensures DoLast(lines, b).None? ==> DoUnended(lines, b)
  {
    CodeBlockIsBalanced(lines, b.line, b.col);
    var block := CodeBlockSpec(lines, b.line, b.col);
    if block.Some? {
      var c := block.value.1;
      assert ClosesBlock(lines, b, c);
      TerminatorIsFirst(lines, c.line, c.col, None, false);
      var e := TerminatorSpec(lines, c.line, c.col, None, false);
      if e.Some? {
        assert DoLast(lines, b) == Some(e.value.line);
        assert DoEndsOn(lines, b, e.value.line);
      } else {
        assert DoLast(lines, b).None?;
      }
    } else if OpensBrace(lines, b) {
      assert NeverCloses(lines, b);
    }
  }

  // A conditional (`if`, `else if`, `while`, `for`, `switch`) takes in the lines through the first
  // `;` or `{` after the condition's closing parenthesis, and for a `{` through the `}` that balances
  // it. There is no group when the condition, the terminator or the balancing `}` is missing.
  lemma ConditionalMeaning(lines: seq<string>, n: nat, index: nat) returns (last: nat)
    requires n < |lines| && index <= |lines[n]|
    ensures var r := ConditionalGroup(lines, n, index);
            var c := ConditionSpec(lines, n, index);
            r.Some? ==>
              r.value.kind == Conditional && r.value.group == Range(n, last + 1) && c.Some?
              && var t := TerminatorSpec(lines, c.value.1.line, c.value.1.col, None, false);
                 t.Some? && FirstStop(lines, c.value.1.line, c.value.1.col, None, false, t.value)
                 && EndsOn(lines, t.value, last)
    ensures var r := ConditionalGroup(lines, n, index);
            var c := ConditionSpec(lines, n, index);
            r.None? ==>
              c.None?
              || var t := TerminatorSpec(lines, c.value.1.line, c.value.1.col, None, false);
                 t.None? || NeverCloses(lines, t.value)
  {
    last := 0;
    var c := ConditionSpec(lines, n, index);
    if c.Some? {
      var end := c.value.1;
      var t := TerminatorSpec(lines, end.line, end.col, None, false);
      if t.Some? {
        TerminatorFound(lines, end.line, end.col, None, false);
        TermLastMeaning(lines, t.value);
        var l := TermLast(lines, t.value);
        if l.Some? {
          last := l.value;
          assert ConditionalLast(lines, n, index) == Some((end.line, last));
        } else {
          assert ConditionalLast(lines, n, index).None?;
        }
      } else {
        assert ConditionalLast(lines, n, index).None?;
      }
    } else {
      assert ConditionalLast(lines, n, index).None?;
    }
  }

  // `else` takes in the lines through the first `;` or `{` from the start of its line, and for a
  // `{` through the `}` that balances it.
  lemma ElseMeaning(lines: seq<string>, n: nat) returns (last: nat)
    requires n < |lines|
    ensures var r := UnconditionalGroup(lines, n, false);
            var t := TerminatorSpec(lines, n, 0, None, false);
            r.Some? ==>
              r.value.kind == Unconditional && r.value.group == Range(n, last + 1)
              && t.Some? && FirstStop(lines, n, 0, None, false, t.value) && EndsOn(lines, t.value, last)
    ensures var r := UnconditionalGroup(lines, n, false);
            var t := TerminatorSpec(lines, n, 0, None, false);
            r.None? ==> t.None? || NeverCloses(lines, t.value)
  {
    last := 0;
    var t := TerminatorSpec(lines, n, 0, None, false);
    if t.Some? {
      TerminatorFound(lines, n, 0, None, false);
      TermLastMeaning(lines, t.value);
      var l := TermLast(lines, t.value);
      if l.Some? {
        last := l.value;
        assert UnconditionalLast(lines, n, false) == Some(last);
      } else {
        assert UnconditionalLast(lines, n, false).None?;
      }
    } else {
      assert UnconditionalLast(lines, n, false).None?;
    }
  }

  // `do` takes in the lines through the `}` that balances the first terminator of its line, which
  // must be a `{`, and on through the first `;` or `{` after that `}`. There is no group when the
  // first terminator is not a `{` or any of these is missing.
  lemma DoMeaning(lines: seq<string>, n: nat) returns (last: nat)
    requires n < |lines|
    ensures var r := UnconditionalGroup(lines, n, true);
            var t := TerminatorSpec(lines, n, 0, None, false);
            r.Some? ==>
              r.value.kind == Unconditional && r.value.group == Range(n, last + 1)
              && t.Some? && FirstStop(lines, n, 0, None, false, t.value)
              && OpensBrace(lines, t.value) && DoEndsOn(lines, t.value, last)
    ensures var r := UnconditionalGroup(lines, n, true);
            var t := TerminatorSpec(lines, n, 0, None, false);
            r.None? ==> t.None? || DoUnended(lines, t.value)
  {
    last := 0;
    var t := TerminatorSpec(lines, n, 0, None, false);
    if t.Some? {
      TerminatorFound(lines, n, 0, None, false);
      DoLastMeaning(lines, t.value);
      var l := DoLast(lines, t.value);
      if l.Some? {
        last := l.value;
        assert UnconditionalLast(lines, n, true) == Some(last);
      } else {
        assert UnconditionalLast(lines, n, true).None?;
      }
    } else {
      assert UnconditionalLast(lines, n, true).None?;
    }
  }

  // The group of a function definition: through the `}` that balances the first `{` from the
  // terminator `t` of its first statement.
  lemma FuncLastMeaning(lines: seq<string>, t: Loc)
    requires IsPos(lines, t)
    ensures var f := TerminatorSpec(lines, t.line, t.col, Some('{'), false);
            FuncLast(lines, t).Some? ==>
              f.Some? && FirstStop(lines, t.line, t.col, Some('{'), false, f.value)
              && exists c :: ClosesBlock(lines, f.value, c) && c.line == FuncLast(lines, t).value
    ensures var f := TerminatorSpec(lines, t.line, t.col, Some('{'), false);
            FuncLast(lines, t).None? ==> f.None? || NeverCloses(lines, f.value)
  {
    var f := TerminatorSpec(lines, t.line, t.col, Some('{'), false);
    if f.Some? {
      TerminatorIsFirst(lines, t.line, t.col, Some('{'), false);
      BlockLastMeaning(lines, f.value);
    }
  }

  // How the construct whose first statement starts on line `n` and ends at the terminator `t` ends:
  // with the shape of a function definition (and not of a prototype), at the `}` that balances the
  // first `{` from `t`; otherwise a `{` makes a structure that ends at its balancing `}`, and a `;`
  // ends a statement on its own line.
  ghost predicate StatementEndsOn(lines: seq<string>, pats: Patterns, n: nat, t: Loc, kind: Kind, last: nat)
    requires n <= t.line < |lines|
  {
    var code := lines[n..t.line + 1];
    if pats.funcDef(code) && !pats.funcHdr(code) then
      var f := TerminatorSpec(lines, t.line, t.col, Some('{'), false);
      kind == Func && f.Some? && FirstStop(lines, t.line, t.col, Some('{'), false, f.value)
      && exists c :: ClosesBlock(lines, f.value, c) && c.line == last
    else
      kind == (if OpensBrace(lines, t) then Structure else Statement) && EndsOn(lines, t, last)
  }

  // Why no construct is found from the terminator `t`: the `{` the definition needs, or the `}`
  // that balances it, is missing.
  ghost predicate StatementUnended(lines: seq<string>, pats: Patterns, n: nat, t: Loc)
    requires n <= t.line < |lines|
  {
    var code := lines[n..t.line + 1];
    if pats.funcDef(code) && !pats.funcHdr(code) then
      var f := TerminatorSpec(lines, t.line, t.col, Some('{'), false);
      f.None? || NeverCloses(lines, f.value)
    else NeverCloses(lines, t)
  }

  lemma StatementLastMeaning(lines: seq<string>, pats: Patterns, n: nat)
    requires n < |lines|
    ensures var r := StatementLast(lines, pats, n);
            var t := TerminatorSpec(lines, n, 0, None, false);
            r.Some? ==> t.Some? && StatementEndsOn(lines, pats, n, t.value, r.value.1, r.value.0)
    ensures var r := StatementLast(lines, pats, n);
            var t := TerminatorSpec(lines, n, 0, None, false);
            r.None? ==> t.None? || StatementUnended(lines, pats, n, t.value)
  {
    var t := TerminatorSpec(lines, n, 0, None, false);
    if t.Some? {
      var code := lines[n..t.value.line + 1];
      if pats.funcDef(code) && !pats.funcHdr(code) {
        FuncLastMeaning(lines, t.value);
      } else {
        TermLastMeaning(lines, t.value);
      }
    }
  }

  // Any other line starts a function definition, a structure or a statement, which runs at least
  // through the first `;` or `{` from the start of the line, and then as `StatementEndsOn` says.
  lemma StatementMeaning(lines: seq<string>, pats: Patterns, n: nat) returns (last: nat)
    requires n < |lines|
    ensures var r := StatementGroup(lines, pats, n);
            var t := TerminatorSpec(lines, n, 0, None, false);
            r.Some? ==>
              r.value.group == Range(n, last + 1) && t.Some? && FirstStop(lines, n, 0, None, false, t.value)
              && StatementEndsOn(lines, pats, n, t.value, r.value.kind, last)
    ensures var r := StatementGroup(lines, pats, n);
            var t := TerminatorSpec(lines, n, 0, None, false);
            r.None? ==> t.None? || StatementUnended(lines, pats, n, t.value)
  {
    last := 0;
    TerminatorIsFirst(lines, n, 0, None, false);
    StatementLastMeaning(lines, pats, n);
    if StatementLast(lines, pats, n).Some? {
      last := StatementLast(lines, pats, n).value.0;
    }
  }

  // ---------------------------------------------------------------- where a case group ends

  // The brace count of one line, as the case branch keeps it, is the balanced scan of the text.
  lemma {:induction false} ScanBracesIsCloseFrom(lines: seq<string>, l: nat, j: nat, count: int)
    requires l < |lines|
    ensures match ScanBraces(lines[l], j, count)
            case ClosedAt(c) => CloseFrom(lines, l, j, '{', '}', count) == Some(Loc(l, c))
            case Carried(d) => CloseFrom(lines, l, j, '{', '}', count) == CloseFrom(lines, l + 1, 0, '{', '}', d)
    decreases |lines[l]| - j
  {
    if j < |lines[l]| {
      var c := lines[l][j];
      ScanBracesIsCloseFrom(lines, l, j + 1, count + (if c == '{' then 1 else if c == '}' then -1 else 0));
    }
  }

  // The balanced scan answers with a position of the text at or after its start line.
  lemma {:induction false} CloseFromInText(lines: seq<string>, l: nat, j: nat, depth: int)
    ensures var z := CloseFrom(lines, l, j, '{', '}', depth);
            z.Some? ==> IsPos(lines, z.value) && l <= z.value.line
    decreases |lines| - l, (if l < |lines| then |lines[l]| - j else 0)
  {
    if l < |lines| {
      if j < |lines[l]| {
        var c := lines[l][j];
        CloseFromInText(lines, l, j + 1, depth + (if c == '{' then 1 else if c == '}' then -1 else 0));
      } else {
        CloseFromInText(lines, l + 1, 0, depth);
      }
    }
  }

  // The lines a case label takes in from line `m` on, with `count` braces open, end at `e`: no line
  // before `e` is a case label; the `}` `z` that brings the count to zero is not before the last
  // line taken in, and is that line only when what precedes it is not white space (a run of at
  // least one space or tab; the empty text before a column-0 `}` is not one); and the group stops at
  // the end of the text, at a case label, at `z`'s line when white space precedes `z`, or just after
  // `z`.
  predicate CaseEndsAt(lines: seq<string>, m: nat, e: nat, z: Option<Loc>) {
    m <= e <= |lines|
    && (forall i :: m <= i < e ==> !IsSwitchCaseLine(lines[i]))
    && (z.Some? ==> IsPos(lines, z.value) && e <= z.value.line + 1
                    && (z.value.line + 1 == e ==> !IsWhiteSpace(lines[z.value.line][..z.value.col])))
    && (e == |lines| || IsSwitchCaseLine(lines[e])
        || (z.Some? && z.value.line == e && IsWhiteSpace(lines[e][..z.value.col]))
        || (z.Some? && z.value.line + 1 == e))
  }

  lemma {:induction false} CaseLinesEnd(lines: seq<string>, m: nat, count: int)
    requires m <= |lines|
    ensures CaseEndsAt(lines, m, m + |CaseLines(lines, m, count)|, CloseFrom(lines, m, 0, '{', '}', count))
    decreases |lines| - m
  {
    if m < |lines| && !IsSwitchCaseLine(lines[m]) {
      var sb := ScanBraces(lines[m], 0, count);
      if sb.ClosedAt? {
        CaseClosesOnLine(lines, m, count, sb.col);
      } else {
        CaseLinesEnd(lines, m + 1, sb.count);
        CaseCarriedStep(lines, m, count, sb.count);
      }
    } else {
      CaseStopsAt(lines, m, count);
    }
  }

  // The group stops at the end of the text or at a case label.
  lemma CaseStopsAt(lines: seq<string>, m: nat, count: int)
    requires m <= |lines| && (m < |lines| ==> IsSwitchCaseLine(lines[m]))
    ensures CaseEndsAt(lines, m, m + |CaseLines(lines, m, count)|, CloseFrom(lines, m, 0, '{', '}', count))
  {
    CloseFromInText(lines, m, 0, count);
    assert CaseLines(lines, m, count) == [];
  }

  // The step where line `m` holds the `}` that closes the switch.
  lemma CaseClosesOnLine(lines: seq<string>, m: nat, count: int, j: nat)
    requires m < |lines| && !IsSwitchCaseLine(lines[m])
    requires ScanBraces(lines[m], 0, count) == ClosedAt(j)
    ensures CaseEndsAt(lines, m, m + |CaseLines(lines, m, count)|, CloseFrom(lines, m, 0, '{', '}', count))
  {
    ScanBracesIsCloseFrom(lines, m, 0, count);
    assert CaseLines(lines, m, count) == if IsWhiteSpace(lines[m][..j]) then [] else [m];
  }

  // The step where line `m` is taken in and the count carries on to the next line.
  lemma CaseCarriedStep(lines: seq<string>, m: nat, count: int, c: int)
    requires m < |lines| && !IsSwitchCaseLine(lines[m])
    requires ScanBraces(lines[m], 0, count) == Carried(c)
    requires CaseEndsAt(lines, m + 1, m + 1 + |CaseLines(lines, m + 1, c)|, CloseFrom(lines, m + 1, 0, '{', '}', c))
    ensures CaseEndsAt(lines, m, m + |CaseLines(lines, m, count)|, CloseFrom(lines, m, 0, '{', '}', count))
  {
    ScanBracesIsCloseFrom(lines, m, 0, count);
    CaseLinesCarried(lines, m, count, c);
    CaseEndsAtExtend(lines, m, m + 1 + |CaseLines(lines, m + 1, c)|, CloseFrom(lines, m + 1, 0, '{', '}', c));
  }

  lemma CaseLinesCarried(lines: seq<string>, m: nat, count: int, c: int)
    requires m < |lines| && !IsSwitchCaseLine(lines[m]) && ScanBraces(lines[m], 0, count) == Carried(c)
    ensures CaseLines(lines, m, count) == [m] + CaseLines(lines, m + 1, c)
  {
  }

  // A line that is not a case label extends the group that follows it.
  lemma CaseEndsAtExtend(lines: seq<string>, m: nat, e: nat, z: Option<Loc>)
    requires m < |lines| && !IsSwitchCaseLine(lines[m]) && CaseEndsAt(lines, m + 1, e, z)
    ensures CaseEndsAt(lines, m, e, z)
  {
  }

  // A `case` or `default` line takes in the lines that follow it up to the next case label, or up to
  // the `}` that closes the `switch`, that line included unless spaces or tabs, and nothing else,
  // precede the brace.
  lemma CaseMeaning(lines: seq<string>, n: nat)
    requires n < |lines|
    ensures var g := [n] + CaseLines(lines, n + 1, 1);
            g == Range(n, n + |g|) && CaseEndsAt(lines, n + 1, n + |g|, CloseFrom(lines, n + 1, 0, '{', '}', 1))
  {
    var rest := CaseLines(lines, n + 1, 1);
    CaseRun(lines, n, 1);
    CaseLinesEnd(lines, n + 1, 1);
    assert n + |[n] + rest| == n + 1 + |rest|;
  }

  // A `}` in column 0 that closes the switch is taken into the case group: the white-space pattern
  // needs at least one space or tab, and the empty text before the brace has none.
  lemma ColumnZeroCloseTakenIn(lines: seq<string>, m: nat)
    requires m < |lines| && |lines[m]| > 0 && lines[m][0] == '}'
    ensures CaseLines(lines, m, 1) == [m]
  {
  }

  // The `}` that closes the `switch` is the first `}` that brings the count of braces, one open at
  // the start of the line after the label, to zero.
  lemma SwitchCloseIsFirstZero(lines: seq<string>, l: nat)
    ensures CloseFrom(lines, l, 0, '{', '}', 1) == CloseScan(Stream(lines, l, 0), '{', '}', 1)
    ensures AnswersFirstZero(Stream(lines, l, 0), '{', '}', 1)
  {
    CloseFromIsScan(lines, l, 0, '{', '}', 1);
    CloseScanFirst(Stream(lines, l, 0), '{', '}', 1);
  }
}
