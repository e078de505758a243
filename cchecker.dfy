// The C checker object (`CStyleChecker`): the configuration the constructor
// derives, the checks that print diagnostics (here appended to `diags`), and
// the handlers that walk the groups of `parse_line`, each returning the line
// to resume at.
//
// The handlers call each other without a bound in the source (a one-line
// `if (x) {} else {}` makes `handle_cond` hand back its own line); here every
// nested call and every loop step spends one unit of `fuel`, and running out
// is the outcome `OutOfFuel`.
module CChecker {
  import opened Common
  import opened Keywords
  import opened Scan
  import opened Scanners
  import opened CPatterns
  import opened CParse
  import opened CMagic
  import opened CRules

  // What a handler gives back: the line to resume at, Python's `None`, an exception, or the end of
  // the fuel.
  datatype Outcome = Next(line: nat) | NoLine | Crash | OutOfFuel

  // `b` is `a` with diagnostics appended, each naming lines of the text.
  predicate Extends(lines: seq<string>, a: seq<Diag>, b: seq<Diag>) {
    |a| <= |b| && b[..|a|] == a && InText(lines, b[|a|..])
  }

  lemma ExtendsTrans(lines: seq<string>, a: seq<Diag>, b: seq<Diag>, c: seq<Diag>)
    requires Extends(lines, a, b) && Extends(lines, b, c)
    ensures Extends(lines, a, c)
  {
    assert c[..|a|] == c[..|b|][..|a|];
    assert c[|a|..] == b[|a|..] + c[|b|..];
    InTextJoin(lines, b[|a|..], c[|b|..]);
  }

  // One more line of a group in the search for a misindented line.
  lemma MisindentedStep(lines: seq<string>, group: seq<nat>, k: nat, amt: int, mode: Mode)
    requires AllIn(lines, group) && k < |group|
    ensures (exists i :: 0 <= i < k + 1 && Misindented(lines, group[i], group[0], amt, mode))
            == ((exists i :: 0 <= i < k && Misindented(lines, group[i], group[0], amt, mode))
                || Misindented(lines, group[k], group[0], amt, mode))
  {
  }

  lemma ExtendsRefl(lines: seq<string>, a: seq<Diag>)
    ensures Extends(lines, a, a)
  {
    assert a[..|a|] == a && a[|a|..] == [];
  }

  lemma ExtendsBy(lines: seq<string>, a: seq<Diag>, ds: seq<Diag>)
    requires InText(lines, ds)
    ensures Extends(lines, a, a + ds)
  {
    assert (a + ds)[..|a|] == a && (a + ds)[|a|..] == ds;
  }

  // A group that `parse_line` can yield: non-empty, of lines of the text.
  predicate GroupOk(lines: seq<string>, group: seq<nat>) {
    |group| > 0 && AllIn(lines, group)
  }

  function Last(group: seq<nat>): nat
    requires |group| > 0
  {
    group[|group| - 1]
  }

  // What the handler for a group of the given kind returns: the line after the group (after the
  // first line for a comment), except where it stops with an exception, runs out of fuel, finds no
  // `*/` (block comment), or a keyword follows the closing brace (conditional and unconditional).
  predicate ReturnsAfter(kind: Kind, group: seq<nat>, r: Outcome)
    requires |group| > 0
  {
    match kind
    case Directive => r == Next(Last(group) + 1)
    case Statement => r == Next(Last(group) + 1)
    case EmptyLine => r == Next(Last(group) + 1)
    case Cmmt => r == Next(group[0] + 1) || r == Crash
    case BlockCmmt => r == Next(Last(group) + 1) || r == NoLine
    case Func => r != NoLine && (r.Next? ==> r.line == Last(group) + 1)
    case Structure => r != NoLine && (r.Next? ==> r.line == Last(group) + 1)
    case SwitchCase => r != NoLine && (r.Next? ==> r.line == Last(group) + 1)
    case Conditional => r != NoLine
    case Unconditional => r != NoLine
  }

  // Text after a closing brace that makes a conditional or unconditional hand back its last line, so
  // that `} else {` is parsed again: not a comment, and a keyword is accepted in it.
  predicate KeywordFollows(after: string) {
    !IsLineComment(after) && !IsBlockComment(after) && MatchSpec(after).Found?
  }

  // The first line of a `do` group.
  predicate IsDoLine(line: string) {
    MatchSpec(line).Found? && MatchSpec(line).kw == Do
  }

  // The terminator `handle_cond` works from: the first stop after the `)` that closes the condition
  // following the keyword on line `n`.
  function CondTerminator(lines: seq<string>, n: nat): (t: Option<Loc>)
    requires n < |lines| && MatchSpec(lines[n]).Found?
    ensures t.Some? ==> IsPos(lines, t.value)
  {
    var c := ConditionSpec(lines, n, MatchSpec(lines[n]).index);
    if c.None? then None else TerminatorSpec(lines, c.value.1.line, c.value.1.col, None, true)
  }

  // The line a conditional or unconditional with a `{` at `t` hands back: `find_code_block` finds
  // the `}` balancing that `{`, and the result is the group's last line when a keyword follows the `}`
  // (never after a `do` block), the line after the group otherwise.
  predicate BlockReturn(lines: seq<string>, group: seq<nat>, t: Loc, line: nat, isDo: bool)
    requires |group| > 0
  {
    var b := CodeBlockSpec(lines, t.line, t.col);
    b.Some? && line == (if !isDo && KeywordFollows(lines[b.value.1.line][b.value.1.col + 1..]) then Last(group) else Last(group) + 1)
  }

  // The line a conditional or unconditional whose terminator is at `t` hands back, if any: after a
  // `{`, as `BlockReturn` says; after any other terminator, the non-zero line `handle_terminator`
  // returns, which is the next line when the terminator is on the group's first line.
  predicate TerminatorReturn(lines: seq<string>, group: seq<nat>, t: Loc, r: Outcome, isDo: bool)
    requires |group| > 0 && IsPos(lines, t)
  {
    r.Next? ==>
      if lines[t.line][t.col] == '{' then BlockReturn(lines, group, t, r.line, isDo)
      else r.line != 0 && (t.line == group[0] ==> r.line == t.line + 1)
  }

  // What the handlers need of a group `parse_line(n)` yields: a group of the text starting at `n`,
  // and an accepted keyword on a conditional's first line.
  predicate Handleable(lines: seq<string>, n: nat, p: Parsed) {
    GroupOk(lines, p.group) && p.group[0] == n && (p.kind == Conditional ==> n < |lines| && MatchSpec(lines[n]).Found?)
  }

  lemma ParsedHandleable(lines: seq<string>, pats: Patterns, n: nat)
    requires n < |lines|
    ensures ParseSpec(lines, pats, n).Some? ==> Handleable(lines, n, ParseSpec(lines, pats, n).value)
  {
    ParseGroupShape(lines, pats, n);
    ConditionalHasKeyword(lines, pats, n);
  }

  class CStyleChecker {
    const lines: seq<string>
    const checkWs: bool
    const pats: Patterns
    var indentAmt: int
    var caseIndent: Option<int>
    var diags: seq<Diag>

    constructor (lines: seq<string>, checkWs: bool, pats: Patterns, indentAmt: int, caseIndent: Option<int>)
      ensures this.lines == lines && this.checkWs == checkWs && this.pats == pats
      ensures this.indentAmt == indentAmt && this.caseIndent == caseIndent && diags == []
    {
      this.lines := lines;
      this.checkWs := checkWs;
      this.pats := pats;
      this.indentAmt := indentAmt;
      this.caseIndent := caseIndent;
      diags := [];
    }

    // `override_indent_amt(amt)`: the amount changes; `case_indent` follows it unless it is 0. With
    // `case_indent` unset the source raises after the first assignment.
    method OverrideIndentAmt(amt: int) returns (crashed: bool)
      modifies this`indentAmt, this`caseIndent
      ensures indentAmt == amt
      ensures crashed == old(caseIndent).None?
      ensures caseIndent == match old(caseIndent)
                            case None => None
                            case Some(c) => if c != 0 then Some(amt) else Some(0)
    {
      indentAmt := amt;
      if caseIndent.None? {
        return true;
      }
      crashed := false;
      if caseIndent.value != 0 {
        caseIndent := Some(indentAmt);
      }
    }

    // ------------------------------------------------------------ checks

    // `handle_whitespace(group)`.
    method HandleWhitespace(group: seq<nat>) returns (r: Outcome)
      requires GroupOk(lines, group)
      modifies this`diags
      ensures diags == old(diags) + WhitespaceDiags(lines, checkWs, group)
      ensures Extends(lines, old(diags), diags)
      ensures r == Next(Last(group) + 1)
    {
      assert Extends(lines, diags, diags + WhitespaceDiags(lines, checkWs, group)) by {
        WhitespaceDiagsInText(lines, checkWs, group);
        ExtendsBy(lines, diags, WhitespaceDiags(lines, checkWs, group));
      }
      if checkWs {
        var tooLong := false;
        var k := 0;
        while k < |group|
          invariant k <= |group|
          invariant tooLong == exists i :: 0 <= i < k && |lines[group[i]]| > 1
        {
          if |lines[group[k]]| > 1 {
            tooLong := true;
          }
          k := k + 1;
        }
        if tooLong {
          diags := diags + [Diag(ExtraWhitespaceOnEmpty, group[0], Last(group))];
        }
      }
      if |group| > NewlinesLimit {
        diags := diags + [Diag(ExcessNewlines, group[0], Last(group))];
      }
      r := Next(Last(group) + 1);
    }

    // `check_indentation(group, amt, all_exact, relax)`.
    method CheckIndentation(group: seq<nat>, amt: int, mode: Mode)
      requires AllIn(lines, group)
      modifies this`diags
      ensures diags == old(diags) + IndentDiags(lines, checkWs, group, amt, mode)
      ensures Extends(lines, old(diags), diags)
    {
      var error := false;
      var k := 0;
      ghost var seen: seq<nat> := [];
      while k < |group|
        invariant k <= |group| && seen == group[..k]
        invariant diags == old(diags) + EmptyLineDiags(lines, checkWs, seen)
        invariant error == exists i :: 0 <= i < k && Misindented(lines, group[i], group[0], amt, mode)
      {
        MisindentedStep(lines, group, k, amt, mode);
        var bad := IndentLine(group[k], group[0], amt, mode);
        error := error || bad;
        assert (seen + [group[k]])[..|seen|] == seen;
        seen := seen + [group[k]];
        k := k + 1;
      }
      assert group[..k] == group;
      if error {
        diags := diags + [Diag(InconsistentIndentation, group[0], Last(group))];
      }
      assert Extends(lines, old(diags), old(diags) + IndentDiags(lines, checkWs, group, amt, mode)) by {
        IndentDiagsInText(lines, checkWs, group, amt, mode);
        ExtendsBy(lines, old(diags), IndentDiags(lines, checkWs, group, amt, mode));
      }
    }

    // One pass of the loop in `check_indentation`: a whitespace-only line goes to
    // `handle_whitespace([n])`, any other line is tested against the rule of `mode`.
    method IndentLine(n: nat, first: nat, amt: int, mode: Mode) returns (bad: bool)
      requires n < |lines|
      modifies this`diags
      ensures diags == old(diags) + (if IsWhiteSpace(lines[n]) then WhitespaceDiags(lines, checkWs, [n]) else [])
      ensures bad == Misindented(lines, n, first, amt, mode)
    {
      if IsWhiteSpace(lines[n]) {
        var _ := HandleWhitespace([n]);
        bad := false;
      } else {
        bad := LineMisindented(n, first, amt, mode);
      }
    }

    // The test `check_indentation` applies to a line `n` that is not whitespace only.
    method LineMisindented(n: nat, first: nat, amt: int, mode: Mode) returns (bad: bool)
      requires n < |lines| && !IsWhiteSpace(lines[n])
      ensures bad == Misindented(lines, n, first, amt, mode)
    {
      var actual := Indent(lines[n]);
      match mode {
        case AllExact => bad := actual != amt;
        case Relax => bad := actual < amt;
        case FirstExact =>
          if n == first {
            bad := actual != amt;
          } else {
            bad := actual < amt;
          }
      }
    }

    // `handle_trailing_string(trail, n, term)`.
    method HandleTrailingString(trail: string, n: nat, term: string)
      modifies this`diags
      ensures diags == old(diags) + TrailDiags(checkWs, trail, n, term)
      ensures n < |lines| ==> Extends(lines, old(diags), diags)
    {
      if n < |lines| {
        assert Extends(lines, diags, diags + TrailDiags(checkWs, trail, n, term)) by {
          TrailDiagsInText(lines, checkWs, trail, n, term);
          ExtendsBy(lines, diags, TrailDiags(checkWs, trail, n, term));
        }
      }
      if |trail| != 0 {
        if IsWhiteSpace(trail) {
          if |trail| > 1 && checkWs {
            diags := diags + [Diag(ExtraWhitespaceBehind(term), n, n)];
          }
        } else if !IsLineComment(trail) {
          diags := diags + [Diag(StatementsBehind(term), n, n)];
        }
      }
    }

    // `handle_leading_string(leading, n, term, amt)`.
    method HandleLeadingString(leading: string, n: nat, term: string, amt: int)
      requires n < |lines|
      modifies this`diags
      ensures diags == old(diags) + LeadingDiags(lines, checkWs, leading, n, term, amt, indentAmt)
      ensures Extends(lines, old(diags), diags)
    {
      if |leading| == 0 {
        ExtendsRefl(lines, diags);
      } else if IsWhiteSpace(leading) {
        CheckIndentation([n], amt, FirstExact);
      } else {
        ghost var d0 := diags;
        var moved := [Diag(OnNextLine(term), n, n)];
        diags := diags + moved;
        ghost var d1 := diags;
        CheckIndentation([n], amt + indentAmt, FirstExact);
        ghost var indent := IndentDiags(lines, checkWs, [n], amt + indentAmt, FirstExact);
        assert diags == d0 + (moved + indent);
        assert Extends(lines, d0, d1) by { ExtendsBy(lines, d0, moved); }
        ExtendsTrans(lines, d0, d1, diags);
      }
    }

    // `check_magic(ns)`.
    method CheckMagic(ns: seq<nat>)
      requires AllIn(lines, ns)
      modifies this`diags
      ensures diags == old(diags) + MagicDiags(lines, ns)
      ensures Extends(lines, old(diags), diags)
    {
      var k := 0;
      ghost var seen: seq<nat> := [];
      while k < |ns|
        invariant k <= |ns| && seen == ns[..k]
        invariant diags == old(diags) + MagicDiags(lines, seen)
      {
        MagicLine(ns[k]);
        assert (seen + [ns[k]])[..|seen|] == seen;
        seen := seen + [ns[k]];
        k := k + 1;
      }
      assert ns[..k] == ns;
      assert Extends(lines, old(diags), old(diags) + MagicDiags(lines, ns)) by {
        MagicDiagsInText(lines, ns);
        ExtendsBy(lines, old(diags), MagicDiags(lines, ns));
      }
    }

    // One pass of the loop in `check_magic`: line `n` is reported when it holds a magic number.
    method MagicLine(n: nat)
      requires n < |lines|
      modifies this`diags
      ensures diags == old(diags) + (if MagicSpec(lines[n]) then [Diag(MagicNumber, n, n)] else [])
    {
      var magic := ContainsMagic(lines[n]);
      if magic {
        diags := diags + [Diag(MagicNumber, n, n)];
      }
    }

    // `check_line_limit()`.
    method CheckLineLimit()
      modifies this`diags
      ensures diags == old(diags) + LineLimitDiags(lines, |lines|)
    {
      var i := 0;
      while i < |lines|
        invariant i <= |lines|
        invariant diags == old(diags) + LineLimitDiags(lines, i)
      {
        if |lines[i]| > LineLimit {
          diags := diags + [Diag(LineTooLong, i, i)];
        }
        i := i + 1;
      }
    }

    // ------------------------------------------------------------ handlers without nested groups

    // `handle_block_comment(group, amt)`: `None` when the last line holds no `*/`.
    method HandleBlockComment(group: seq<nat>, amt: int) returns (r: Outcome)
      requires GroupOk(lines, group)
      modifies this`diags
      ensures diags == old(diags) + BlockCommentDiags(lines, checkWs, group, amt)
      ensures Extends(lines, old(diags), diags)
      ensures r == if Find(lines[Last(group)], "*/") != -1 then Next(Last(group) + 1) else NoLine
    {
      var error := BlockIndentBad(group, amt);
      if error {
        diags := diags + [Diag(InconsistentIndentation, group[0], Last(group))];
        ExtendsBy(lines, old(diags), [Diag(InconsistentIndentation, group[0], Last(group))]);
      } else {
        ExtendsRefl(lines, diags);
      }
      ghost var d1 := diags;
      var lastLine := lines[Last(group)];
      var index := Find(lastLine, "*/");
      if index != -1 {
        HandleTrailingString(lastLine[index + 2..], Last(group), "*/");
        ExtendsTrans(lines, old(diags), d1, diags);
        return Next(Last(group) + 1);
      }
      r := NoLine;
    }

    // The loop of `handle_block_comment`: the opening line at `amt`, every other non-blank line one
    // column further in.
    method BlockIndentBad(group: seq<nat>, amt: int) returns (error: bool)
      requires GroupOk(lines, group)
      ensures error == BlockIndentError(lines, group, amt)
    {
      error := false;
      var k := 0;
      while k < |group|
        invariant k <= |group|
        invariant error == exists i :: 0 <= i < k && BlockMisindented(lines, group[i], group[0], amt)
      {
        var n := group[k];
        var line := lines[n];
        if |LStrip(line)| != 0 {
          var actual := Indent(line);
          if n == group[0] {
            if actual != amt {
              error := true;
            }
          } else if actual != amt + 1 {
            error := true;
          }
        }
        k := k + 1;
      }
    }

    // `handle_comment(group, amt, in_switch)`: inside a switch the indentation is relaxed and moved by
    // `case_indent`, which must be set.
    method HandleComment(group: seq<nat>, amt: int, inSwitch: bool) returns (r: Outcome)
      requires GroupOk(lines, group)
      modifies this`diags
      ensures inSwitch && caseIndent.None? ==> r == Crash && diags == old(diags)
      ensures inSwitch && caseIndent.Some? ==>
                r == Next(group[0] + 1)
                && diags == old(diags) + IndentDiags(lines, checkWs, group, amt + caseIndent.value, Relax)
                                       + CommentDiags(lines, pats, group[0])
      ensures !inSwitch ==>
                r == Next(group[0] + 1)
                && diags == old(diags) + IndentDiags(lines, checkWs, group, amt, FirstExact)
                                       + CommentDiags(lines, pats, group[0])
      ensures Extends(lines, old(diags), diags)
    {
      if inSwitch && caseIndent.None? {
        ExtendsBy(lines, diags, []);
        assert diags + [] == diags;
        return Crash;
      }
      CheckCommentIndent(group, amt, inSwitch);
      ghost var d1 := diags;
      CheckCommentText(group[0]);
      ExtendsTrans(lines, old(diags), d1, diags);
      r := Next(group[0] + 1);
    }

    // The indentation check of `handle_comment`, once `case_indent` is known to be set where needed.
    method CheckCommentIndent(group: seq<nat>, amt: int, inSwitch: bool)
      requires GroupOk(lines, group) && (inSwitch ==> caseIndent.Some?)
      modifies this`diags
      ensures inSwitch ==> diags == old(diags) + IndentDiags(lines, checkWs, group, amt + caseIndent.value, Relax)
      ensures !inSwitch ==> diags == old(diags) + IndentDiags(lines, checkWs, group, amt, FirstExact)
      ensures Extends(lines, old(diags), diags)
    {
      if inSwitch {
        CheckIndentation(group, amt + caseIndent.value, Relax);
      } else {
        CheckIndentation(group, amt, FirstExact);
      }
    }

    // The tail of `handle_comment`: commented-out code and a TODO on the comment's first line.
    method CheckCommentText(first: nat)
      requires first < |lines|
      modifies this`diags
      ensures diags == old(diags) + CommentDiags(lines, pats, first)
      ensures Extends(lines, old(diags), diags)
    {
      assert Extends(lines, diags, diags + CommentDiags(lines, pats, first)) by {
        CommentDiagsInText(lines, pats, first);
        ExtendsBy(lines, diags, CommentDiags(lines, pats, first));
      }
      var isCode := pats.isCode(StripSlashes(LStrip(lines[first])));
      var isTodo := IsTodoComment(lines[first]);
      diags := diags + (if isCode then [Diag(CommentedOutCode, first, first)] else [])
                     + (if isTodo then [Diag(TodoLeftIn, first, first)] else []);
    }

    // `handle_directive(group, amt)`.
    method HandleDirective(group: seq<nat>, amt: int) returns (r: Outcome)
      requires GroupOk(lines, group)
      modifies this`diags
      ensures diags == old(diags) + IndentDiags(lines, checkWs, group, amt, FirstExact)
      ensures Extends(lines, old(diags), diags)
      ensures r == Next(Last(group) + 1)
    {
      CheckIndentation(group, amt, FirstExact);
      r := Next(Last(group) + 1);
    }

    // `handle_statement(group, amt, check_magic)`.
    method HandleStatement(group: seq<nat>, amt: int, checkMagic: bool) returns (r: Outcome)
      requires GroupOk(lines, group)
      modifies this`diags
      ensures diags == old(diags) + IndentDiags(lines, checkWs, group, amt, FirstExact)
                                  + (if checkMagic then MagicDiags(lines, group) else [])
      ensures Extends(lines, old(diags), diags)
      ensures r == Next(Last(group) + 1)
    {
      CheckIndentation(group, amt, FirstExact);
      if checkMagic {
        ghost var d1 := diags;
        CheckMagic(group);
        ExtendsTrans(lines, old(diags), d1, diags);
      }
      r := Next(Last(group) + 1);
    }

    // The text around the `}` at `close` that ends a conditional's block: the part before it is
    // checked by `handle_leading_string`; a keyword after it hands back the last line, otherwise a
    // comment after it is checked by `handle_trailing_string`.
    method CondTail(group: seq<nat>, close: Loc, amt: int) returns (r: Outcome)
      requires GroupOk(lines, group) && IsPos(lines, close)
      modifies this`diags
      ensures Extends(lines, old(diags), diags)
      ensures r == if KeywordFollows(lines[close.line][close.col + 1..]) then Next(Last(group)) else Next(Last(group) + 1)
    {
      var lastLine := lines[close.line];
      HandleLeadingString(lastLine[..close.col], close.line, "}", amt);
      ghost var d1 := diags;
      var after := lastLine[close.col + 1..];
      if |after| != 0 {
        if !IsLineComment(after) && !IsBlockComment(after) {
          var m := MatchKeywords(after);
          if m.Found? {
            return Next(Last(group));
          }
        } else {
          HandleTrailingString(after, close.line, "}");
          ExtendsTrans(lines, old(diags), d1, diags);
        }
      } else {
        EmptyNoKeyword();
      }
      r := Next(Last(group) + 1);
    }

    // The same for `else` and `do`; after a `do` block the `while` condition is checked for magic
    // numbers instead.
    method UncondTail(group: seq<nat>, close: Loc, amt: int) returns (r: Outcome)
      requires GroupOk(lines, group) && IsPos(lines, close)
      modifies this`diags
      ensures Extends(lines, old(diags), diags)
      ensures r == if !IsDoLine(lines[group[0]]) && KeywordFollows(lines[close.line][close.col + 1..]) then Next(Last(group)) else Next(Last(group) + 1)
    {
      var lastLine := lines[close.line];
      HandleLeadingString(lastLine[..close.col], close.line, "}", amt);
      ghost var d1 := diags;
      var keyword := MatchKeywords(lines[group[0]]);
      var after := lastLine[close.col + 1..];
      if !(keyword.Found? && keyword.kw == Do) {
        if !IsLineComment(after) && !IsBlockComment(after) {
          var m := MatchKeywords(after);
          if m.Found? {
            return Next(Last(group));
          }
        } else {
          HandleTrailingString(after, close.line, "}");
          ExtendsTrans(lines, old(diags), d1, diags);
        }
      } else {
        CheckMagic([close.line]);
        ExtendsTrans(lines, old(diags), d1, diags);
      }
      r := Next(Last(group) + 1);
    }

    // The indentation checks of a header from line `first` through the `{` at `t`.
    method CheckHeaderIndent(first: nat, t: Loc, amt: int)
      requires IsPos(lines, t)
      modifies this`diags
      ensures diags == old(diags) + HeaderIndentDiags(lines, checkWs, first, t, amt)
      ensures Extends(lines, old(diags), diags)
    {
      assert Extends(lines, diags, diags + HeaderIndentDiags(lines, checkWs, first, t, amt)) by {
        HeaderIndentDiagsInText(lines, checkWs, first, t, amt);
        ExtendsBy(lines, diags, HeaderIndentDiags(lines, checkWs, first, t, amt));
      }
      var line := lines[t.line];
      if IsWhiteSpace(line[..t.col]) {
        CheckIndentation(Range(first, t.line), amt, FirstExact);
        CheckIndentation([t.line], amt, FirstExact);
      } else {
        CheckIndentation(Range(first, t.line + 1), amt, FirstExact);
      }
    }

    // The first steps of `handle_cond`: the condition after the keyword on line `n`, its lines
    // checked for magic numbers, and the terminator after its closing parenthesis.
    method ConditionTerminator(n: nat) returns (t: Option<Loc>, isSwitch: bool)
      requires n < |lines| && MatchSpec(lines[n]).Found?
      modifies this`diags
      ensures Extends(lines, old(diags), diags)
      ensures isSwitch == (MatchSpec(lines[n]).kw == Switch)
      ensures t == CondTerminator(lines, n)
    {
      var keyword := MatchKeywords(lines[n]);
      isSwitch := keyword.kw == Switch;
      var cond := FindCondition(lines, n, keyword.index);
      if cond.None? {
        return None, isSwitch;
      }
      var parenEnd := cond.value.1;
      CheckMagic(Range(n, parenEnd.line + 1));
      t := FindStatementTerminator(lines, parenEnd.line, parenEnd.col, None, true);
    }

    // ------------------------------------------------------------ handlers with nested groups

    // `handle_group(group, t, amt, check_magic, in_switch)` for the group `p` that `parse_line(n)` yields.
    method HandleGroup(n: nat, p: Parsed, amt: int, checkMagic: bool, inSwitch: bool, fuel: nat) returns (r: Outcome)
      requires Handleable(lines, n, p)
      modifies this`diags
      ensures ReturnsAfter(p.kind, p.group, r)
      ensures Extends(lines, old(diags), diags)
      decreases fuel, 3
    {
      var group := p.group;
      match p.kind {
        case BlockCmmt => r := HandleBlockComment(group, amt);
        case Cmmt => r := HandleComment(group, amt, inSwitch);
        case Directive => r := HandleDirective(group, amt);
        case Conditional => r := HandleCond(n, group, amt, fuel);
        case Unconditional => r := HandleUncond(group, amt, fuel);
        case Func => r := HandleFunc(group, amt, fuel);
        case Statement => r := HandleStatement(group, amt, checkMagic);
        case Structure => r := HandleStructure(group, amt, checkMagic, fuel);
        case EmptyLine => r := HandleWhitespace(group);
        case SwitchCase => r := HandleSwitchCase(group, amt, fuel);
      }
    }

    // The loop the handlers share: from line `i`, while `i` is a line before `stop`, parse the group
    // at `i` and hand it on; comment groups get `cmmtAmt` and the others `amt`. A handler's `None`
    // makes the next comparison or `parse_line` fail.
    method Walk(i: nat, stop: int, cmmtAmt: int, amt: int, checkMagic: bool, inSwitch: bool, fuel: nat) returns (r: Outcome)
      modifies this`diags
      ensures Extends(lines, old(diags), diags)
      ensures r.Next? ==> !(r.line < |lines| && r.line < stop)
      ensures r != NoLine
      decreases fuel, 0
    {
      var at: nat := i;
      var steps: nat := fuel;
      while at < |lines| && at < stop
        invariant steps <= fuel
        invariant Extends(lines, old(diags), diags)
        decreases steps
      {
        if steps == 0 {
          return OutOfFuel;
        }
        steps := steps - 1;
        var p := ParseLine(lines, pats, at);
        if p.None? {
          return Crash;
        }
        ParsedHandleable(lines, pats, at);
        ghost var before := diags;
        var o := HandleGroup(at, p.value, if p.value.kind == Cmmt then cmmtAmt else amt, checkMagic, inSwitch, fuel - 1);
        ExtendsTrans(lines, old(diags), before, diags);
        match o {
          case Next(j) => at := j;
          case NoLine => return Crash;
          case Crash => return Crash;
          case OutOfFuel => return OutOfFuel;
        }
      }
      r := Next(at);
    }

    // `handle_terminator(group, t, amt)` for the terminator at `t` of a conditional or unconditional.
    // A `{`: the header's indentation and the text after the brace are checked, and the result is
    // `None`. Otherwise a keyword terminator is checked one step in; a terminator on the group's first
    // line gives the next line, and on a later line the group there is handled one step in.
    method HandleTerminator(group: seq<nat>, t: Loc, amt: int, fuel: nat) returns (r: Outcome)
      requires GroupOk(lines, group) && IsPos(lines, t)
      modifies this`diags
      ensures Extends(lines, old(diags), diags)
      ensures lines[t.line][t.col] == '{' ==>
                r == NoLine
                && diags == old(diags) + HeaderIndentDiags(lines, checkWs, group[0], t, amt)
                                       + TrailDiags(checkWs, lines[t.line][t.col + 1..], t.line, "{")
      ensures lines[t.line][t.col] != '{' && t.line == group[0] ==> r == Next(t.line + 1)
      decreases fuel, 1
    {
      var line := lines[t.line];
      if line[t.col] == '{' {
        CheckHeaderIndent(group[0], t, amt);
        HandleTrailingString(line[t.col + 1..], t.line, "{");
        return NoLine;
      }
      if line[t.col] != ';' {
        CheckIndentation([t.line], amt + indentAmt, FirstExact);
      }
      if t.line == group[0] {
        return Next(t.line + 1);
      }
      if fuel == 0 {
        return OutOfFuel;
      }
      var p := ParseLine(lines, pats, t.line);
      if p.None? {
        return Crash;
      }
      ParsedHandleable(lines, pats, t.line);
      ghost var before := diags;
      r := HandleGroup(t.line, p.value, amt + indentAmt, true, false, fuel - 1);
      ExtendsTrans(lines, old(diags), before, diags);
    }

    // `handle_cond(group, amt)` for the conditional whose keyword is on line `n`: the condition, the
    // terminator after it, the groups of the block (one step in, or at `amt` inside a `switch`), and
    // the closing brace.
    method HandleCond(n: nat, group: seq<nat>, amt: int, fuel: nat) returns (r: Outcome)
      requires GroupOk(lines, group) && group[0] == n && MatchSpec(lines[n]).Found?
      modifies this`diags
      ensures Extends(lines, old(diags), diags)
      ensures r != NoLine
      ensures r.Next? ==> CondTerminator(lines, n).Some? && TerminatorReturn(lines, group, CondTerminator(lines, n).value, r, false)
      decreases fuel, 2
    {
      var term, isSwitch := ConditionTerminator(n);
      if term.None? {
        return Crash;
      }
      var t := term.value;
      ghost var d1 := diags;
      var ret := HandleTerminator(group, t, amt, fuel);
      ExtendsTrans(lines, old(diags), d1, diags);
      if ret.Crash? || ret.OutOfFuel? || (ret.Next? && ret.line != 0) {
        return ret;
      }
      ghost var d2 := diags;
      var walked: Outcome;
      if isSwitch {
        walked := Walk(t.line + 1, Last(group), amt, amt, true, true, fuel);
      } else {
        walked := Walk(t.line + 1, Last(group), amt + indentAmt, amt + indentAmt, true, false, fuel);
      }
      ExtendsTrans(lines, old(diags), d2, diags);
      if !walked.Next? {
        return walked;
      }
      ghost var d3 := diags;
      r := CondBlockEnd(group, t, amt);
      ExtendsTrans(lines, old(diags), d3, diags);
    }

    // The end of `handle_cond` once the block's groups are walked: `find_code_block` from the
    // terminator at `t` (a crash unless it is a `{`), then the line of the closing brace.
    method CondBlockEnd(group: seq<nat>, t: Loc, amt: int) returns (r: Outcome)
      requires GroupOk(lines, group) && IsPos(lines, t)
      modifies this`diags
      ensures Extends(lines, old(diags), diags)
      ensures r != NoLine
      ensures r.Next? ==> lines[t.line][t.col] == '{' && BlockReturn(lines, group, t, r.line, false)
    {
      var block := FindCodeBlock(lines, t.line, t.col);
      if block.None? {
        ExtendsRefl(lines, diags);
        return Crash;
      }
      r := CondTail(group, block.value.1, amt);
    }

    // `handle_uncond(group, amt)`: `else` or `do`, with the same shape as a conditional.
    method HandleUncond(group: seq<nat>, amt: int, fuel: nat) returns (r: Outcome)
      requires GroupOk(lines, group)
      modifies this`diags
      ensures Extends(lines, old(diags), diags)
      ensures r != NoLine
      ensures var t := TerminatorSpec(lines, group[0], 0, None, true);
              r.Next? ==> t.Some? && TerminatorReturn(lines, group, t.value, r, IsDoLine(lines[group[0]]))
      decreases fuel, 2
    {
      var term := FindStatementTerminator(lines, group[0], 0, None, true);
      if term.None? {
        return Crash;
      }
      var t := term.value;
      var ret := HandleTerminator(group, t, amt, fuel);
      if ret.Crash? || ret.OutOfFuel? || (ret.Next? && ret.line != 0) {
        return ret;
      }
      ghost var d2 := diags;
      var walked := Walk(t.line + 1, Last(group), amt + indentAmt, amt + indentAmt, true, false, fuel);
      ExtendsTrans(lines, old(diags), d2, diags);
      if !walked.Next? {
        return walked;
      }
      ghost var d3 := diags;
      r := UncondBlockEnd(group, t, amt);
      ExtendsTrans(lines, old(diags), d3, diags);
    }

    // The end of `handle_uncond`, as `CondBlockEnd` is for `handle_cond`.
    method UncondBlockEnd(group: seq<nat>, t: Loc, amt: int) returns (r: Outcome)
      requires GroupOk(lines, group) && IsPos(lines, t)
      modifies this`diags
      ensures Extends(lines, old(diags), diags)
      ensures r != NoLine
      ensures r.Next? ==> lines[t.line][t.col] == '{' && BlockReturn(lines, group, t, r.line, IsDoLine(lines[group[0]]))
    {
      var block := FindCodeBlock(lines, t.line, t.col);
      if block.None? {
        ExtendsRefl(lines, diags);
        return Crash;
      }
      r := UncondTail(group, block.value.1, amt);
    }

    // `handle_func(group, amt)`: the header through its `{`, the body one step in, the closing line.
    method HandleFunc(group: seq<nat>, amt: int, fuel: nat) returns (r: Outcome)
      requires GroupOk(lines, group)
      modifies this`diags
      ensures Extends(lines, old(diags), diags)
      ensures r != NoLine && (r.Next? ==> r.line == Last(group) + 1)
      decreases fuel, 2
    {
      var term := FindStatementTerminator(lines, group[0], 0, Some('{'), false);
      if term.None? {
        return Crash;
      }
      var t := term.value;
      CheckMagic(Range(group[0], t.line + 1));
      ghost var d1 := diags;
      CheckHeaderIndent(group[0], t, amt);
      ExtendsTrans(lines, old(diags), d1, diags);
      ghost var d2 := diags;
      var walked := Walk(t.line + 1, Last(group), amt + indentAmt, amt + indentAmt, true, false, fuel);
      ExtendsTrans(lines, old(diags), d2, diags);
      if !walked.Next? {
        return walked;
      }
      ghost var d3 := diags;
      CheckIndentation([Last(group)], amt, FirstExact);
      ExtendsTrans(lines, old(diags), d3, diags);
      r := Next(Last(group) + 1);
    }

    // `handle_structure(group, amt, check_magic)`: the first line, and for a multi-line structure the
    // text after its `{`, its groups one step in and the text before its `}`.
    method HandleStructure(group: seq<nat>, amt: int, checkMagic: bool, fuel: nat) returns (r: Outcome)
      requires GroupOk(lines, group)
      modifies this`diags
      ensures Extends(lines, old(diags), diags)
      ensures r != NoLine && (r.Next? ==> r.line == Last(group) + 1)
      ensures |group| == 1 ==>
                r == Next(Last(group) + 1) && diags == old(diags) + IndentDiags(lines, checkWs, group, amt, FirstExact)
      decreases fuel, 2
    {
      CheckIndentation([group[0]], amt, FirstExact);
      if |group| == 1 {
        assert [group[0]] == group;
        return Next(Last(group) + 1);
      }
      var term := FindStatementTerminator(lines, group[0], 0, None, false);
      if term.None? {
        return Crash;
      }
      var t := term.value;
      ghost var d1 := diags;
      HandleTrailingString(lines[t.line][t.col + 1..], group[0], "{");
      ExtendsTrans(lines, old(diags), d1, diags);
      ghost var d2 := diags;
      var walked := Walk(t.line + 1, Last(group), amt + indentAmt, amt + indentAmt, checkMagic, false, fuel);
      ExtendsTrans(lines, old(diags), d2, diags);
      if !walked.Next? {
        return walked;
      }
      var block := FindCodeBlock(lines, t.line, t.col);
      if block.None? {
        return Crash;
      }
      var close := block.value.1;
      ghost var d3 := diags;
      HandleLeadingString(lines[close.line][..close.col], close.line, "}", amt);
      ExtendsTrans(lines, old(diags), d3, diags);
      r := Next(Last(group) + 1);
    }

    // `handle_switch_case(group, amt)`: the label through its colon, then the groups through the last
    // line, comments at the `switch`'s own indentation and the rest one step past `case_indent`.
    method HandleSwitchCase(group: seq<nat>, amt: int, fuel: nat) returns (r: Outcome)
      requires GroupOk(lines, group)
      modifies this`diags
      ensures Extends(lines, old(diags), diags)
      ensures r != NoLine && (r.Next? ==> r.line == Last(group) + 1)
      ensures caseIndent.None? ==> r == Crash && diags == old(diags)
      decreases fuel, 2
    {
      var switchIndent := amt;
      if caseIndent.None? {
        return Crash;
      }
      var inner := amt + caseIndent.value;
      var term := FindStatementTerminator(lines, group[0], 0, Some(':'), false);
      if term.None? {
        return Crash;
      }
      var t := term.value;
      ghost var d1 := diags;
      HandleTrailingString(lines[t.line][t.col + 1..], t.line, ":");
      ExtendsTrans(lines, old(diags), d1, diags);
      ghost var d2 := diags;
      var walked := Walk(t.line + 1, Last(group) + 1, switchIndent, inner + indentAmt, true, true, fuel);
      ExtendsTrans(lines, old(diags), d2, diags);
      if !walked.Next? {
        return walked;
      }
      r := Next(Last(group) + 1);
    }

    // `run()`: the line limit, then every group from the first line at indentation 0, without the
    // magic-number check.
    method Run(fuel: nat) returns (r: Outcome)
      modifies this`diags
      ensures Extends(lines, old(diags) + LineLimitDiags(lines, |lines|), diags)
      ensures Extends(lines, old(diags), diags)
      ensures r != NoLine && (r.Next? ==> r.line >= |lines|)
    {
      CheckLineLimit();
      assert Extends(lines, old(diags), old(diags) + LineLimitDiags(lines, |lines|)) by {
        LineLimitDiagsInText(lines);
        ExtendsBy(lines, old(diags), LineLimitDiags(lines, |lines|));
      }
      ghost var d1 := diags;
      r := Walk(0, |lines|, 0, 0, false, false, fuel);
      ExtendsTrans(lines, old(diags), d1, diags);
    }
  }

  // A group `parse_line` tags as conditional starts with an accepted keyword.
  lemma ConditionalHasKeyword(lines: seq<string>, pats: Patterns, n: nat)
    requires n < |lines|
    ensures ParseSpec(lines, pats, n).Some? && ParseSpec(lines, pats, n).value.kind == Conditional ==>
              MatchSpec(lines[n]).Found?
  {
    DispatchConditional(lines, pats, n, MatchSpec(lines[n]));
  }

  lemma DispatchConditional(lines: seq<string>, pats: Patterns, n: nat, m: KwMatch)
    requires n < |lines| && (m.Found? ==> m.index < |lines[n]|)
    ensures Dispatch(lines, pats, n, m).Some? && Dispatch(lines, pats, n, m).value.kind == Conditional ==> m.Found?
  {
    if !m.Found? && !IsDirective(LStrip(lines[n])) {
      var s := StatementLast(lines, pats, n);
      assert s.Some? ==> s.value.1 != Conditional;
    }
  }

  // `__init__`: the text read, its newlines stripped and tabs replaced, then the indentation amount
  // and the switch convention derived from it. `None` where the source raises.
  method Open(raw: seq<string>, checkWs: bool, pats: Patterns) returns (c: Option<CStyleChecker>)
    ensures var lines := PrepareLines(raw, TabLength);
            c.Some? <==> IndentAmtFrom(lines, pats, 0).Some?
                         && CaseIndentFrom(lines, 0, IndentAmtFrom(lines, pats, 0).value, None).Some?
    ensures c.Some? ==>
              var lines := PrepareLines(raw, TabLength);
              var amt := IndentAmtFrom(lines, pats, 0).value;
              fresh(c.value) && c.value.lines == lines && c.value.checkWs == checkWs && c.value.pats == pats
              && c.value.indentAmt == amt && c.value.caseIndent == CaseIndentFrom(lines, 0, amt, None).value
              && c.value.diags == []
  {
    var lines := PrepareLines(raw, TabLength);
    var amt := DetectIndentAmt(lines, pats);
    if amt.None? {
      return None;
    }
    var caseIndent := DetectCaseIndent(lines, amt.value);
    if caseIndent.None? {
      return None;
    }
    var checker := new CStyleChecker(lines, checkWs, pats, amt.value, caseIndent.value);
    c := Some(checker);
  }

  // The first loop of `__init__`: walk the groups until the first function definition, and take the
  // indentation of the first non-blank line after its header.
  method DetectIndentAmt(lines: seq<string>, pats: Patterns) returns (r: Option<nat>)
    ensures r == IndentAmtFrom(lines, pats, 0)
  {
    var i := 0;
    while i < |lines|
      invariant i <= |lines|
      invariant IndentAmtFrom(lines, pats, i) == IndentAmtFrom(lines, pats, 0)
      decreases |lines| - i
    {
      var p := ParseLine(lines, pats, i);
      if p.None? {
        return None;
      }
      GroupAdvances(lines, pats, i);
      ParseGroupShape(lines, pats, i);
      if p.value.kind == Func {
        r := FindBodyIndent(lines, p.value.group[0]);
        return;
      }
      i := NextAfter(p.value);
    }
    r := Some(TabLength);
  }

  // The indentation of the first non-blank line after the header of the function at line `i`.
  method FindBodyIndent(lines: seq<string>, i: nat) returns (r: Option<nat>)
    requires i < |lines|
    ensures r == BodyIndent(lines, i)
  {
    var term := FindStatementTerminator(lines, i, 0, None, false);
    if term.None? {
      return None;
    }
    var j := term.value.line + 1;
    while j < |lines| && |LStrip(lines[j])| == 0
      invariant BlankRunEnd(lines, j) == BlankRunEnd(lines, term.value.line + 1)
      decreases |lines| - j
    {
      j := j + 1;
    }
    if j >= |lines| {
      return None;
    }
    r := Some(Indent(lines[j]));
  }

  // The second loop of `__init__`: for every `switch`, every later `case` or `default` line sets
  // `case_indent` to 0 when it lines up with the `switch` and to the indentation amount otherwise.
  method DetectCaseIndent(lines: seq<string>, amt: int) returns (r: Option<Option<int>>)
    ensures r == CaseIndentFrom(lines, 0, amt, None)
  {
    var cur: Option<int> := None;
    var i := 0;
    while i < |lines|
      invariant i <= |lines|
      invariant CaseIndentFrom(lines, i, amt, cur) == CaseIndentFrom(lines, 0, amt, None)
    {
      var m := MatchKeywords(lines[i]);
      if m.Found? && m.kw == Switch {
        var term := FindStatementTerminator(lines, i, m.index, Some(':'), false);
        if term.None? {
          return None;
        }
        cur := ScanCases(lines, term.value.line + 1, m.index, amt, cur);
      }
      i := i + 1;
    }
    r := Some(cur);
  }

  // The inner loop: every `case` or `default` line from `j` on overwrites the value.
  method ScanCases(lines: seq<string>, j: nat, switchInd: nat, amt: int, cur: Option<int>) returns (r: Option<int>)
    ensures r == CaseScan(lines, j, switchInd, amt, cur)
  {
    r := cur;
    var k := j;
    while k < |lines|
      invariant CaseScan(lines, k, switchInd, amt, r) == CaseScan(lines, j, switchInd, amt, cur)
      decreases |lines| - k
    {
      var c := MatchKeywords(lines[k]);
      if c.Found? && IsSwitchCase(c.kw) {
        if c.index - switchInd == 0 {
          r := Some(0);
        } else {
          r := Some(amt);
        }
      }
      k := k + 1;
    }
  }
}
