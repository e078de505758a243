// Grouping the lines of an assembly file (`parse_line` of `SStyleChecker`).
//
// A group is a run of blank lines, a `//`, `@` or `#` comment line, a block
// comment through the line that closes it, a label, a directive or an
// instruction. The patterns are matched on the line with tabs replaced, so the
// leading ` *` of each pattern only skips spaces. A line that opens a block
// comment that is never closed falls through to the other tests, none of which
// accepts a `/`, and is taken as an instruction.
module AsmParse {
  import opened Common
  import CParse
  import CPatterns

  datatype Kind = BlockCmmt | Cmmt | Label | Directive | Instruction | EmptyLine

  datatype Parsed = Parsed(group: seq<nat>, kind: Kind)

  // ---------------------------------------------------------------- patterns

  // `[a-zA-Z0-9_.]`.
  predicate IsLabelChar(c: char) {
    IsIdentChar(c) || c == '.'
  }

  // `[a-zA-Z_.]`.
  predicate IsLabelStart(c: char) {
    IsLabelChar(c) && !IsDigit(c)
  }

  // The end of the run of label characters that starts at `p`.
  function LabelRunEnd(s: string, p: nat): (e: nat)
    requires p <= |s|
    ensures p <= e <= |s| && (forall k :: p <= k < e ==> IsLabelChar(s[k])) && (e < |s| ==> !IsLabelChar(s[e]))
    decreases |s| - p
  {
    if p < |s| && IsLabelChar(s[p]) then LabelRunEnd(s, p + 1) else p
  }

  // ` *(//|@|#)`: a comment marker after the leading spaces.
  predicate IsCommentLine(s: string) {
    var k := LeadingSpaces(s);
    k < |s| && (StartsWith(s[k..], "//") || s[k] == '@' || s[k] == '#')
  }

  // ` *(//|@|#) *TODO`: a comment whose text starts with `TODO`.
  predicate IsTodoLine(s: string) {
    var k := LeadingSpaces(s);
    if StartsWith(s[k..], "//") then SpacesThen(s[k + 2..], "TODO")
    else if k < |s| && (s[k] == '@' || s[k] == '#') then SpacesThen(s[k + 1..], "TODO")
    else false
  }

  // ` *[a-zA-Z_.][a-zA-Z0-9_.]*:`: a name and a colon after the leading spaces.
  predicate IsLabelLine(s: string) {
    var k := LeadingSpaces(s);
    k < |s| && IsLabelStart(s[k]) && var e := LabelRunEnd(s, k + 1); e < |s| && s[e] == ':'
  }

  // ` *\.[a-zA-Z0-9_.]+`: a dot and a label character after the leading spaces.
  predicate IsDirectiveLine(s: string) {
    var k := LeadingSpaces(s);
    k + 1 < |s| && s[k] == '.' && IsLabelChar(s[k + 1])
  }

  // ---------------------------------------------------------------- parse_line

  // The line that closes the block comment opened on line `n`, if any.
  function BlockClose(lines: seq<string>, n: nat): Option<nat>
    requires n < |lines|
  {
    if CPatterns.IsBlockComment(lines[n]) then CParse.CommentCloseLine(lines, n, Find(lines[n], "/*"), n) else None
  }

  // `parse_line(n)`.
  function ParseSpec(lines: seq<string>, n: nat): Parsed
    requires n < |lines|
  {
    var line := lines[n];
    if IsBlank(line) then Parsed(Range(n, CParse.BlankRunEnd(lines, n + 1)), EmptyLine)
    else if IsCommentLine(line) then Parsed([n], Cmmt)
    else if BlockClose(lines, n).Some? then Parsed(Range(n, BlockClose(lines, n).value + 1), BlockCmmt)
    else if IsLabelLine(line) then Parsed([n], Label)
    else if IsDirectiveLine(line) then Parsed([n], Directive)
    else Parsed([n], Instruction)
  }

  // The last line of a group.
  function Last(g: seq<nat>): nat
    requires g != []
  {
    g[|g| - 1]
  }

  method ParseLine(lines: seq<string>, n: nat) returns (p: Parsed)
    requires n < |lines|
    ensures p == ParseSpec(lines, n)
  {
    var line := lines[n];
    if |LStrip(line)| == 0 {
      var group := CParse.BlankRunLines(lines, n);
      return Parsed(group, EmptyLine);
    }
    if IsCommentLine(line) {
      return Parsed([n], Cmmt);
    }
    if CPatterns.IsBlockComment(line) {
      var start := Find(line, "/*");
      var closed, group := CParse.BlockCommentLines(lines, n, start);
      if closed {
        return Parsed(group, BlockCmmt);
      }
    }
    if IsLabelLine(line) {
      p := Parsed([n], Label);
    } else if IsDirectiveLine(line) {
      p := Parsed([n], Directive);
    } else {
      p := Parsed([n], Instruction);
    }
  }

  // ---------------------------------------------------------------- properties

  // Every group is a run of lines from `n`; only blank lines and block comments take more than one
  // line; a blank group holds blank lines only and stops before a line that is not blank; a block
  // comment group ends on a line that holds `*/`.
  lemma ParseShape(lines: seq<string>, n: nat)
    requires n < |lines|
    ensures var p := ParseSpec(lines, n);
            |p.group| > 0 && IsRun(p.group, n, Last(p.group)) && Last(p.group) < |lines|
            && (p.kind != EmptyLine && p.kind != BlockCmmt ==> p.group == [n])
            && (p.kind == EmptyLine ==>
                  (forall i :: n <= i <= Last(p.group) ==> IsBlank(lines[i]))
                  && (Last(p.group) + 1 < |lines| ==> !IsBlank(lines[Last(p.group) + 1])))
            && (p.kind == BlockCmmt ==> Find(lines[Last(p.group)], "*/") != -1)
  {
    var p := ParseSpec(lines, n);
    if p.kind == BlockCmmt {
      var m := BlockClose(lines, n).value;
      var from := if m == n then Find(lines[n], "/*") + 2 else 0;
      var k := FindFrom(lines[m], "*/", from);
      assert OccursAt(lines[m], "*/", k);
    }
  }

  // A line like `.L1:` matches the directive pattern too; the label test comes first.
  lemma LocalLabelIsLabel(lines: seq<string>, n: nat)
    requires n < |lines| && lines[n] == ".L1:"
    ensures IsDirectiveLine(lines[n])
    ensures ParseSpec(lines, n) == Parsed([n], Label)
  {
    assert LeadingSpaces(lines[n]) == 0;
    assert LabelRunEnd(lines[n], 1) == 3 by {
      assert LabelRunEnd(lines[n], 3) == 3;
    }
  }

  // A line that opens a block comment that is never closed is an instruction of its own.
  lemma UnclosedCommentIsInstruction(lines: seq<string>, n: nat)
    requires n < |lines| && CPatterns.IsBlockComment(lines[n]) && BlockClose(lines, n).None?
    ensures ParseSpec(lines, n) == Parsed([n], Instruction)
  {
    var line := lines[n];
    var k := LeadingSpaces(line);
    assert line[k..][..2] == "/*";
    assert line[k] == '/' && line[k + 1] == '*';
    assert !IsPyWhitespace(line[k]);
    assert LeadingWs(line) <= k;
  }
}
