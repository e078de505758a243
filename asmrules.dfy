// What the assembly checker reports for each kind of group, and what a whole
// run reports (the handlers and `run` of `SStyleChecker`).
//
// `lines` is the text with tabs replaced, `og` the same lines as read (tabs kept),
// used only to tell whether an instruction or directive was indented with
// spaces. `spans` is the table of block comments the checker built when it was
// created. A handler that fails makes the whole run fail: `None`.
module AsmRules {
  import opened Common
  import opened AsmComments
  import opened AsmParse
  import opened AsmMagic
  import CPatterns

  // LINE_LIMIT, TAB_LENGTH (also the expected indentation) and NEWLINES_LIMIT.
  const LineLimit: nat := 80
  const TabLength: nat := 4
  const NewlinesLimit: nat := 2

  // One printed diagnostic; line numbers count from 0.
  datatype Report =
    | OverLimit(line: nat)
    | LabelIndented(line: nat)
    | NotIndented(line: nat)
    | InconsistentIndentation(line: nat)
    | StatementsBehind(line: nat)
    | StatementsBehindLabel(line: nat)
    | TodoLeftIn(line: nat)
    | MagicNumber(line: nat)
    | ExcessNewlines(first: nat, last: nat)
    | IndentedWithSpaces(lines: seq<nat>)

  // What one group contributes: its diagnostics, and the lines it adds to `used_space_lines`.
  datatype Effect = Effect(reports: seq<Report>, spaceLines: seq<nat>)

  // ---------------------------------------------------------------- per line

  // `check_line_limit` over the first `upto` lines.
  function LineLimitReports(lines: seq<string>, upto: nat): seq<Report>
    requires upto <= |lines|
  {
    if upto == 0 then []
    else LineLimitReports(lines, upto - 1) + (if |lines[upto - 1]| > LineLimit then [OverLimit(upto - 1)] else [])
  }

  // The diagnostics of `check_indentation(n, kind)` on the line with tabs replaced.
  function IndentReports(line: string, n: nat, kind: Kind): seq<Report> {
    if kind == Label then (if Indent(line) != 0 then [LabelIndented(n)] else [])
    else if kind == Instruction || kind == Directive then
      if Indent(line) == 0 then [NotIndented(n)]
      else if Indent(line) != TabLength then [InconsistentIndentation(n)]
      else []
    else []
  }

  // The leading whitespace of the line as read holds a space.
  predicate UsesSpaces(og: string) {
    Find(og[..LeadingWs(og)], " ") != -1
  }

  // The line `check_indentation(n, kind)` adds to `used_space_lines`.
  function SpaceLines(og: string, n: nat, kind: Kind): seq<nat> {
    if (kind == Instruction || kind == Directive) && UsesSpaces(og) then [n] else []
  }

  // `handle_trailing_string(trail, n, ...)`: text that is neither blank nor a comment.
  function TrailReports(trail: string, n: nat): seq<Report> {
    if |trail| != 0 && !IsCommentLine(trail) && |LStrip(trail)| != 0 then [StatementsBehind(n)] else []
  }

  // The text after the first colon of the line (the whole line when it has none).
  function AfterColon(line: string): string {
    var index := Find(line, ":");
    line[index + 1..]
  }

  // The label part of `handle_label`: text after the colon must be spaces and tabs, a comment or a block
  // comment.
  function LabelReports(line: string, n: nat): seq<Report> {
    var after := AfterColon(line);
    if |after| != 0 && !IsSpaceTabRun(after) && !IsCommentLine(after) && !CPatterns.IsBlockComment(after)
    then [StatementsBehindLabel(n)] else []
  }

  // `handle_whitespace(group)`.
  function WhitespaceReports(g: seq<nat>): seq<Report>
    requires g != []
  {
    if |g| > NewlinesLimit then [ExcessNewlines(g[0], Last(g))] else []
  }

  // `handle_block_comment(group)`: the text after the first `*/` of the last line; `None` when that
  // line holds no `*/`.
  function BlockReports(lines: seq<string>, g: seq<nat>): Option<seq<Report>>
    requires g != [] && Last(g) < |lines|
  {
    var last := lines[Last(g)];
    var index := Find(last, "*/");
    if index == -1 then None else Some(TrailReports(last[index + 2..], Last(g)))
  }

  // `handle_comment(group)`.
  function TodoReports(line: string, n: nat): seq<Report> {
    if IsTodoLine(line) then [TodoLeftIn(n)] else []
  }

  // `handle_group` on the group that starts at line `n`.
  function GroupEffect(lines: seq<string>, og: seq<string>, spans: seq<Span>, n: nat): Option<Effect>
    requires n < |lines| == |og|
  {
    var p := ParseSpec(lines, n);
    ParseShape(lines, n);
    match p.kind
    case BlockCmmt =>
      var r := BlockReports(lines, p.group);
      if r.None? then None else Some(Effect(r.value, []))
    case Cmmt => Some(Effect(TodoReports(lines[n], n), []))
    case Label => Some(Effect(IndentReports(lines[n], n, Label) + LabelReports(lines[n], n), []))
    case Directive => Some(Effect(IndentReports(lines[n], n, Directive), SpaceLines(og[n], n, Directive)))
    case Instruction =>
      (match AsmMagicSpec(lines[n], spans, n)
       case None => None
       case Some(magic) =>
         Some(Effect(IndentReports(lines[n], n, Instruction) + (if magic then [MagicNumber(n)] else []),
                     SpaceLines(og[n], n, Instruction))))
    case EmptyLine => Some(Effect(WhitespaceReports(p.group), []))
  }

  // The line after the group that starts at line `n`.
  function NextLine(lines: seq<string>, n: nat): (next: nat)
    requires n < |lines|
    ensures n < next <= |lines|
  {
    ParseShape(lines, n);
    Last(ParseSpec(lines, n).group) + 1
  }

  // ---------------------------------------------------------------- whole run

  // One effect after another.
  function Then(e: Effect, rest: Option<Effect>): Option<Effect> {
    match rest
    case None => None
    case Some(r) => Some(Effect(e.reports + r.reports, e.spaceLines + r.spaceLines))
  }

  // The loop of `run` from line `i` on.
  function RunFrom(lines: seq<string>, og: seq<string>, spans: seq<Span>, i: nat): Option<Effect>
    requires |lines| == |og|
    decreases |lines| - i
  {
    if i >= |lines| then Some(Effect([], []))
    else match GroupEffect(lines, og, spans, i)
      case None => None
      case Some(e) => Then(e, RunFrom(lines, og, spans, NextLine(lines, i)))
  }

  // `check_space_indentation`: one diagnostic listing every line indented with spaces.
  function SpaceReport(used: seq<nat>): seq<Report> {
    if |used| != 0 then [IndentedWithSpaces(used)] else []
  }

  // The header the group `p` completes, given the pending block comment.
  function HeadersAdded(p: Parsed, pending: Option<seq<nat>>): seq<seq<nat>> {
    if p.kind == Label && pending.Some? then [pending.value + p.group] else []
  }

  // The block comment pending after the group `p`: a block comment replaces it, blank lines and labels
  // keep it, anything else clears it.
  function PendingAfter(p: Parsed, pending: Option<seq<nat>>): Option<seq<nat>> {
    if p.kind == BlockCmmt then Some(p.group)
    else if p.kind == Label || p.kind == EmptyLine then pending
    else None
  }

  // The headers `run` collects from line `i` on, `pending` being the block comment seen last when no
  // other group than blank lines and labels came after it.
  function HeadersFrom(lines: seq<string>, i: nat, pending: Option<seq<nat>>): seq<seq<nat>>
    decreases |lines| - i
  {
    if i >= |lines| then []
    else
      var p := ParseSpec(lines, i);
      var next := NextLine(lines, i);
      if p.kind == BlockCmmt then HeadersFrom(lines, next, Some(p.group))
      else if p.kind == Label && pending.Some? then [pending.value + p.group] + HeadersFrom(lines, next, pending)
      else if p.kind != EmptyLine then HeadersFrom(lines, next, None)
      else HeadersFrom(lines, next, pending)
  }

  // ---------------------------------------------------------------- properties

  // The indentation rules: a label must start in column 0; an instruction or directive must be
  // indented by exactly TAB_LENGTH, and gets exactly one diagnostic otherwise; other groups get none.
  lemma IndentRules(line: string, n: nat, kind: Kind)
    ensures |IndentReports(line, n, kind)| <= 1
    ensures kind == Label ==> (IndentReports(line, n, kind) == [] <==> Indent(line) == 0)
    ensures kind == Instruction || kind == Directive ==>
              (IndentReports(line, n, kind) == [] <==> Indent(line) == TabLength)
              && (IndentReports(line, n, kind) == [NotIndented(n)] <==> Indent(line) == 0)
    ensures kind != Label && kind != Instruction && kind != Directive ==> IndentReports(line, n, kind) == []
  {
  }

  // Replacing one leading tab gives the expected indentation.
  lemma {:induction false} OneTabIndented(rest: string)
    requires rest != [] && !IsPyWhitespace(rest[0])
    ensures Indent(ReplaceTabs("\t" + rest, TabLength)) == TabLength
  {
    var e := ReplaceTabs("\t" + rest, TabLength);
    assert ("\t" + rest)[1..] == rest;
    assert e == "    " + ReplaceTabs(rest, TabLength);
    assert ReplaceTabs(rest, TabLength)[0] == rest[0];
    assert !IsPyWhitespace(e[4]);
  }

  // An instruction or directive written with one leading tab gets no indentation diagnostic and is not
  // counted as indented with spaces.
  lemma OneTabClean(rest: string, n: nat, kind: Kind)
    requires rest != [] && !IsPyWhitespace(rest[0])
    requires kind == Instruction || kind == Directive
    ensures IndentReports(ReplaceTabs("\t" + rest, TabLength), n, kind) == []
    ensures SpaceLines("\t" + rest, n, kind) == []
  {
    OneTabIndented(rest);
    var og := "\t" + rest;
    assert LeadingWs(og) == 1 by {
      assert IsPyWhitespace(og[0]) && og[1] == rest[0];
    }
    assert og[..1] == "\t";
    assert FindFrom("\t", " ", 1) == -1;
  }

  // The same instruction indented with four spaces passes the indentation test but is counted as
  // indented with spaces.
  lemma FourSpacesCounted(rest: string, n: nat)
    requires rest != [] && !IsPyWhitespace(rest[0]) && '\t' !in rest
    ensures IndentReports(ReplaceTabs("    " + rest, TabLength), n, Instruction) == []
    ensures SpaceLines("    " + rest, n, Instruction) == [n]
  {
    var og := "    " + rest;
    assert '\t' !in og;
    assert LeadingWs(og) == 4 by {
      assert og[4] == rest[0];
    }
    assert og[..4] == "    ";
    assert OccursAt(og[..4], " ", 0);
  }

  // On a label line, the colon `handle_label` finds is the one that ends the label.
  lemma LabelColon(line: string)
    requires IsLabelLine(line)
    ensures var k := LeadingSpaces(line);
            Find(line, ":") == LabelRunEnd(line, k + 1)
  {
    var k := LeadingSpaces(line);
    var e := LabelRunEnd(line, k + 1);
    assert OccursAt(line, ":", e);
    var index := Find(line, ":");
    assert line[index..index + 1] == ":";
    assert line[index] == ':';
  }

  // What may follow a label: nothing, spaces and tabs, a comment or a block comment; anything else is
  // one diagnostic.
  lemma LabelTrail(line: string, n: nat)
    requires IsLabelLine(line)
    ensures var after := line[LabelRunEnd(line, LeadingSpaces(line) + 1) + 1..];
            LabelReports(line, n) == [] <==>
              after == [] || IsSpaceTabRun(after) || IsCommentLine(after) || CPatterns.IsBlockComment(after)
    ensures |LabelReports(line, n)| <= 1
  {
    LabelColon(line);
  }

  // A blank group gets one diagnostic when it holds more than NEWLINES_LIMIT lines, naming its first and
  // last line, and none otherwise.
  lemma ExcessNewlinesRule(lines: seq<string>, n: nat)
    requires n < |lines| && ParseSpec(lines, n).kind == EmptyLine
    ensures var g := ParseSpec(lines, n).group;
            WhitespaceReports(g) == (if |g| > NewlinesLimit then [ExcessNewlines(n, n + |g| - 1)] else [])
            && (forall i :: n <= i < n + |g| ==> IsBlank(lines[i]))
            && (n + |g| < |lines| ==> !IsBlank(lines[n + |g|]))
  {
    ParseShape(lines, n);
  }

  // A group of the file never fails on its own, except an instruction whose magic-number test fails.
  lemma GroupFailure(lines: seq<string>, og: seq<string>, spans: seq<Span>, n: nat)
    requires n < |lines| == |og|
    ensures GroupEffect(lines, og, spans, n).None? ==>
              ParseSpec(lines, n).kind == Instruction && AsmMagicSpec(lines[n], spans, n).None?
  {
    ParseShape(lines, n);
  }

  // The run fails only when the table holds an entry whose `*/` came before any `/*`.
  lemma {:induction false} RunFailure(lines: seq<string>, og: seq<string>, spans: seq<Span>, i: nat)
    requires |lines| == |og|
    requires forall k :: 0 <= k < |spans| ==> spans[k].start.Some?
    ensures RunFrom(lines, og, spans, i).Some?
    decreases |lines| - i
  {
    if i < |lines| {
      GroupFailure(lines, og, spans, i);
      AsmMagicFailure(lines[i], spans, i);
      RunFailure(lines, og, spans, NextLine(lines, i));
    }
  }

  // Line `m` is an instruction or directive whose leading whitespace holds a space.
  predicate SpaceLineOk(lines: seq<string>, og: seq<string>, m: nat) {
    m < |lines| == |og| && UsesSpaces(og[m])
    && (ParseSpec(lines, m).kind == Instruction || ParseSpec(lines, m).kind == Directive)
  }

  // `u` lists such lines from line `i` on, each once and in increasing order.
  predicate SpaceLinesOk(lines: seq<string>, og: seq<string>, u: seq<nat>, i: nat) {
    Increasing(u) && forall m :: m in u ==> i <= m && SpaceLineOk(lines, og, m)
  }

  // A group adds at most its own first line, and only a line indented with a space.
  lemma GroupSpaceLines(lines: seq<string>, og: seq<string>, spans: seq<Span>, i: nat)
    requires i < |lines| == |og| && GroupEffect(lines, og, spans, i).Some?
    ensures var u := GroupEffect(lines, og, spans, i).value.spaceLines;
            u == [] || (u == [i] && SpaceLineOk(lines, og, i))
  {
  }

  lemma SpaceLinesCons(lines: seq<string>, og: seq<string>, x: seq<nat>, rest: seq<nat>, i: nat, next: nat)
    requires i < next && (x == [] || (x == [i] && SpaceLineOk(lines, og, i)))
    requires SpaceLinesOk(lines, og, rest, next)
    ensures SpaceLinesOk(lines, og, x + rest, i)
  {
    IncreasingCons(x, rest, i);
  }

  predicate Increasing(u: seq<nat>) {
    forall a, b :: 0 <= a < b < |u| ==> u[a] < u[b]
  }

  lemma IncreasingCons(x: seq<nat>, rest: seq<nat>, i: nat)
    requires x == [] || x == [i]
    requires Increasing(rest) && forall m :: m in rest ==> i < m
    ensures Increasing(x + rest)
  {
    var u := x + rest;
    if x == [] {
      assert u == rest;
    } else {
      forall a, b | 0 <= a < b < |u|
        ensures u[a] < u[b]
      {
        assert u[b] == rest[b - 1] && rest[b - 1] in rest;
        if a > 0 {
          assert u[a] == rest[a - 1];
        }
      }
    }
  }

  // The lines reported as indented with spaces are instructions and directives whose leading whitespace
  // holds a space, each once, in increasing order.
  lemma {:induction false} SpaceLinesShape(lines: seq<string>, og: seq<string>, spans: seq<Span>, i: nat)
    requires |lines| == |og|
    ensures var r := RunFrom(lines, og, spans, i);
            r.Some? ==> SpaceLinesOk(lines, og, r.value.spaceLines, i)
    decreases |lines| - i
  {
    if i < |lines| && RunFrom(lines, og, spans, i).Some? {
      var next := NextLine(lines, i);
      SpaceLinesShape(lines, og, spans, next);
      GroupSpaceLines(lines, og, spans, i);
      var e := GroupEffect(lines, og, spans, i).value;
      var rest := RunFrom(lines, og, spans, next).value;
      SpaceLinesCons(lines, og, e.spaceLines, rest.spaceLines, i, next);
    }
  }

  // A header collected while a block comment is pending.
  predicate PendingOk(lines: seq<string>, g: seq<nat>, i: nat) {
    g != [] && g[0] < |lines| && ParseSpec(lines, g[0]) == Parsed(g, BlockCmmt) && Last(g) < i
    && forall m :: Last(g) < m < i ==> m < |lines| && (IsBlank(lines[m]) || ParseSpec(lines, m).kind == Label)
  }

  // A header: the lines of a block comment group, then a label line after it, with only blank lines and
  // labels in between.
  predicate HeaderShape(lines: seq<string>, h: seq<nat>) {
    2 <= |h| && h[|h| - 1] < |lines| && PendingOk(lines, h[..|h| - 1], h[|h| - 1])
    && ParseSpec(lines, h[|h| - 1]).kind == Label
  }

  // A block comment group starts a pending header.
  lemma PendingStarts(lines: seq<string>, i: nat)
    requires i < |lines| && ParseSpec(lines, i).kind == BlockCmmt
    ensures PendingOk(lines, ParseSpec(lines, i).group, NextLine(lines, i))
  {
    ParseShape(lines, i);
  }

  // Blank lines and labels keep a header pending.
  lemma PendingKept(lines: seq<string>, g: seq<nat>, i: nat)
    requires i < |lines| && PendingOk(lines, g, i)
    requires ParseSpec(lines, i).kind == EmptyLine || ParseSpec(lines, i).kind == Label
    ensures PendingOk(lines, g, NextLine(lines, i))
  {
    ParseShape(lines, i);
  }

  // A label after a pending block comment completes a header.
  lemma HeaderCompleted(lines: seq<string>, g: seq<nat>, i: nat)
    requires i < |lines| && PendingOk(lines, g, i) && ParseSpec(lines, i).kind == Label
    ensures ParseSpec(lines, i).group == [i] && HeaderShape(lines, g + [i])
  {
    ParseShape(lines, i);
    assert (g + [i])[..|g|] == g;
  }

  lemma {:induction false} HeadersFromShape(lines: seq<string>, i: nat, pending: Option<seq<nat>>)
    requires pending.Some? ==> PendingOk(lines, pending.value, i)
    ensures forall k :: 0 <= k < |HeadersFrom(lines, i, pending)| ==> HeaderShape(lines, HeadersFrom(lines, i, pending)[k])
    decreases |lines| - i
  {
    if i < |lines| {
      var kind := ParseSpec(lines, i).kind;
      var next := NextLine(lines, i);
      if kind == BlockCmmt {
        PendingStarts(lines, i);
        HeadersFromShape(lines, next, Some(ParseSpec(lines, i).group));
      } else if kind == Label && pending.Some? {
        HeaderCompleted(lines, pending.value, i);
        PendingKept(lines, pending.value, i);
        HeadersFromShape(lines, next, pending);
      } else if kind != EmptyLine {
        HeadersFromShape(lines, next, None);
      } else {
        if pending.Some? {
          PendingKept(lines, pending.value, i);
        }
        HeadersFromShape(lines, next, pending);
      }
    }
  }

  // Every header `run` collects is a block comment followed by a label, with only blank lines and labels
  // in between.
  lemma HeadersShape(lines: seq<string>)
    ensures forall k :: 0 <= k < |HeadersFrom(lines, 0, None)| ==> HeaderShape(lines, HeadersFrom(lines, 0, None)[k])
  {
    HeadersFromShape(lines, 0, None);
  }

  // A label does not clear the pending block comment: two labels in a row after one block comment both
  // get it as their header.
  lemma LabelsShareHeader(lines: seq<string>, i: nat, g: seq<nat>)
    requires i + 1 < |lines|
    requires ParseSpec(lines, i).kind == Label && ParseSpec(lines, i + 1).kind == Label
    ensures |HeadersFrom(lines, i, Some(g))| >= 2
    ensures HeadersFrom(lines, i, Some(g))[..2] == [g + [i], g + [i + 1]]
  {
    ParseShape(lines, i);
    ParseShape(lines, i + 1);
    assert NextLine(lines, i) == i + 1 && NextLine(lines, i + 1) == i + 2;
    var rest := HeadersFrom(lines, i + 2, Some(g));
    assert HeadersFrom(lines, i + 1, Some(g)) == [g + [i + 1]] + rest;
  }
}
