// The assembly checker object (`SStyleChecker`): its state, the handlers of
// each kind of group and the main loop.
//
// The file's lines are given as read (`readline` results); the checker keeps
// them without their newline (`ogLines`) and with each tab replaced by TAB_LENGTH
// spaces (`lines`). Creating a checker also builds the table of block comments,
// which may fail; so may a run. Printing is modelled by appending to `diags`.
module AsmChecker {
  import opened Common
  import opened Quotes
  import opened AsmComments
  import opened AsmParse
  import opened AsmMagic
  import opened AsmRules
  import CPatterns

  // The lines as read, without their newline.
  function ReadLines(raw: seq<string>): (og: seq<string>)
    ensures |og| == |raw|
  {
    seq(|raw|, i requires 0 <= i < |raw| => StripNewline(raw[i]))
  }

  class AsmStyleChecker {
    const lines: seq<string>
    const ogLines: seq<string>
    var usedSpaceLines: seq<nat>
    var blockCmmts: seq<Span>
    var diags: seq<Report>

    // `__init__` without the file handling and without `get_block_comments` (see `Open`).
    constructor (raw: seq<string>)
      ensures lines == PrepareLines(raw, TabLength) && ogLines == ReadLines(raw)
      ensures |lines| == |ogLines|
      ensures usedSpaceLines == [] && blockCmmts == [] && diags == []
    {
      lines := PrepareLines(raw, TabLength);
      ogLines := ReadLines(raw);
      usedSpaceLines := [];
      blockCmmts := [];
      diags := [];
    }

    // ------------------------------------------------------------ block comment table

    // `get_block_comments()`: `false` when `within_comment` fails on the way.
    method GetBlockComments() returns (ok: bool)
      modifies this`blockCmmts
      ensures var t := SpansFrom(lines, 0, 0, None, old(blockCmmts));
              ok == t.Some? && (ok ==> blockCmmts == t.value)
    {
      var start: Option<Loc> := None;
      var i := 0;
      while i < |lines|
        invariant i <= |lines|
        invariant SpansFrom(lines, i, 0, start, blockCmmts) == SpansFrom(lines, 0, 0, None, old(blockCmmts))
      {
        var failed;
        start, failed := ScanLine(i, start);
        if failed {
          return false;
        }
        i := i + 1;
      }
      ok := true;
    }

    // The inner loop of `get_block_comments` over line `i`.
    method ScanLine(i: nat, start0: Option<Loc>) returns (start: Option<Loc>, failed: bool)
      requires i < |lines|
      modifies this`blockCmmts
      ensures failed ==> SpansFrom(lines, i, 0, start0, old(blockCmmts)).None?
      ensures !failed ==> SpansFrom(lines, i, 0, start0, old(blockCmmts)) == SpansFrom(lines, i + 1, 0, start, blockCmmts)
    {
      start := start0;
      var line := lines[i];
      var j := 0;
      while j + 1 < |line|
        invariant j <= |line|
        invariant SpansFrom(lines, i, j, start, blockCmmts) == SpansFrom(lines, i, 0, start0, old(blockCmmts))
        decreases |line| - j
      {
        if line[j] == '/' && line[j + 1] == '*' {
          var quoted := WithinQuotes(line, j, j + 2);
          if !quoted {
            var inComment := WithinComment(line, blockCmmts, i, j, j + 2);
            if inComment.None? {
              return start, true;
            }
            if !inComment.value {
              start := Some(Loc(i, j));
            }
          }
        } else if line[j] == '*' && line[j + 1] == '/' {
          blockCmmts := blockCmmts + [Span(start, Loc(i, j + 2))];
        }
        j := j + 1;
      }
      failed := false;
    }

    // ------------------------------------------------------------ checks

    // `check_indentation(n, kind)`.
    method CheckIndentation(n: nat, kind: Kind)
      requires n < |lines| == |ogLines|
      modifies this`diags, this`usedSpaceLines
      ensures diags == old(diags) + IndentReports(lines[n], n, kind)
      ensures usedSpaceLines == old(usedSpaceLines) + SpaceLines(ogLines[n], n, kind)
    {
      var line := lines[n];
      if kind == Label {
        var stripped := LStrip(line);
        if |line| != |stripped| {
          diags := diags + [LabelIndented(n)];
        }
      } else if kind == Instruction || kind == Directive {
        var actual := |line| - |LStrip(line)|;
        if actual == 0 {
          diags := diags + [NotIndented(n)];
        } else if actual != TabLength {
          diags := diags + [InconsistentIndentation(n)];
        }
        var og := ogLines[n];
        var whitespace := og[..|og| - |LStrip(og)|];
        if Find(whitespace, " ") != -1 {
          usedSpaceLines := usedSpaceLines + [n];
        }
      }
    }

    // `handle_trailing_string(trail, n, terminator)`.
    method HandleTrailingString(trail: string, n: nat)
      modifies this`diags
      ensures diags == old(diags) + TrailReports(trail, n)
    {
      if |trail| != 0 {
        if !IsCommentLine(trail) && |LStrip(trail)| != 0 {
          diags := diags + [StatementsBehind(n)];
        }
      }
    }

    // `check_line_limit()`.
    method CheckLineLimit()
      modifies this`diags
      ensures diags == old(diags) + LineLimitReports(lines, |lines|)
    {
      var i := 0;
      while i < |lines|
        invariant i <= |lines|
        invariant diags == old(diags) + LineLimitReports(lines, i)
      {
        if |lines[i]| > LineLimit {
          diags := diags + [OverLimit(i)];
        }
        i := i + 1;
      }
    }

    // `check_space_indentation()`.
    method CheckSpaceIndentation()
      modifies this`diags
      ensures diags == old(diags) + SpaceReport(usedSpaceLines)
    {
      if |usedSpaceLines| != 0 {
        diags := diags + [IndentedWithSpaces(usedSpaceLines)];
      }
    }

    // ------------------------------------------------------------ handlers

    // `handle_block_comment(group)`: `None` when the last line holds no `*/`.
    method HandleBlockComment(group: seq<nat>) returns (next: Option<nat>)
      requires group != [] && Last(group) < |lines|
      modifies this`diags
      ensures var r := BlockReports(lines, group);
              next.Some? == r.Some? && (r.Some? ==> next.value == Last(group) + 1 && diags == old(diags) + r.value)
      ensures next.None? ==> diags == old(diags)
    {
      var lastLine := lines[Last(group)];
      var index := Find(lastLine, "*/");
      if index != -1 {
        var after := lastLine[index + 2..];
        HandleTrailingString(after, Last(group));
        return Some(Last(group) + 1);
      }
      next := None;
    }

    // `handle_comment(group)`.
    method HandleComment(group: seq<nat>) returns (next: nat)
      requires group != [] && group[0] < |lines|
      modifies this`diags
      ensures next == Last(group) + 1 && diags == old(diags) + TodoReports(lines[group[0]], group[0])
    {
      if IsTodoLine(lines[group[0]]) {
        diags := diags + [TodoLeftIn(group[0])];
      }
      next := Last(group) + 1;
    }

    // `handle_instruction(group)`: `None` when the magic-number test fails.
    method HandleInstruction(group: seq<nat>) returns (next: Option<nat>)
      requires group != [] && group[0] < |lines| == |ogLines|
      modifies this`diags, this`usedSpaceLines
      ensures var n := group[0];
              var magic := AsmMagicSpec(lines[n], blockCmmts, n);
              next.Some? == magic.Some?
              && (magic.Some? ==> next.value == Last(group) + 1)
              && diags == old(diags) + IndentReports(lines[n], n, Instruction)
                          + (if magic == Some(true) then [MagicNumber(n)] else [])
              && usedSpaceLines == old(usedSpaceLines) + SpaceLines(ogLines[n], n, Instruction)
    {
      var n := group[0];
      CheckIndentation(n, Instruction);
      var magic := ContainsMagic(lines[n], blockCmmts, n);
      if magic.None? {
        return None;
      }
      if magic.value {
        diags := diags + [MagicNumber(n)];
      }
      next := Some(Last(group) + 1);
    }

    // `handle_directive(group)`.
    method HandleDirective(group: seq<nat>) returns (next: nat)
      requires group != [] && group[0] < |lines| == |ogLines|
      modifies this`diags, this`usedSpaceLines
      ensures next == Last(group) + 1
      ensures diags == old(diags) + IndentReports(lines[group[0]], group[0], Directive)
      ensures usedSpaceLines == old(usedSpaceLines) + SpaceLines(ogLines[group[0]], group[0], Directive)
    {
      CheckIndentation(group[0], Directive);
      next := Last(group) + 1;
    }

    // `handle_label(group)`.
    method HandleLabel(group: seq<nat>) returns (next: nat)
      requires group != [] && group[0] < |lines| == |ogLines|
      modifies this`diags, this`usedSpaceLines
      ensures next == Last(group) + 1
      ensures diags == old(diags) + IndentReports(lines[group[0]], group[0], Label) + LabelReports(lines[group[0]], group[0])
      ensures usedSpaceLines == old(usedSpaceLines)
    {
      CheckIndentation(group[0], Label);
      CheckLabelTrail(group[0]);
      next := Last(group) + 1;
    }

    // The part of `handle_label` after the indentation check: the text after the first colon.
    method CheckLabelTrail(n: nat)
      requires n < |lines|
      modifies this`diags
      ensures diags == old(diags) + LabelReports(lines[n], n)
    {
      var line := lines[n];
      var index := Find(line, ":");
      var after := line[index + 1..];
      if |after| != 0 {
        if !IsSpaceTabRun(after) && !IsCommentLine(after) && !CPatterns.IsBlockComment(after) {
          diags := diags + [StatementsBehindLabel(n)];
        }
      }
    }

    // `handle_whitespace(group)`.
    method HandleWhitespace(group: seq<nat>) returns (next: nat)
      requires group != []
      modifies this`diags
      ensures next == Last(group) + 1 && diags == old(diags) + WhitespaceReports(group)
    {
      if |group| > NewlinesLimit {
        diags := diags + [ExcessNewlines(group[0], Last(group))];
      }
      next := Last(group) + 1;
    }

    // `handle_group(group, kind)` on the group that starts at line `n`: `None` when the handler fails.
    method HandleGroup(n: nat, p: Parsed) returns (next: Option<nat>)
      requires n < |lines| == |ogLines| && p == ParseSpec(lines, n)
      modifies this`diags, this`usedSpaceLines
      ensures var e := GroupEffect(lines, ogLines, blockCmmts, n);
              next.Some? == e.Some?
              && (e.Some? ==> next.value == NextLine(lines, n)
                              && diags == old(diags) + e.value.reports
                              && usedSpaceLines == old(usedSpaceLines) + e.value.spaceLines)
      ensures old(diags) <= diags && old(usedSpaceLines) <= usedSpaceLines
    {
      ParseShape(lines, n);
      match p.kind
      case BlockCmmt =>
        next := HandleBlockComment(p.group);
        assert old(diags) <= diags;
      case Cmmt =>
        var k := HandleComment(p.group);
        next := Some(k);
        assert old(diags) <= diags;
      case Label =>
        var k := HandleLabel(p.group);
        next := Some(k);
        assert old(diags) <= diags;
      case Directive =>
        var k := HandleDirective(p.group);
        next := Some(k);
        assert old(diags) <= diags && old(usedSpaceLines) <= usedSpaceLines;
      case Instruction =>
        next := HandleInstruction(p.group);
        assert old(diags) <= diags && old(usedSpaceLines) <= usedSpaceLines;
      case EmptyLine =>
        var k := HandleWhitespace(p.group);
        next := Some(k);
        assert old(diags) <= diags;
    }

    // ------------------------------------------------------------ run

    // `run()`: `false` when a handler fails; otherwise the diagnostics, the lines indented with spaces
    // and the function headers (a block comment's lines followed by a label's line).
    method Run() returns (ok: bool, headers: seq<seq<nat>>)
      requires |lines| == |ogLines|
      modifies this`diags, this`usedSpaceLines
      ensures var r := RunFrom(lines, ogLines, blockCmmts, 0);
              ok == r.Some?
              && (ok ==>
                    usedSpaceLines == old(usedSpaceLines) + r.value.spaceLines
                    && diags == old(diags) + LineLimitReports(lines, |lines|) + r.value.reports + SpaceReport(usedSpaceLines)
                    && headers == HeadersFrom(lines, 0, None))
      ensures old(diags) + LineLimitReports(lines, |lines|) <= diags
      ensures old(usedSpaceLines) <= usedSpaceLines
    {
      CheckLineLimit();
      ghost var base := diags;
      ghost var used := usedSpaceLines;
      ghost var done := Effect([], []);
      assert base + done.reports == base && used + done.spaceLines == used;
      ThenNothing(RunFrom(lines, ogLines, blockCmmts, 0));
      headers := [];
      var prevBlock := false;
      var prevGroup: seq<nat> := [];
      var i := 0;
      while i < |lines|
        invariant i <= |lines|
        invariant diags == base + done.reports && usedSpaceLines == used + done.spaceLines
        invariant Then(done, RunFrom(lines, ogLines, blockCmmts, i)) == RunFrom(lines, ogLines, blockCmmts, 0)
        invariant headers + HeadersFrom(lines, i, Pending(prevBlock, prevGroup)) == HeadersFrom(lines, 0, None)
        decreases |lines| - i
      {
        var next;
        next, done, headers, prevBlock, prevGroup := RunStep(i, blockCmmts, base, used, done, headers, prevBlock, prevGroup);
        if next.None? {
          return false, headers;
        }
        i := next.value;
      }
      assert done == RunFrom(lines, ogLines, blockCmmts, 0).value;
      CheckSpaceIndentation();
      ok := true;
    }

    // `handle_group` on the group at line `n`, stated as one step of the run.
    method HandleStep(n: nat, ghost spans: seq<Span>) returns (p: Parsed, next: Option<nat>, ghost e: Effect)
      requires n < |lines| == |ogLines| && spans == blockCmmts
      modifies this`diags, this`usedSpaceLines
      ensures p == ParseSpec(lines, n)
      ensures next.None? ==> RunFrom(lines, ogLines, spans, n).None?
      ensures next.Some? ==>
                next.value == NextLine(lines, n)
                && diags == old(diags) + e.reports && usedSpaceLines == old(usedSpaceLines) + e.spaceLines
                && RunFrom(lines, ogLines, spans, n) == Then(e, RunFrom(lines, ogLines, spans, next.value))
      ensures old(diags) <= diags && old(usedSpaceLines) <= usedSpaceLines
    {
      p := ParseLine(lines, n);
      next := HandleGroup(n, p);
      if next.Some? {
        e := GroupEffect(lines, ogLines, blockCmmts, n).value;
        RunFromStep(lines, ogLines, blockCmmts, n);
      } else {
        e := Effect([], []);
        RunFails(lines, ogLines, blockCmmts, n);
      }
    }

    // One turn of the loop of `run` at line `i`: parse the group, handle it, collect the header.
    method RunStep(i: nat, ghost spans: seq<Span>, ghost base: seq<Report>, ghost used: seq<nat>, ghost done0: Effect,
                   headers0: seq<seq<nat>>, prevBlock0: bool, prevGroup0: seq<nat>)
      returns (next: Option<nat>, ghost done: Effect, headers: seq<seq<nat>>, prevBlock: bool, prevGroup: seq<nat>)
      requires i < |lines| == |ogLines| && spans == blockCmmts
      requires diags == base + done0.reports && usedSpaceLines == used + done0.spaceLines
      modifies this`diags, this`usedSpaceLines
      ensures next.None? ==> RunFrom(lines, ogLines, spans, i).None?
      ensures next.Some? ==>
                i < next.value <= |lines|
                && diags == base + done.reports && usedSpaceLines == used + done.spaceLines
                && Then(done, RunFrom(lines, ogLines, spans, next.value)) == Then(done0, RunFrom(lines, ogLines, spans, i))
                && headers + HeadersFrom(lines, next.value, Pending(prevBlock, prevGroup))
                   == headers0 + HeadersFrom(lines, i, Pending(prevBlock0, prevGroup0))
      ensures base + done0.reports <= diags && used + done0.spaceLines <= usedSpaceLines
    {
      var p;
      ghost var e;
      p, next, e := HandleStep(i, spans);
      if next.None? {
        return next, done0, headers0, prevBlock0, prevGroup0;
      }
      done := Join(done0, e);
      JoinAfter(base, used, done0, e);
      ThenStep(done0, e, RunFrom(lines, ogLines, spans, i), RunFrom(lines, ogLines, spans, next.value));
      headers, prevBlock, prevGroup := CollectHeader(p, headers0, prevBlock0, prevGroup0);
      HeadersAt(lines, i, p, Pending(prevBlock0, prevGroup0));
      HeadersJoin(headers0, HeadersAdded(p, Pending(prevBlock0, prevGroup0)), HeadersFrom(lines, i, Pending(prevBlock0, prevGroup0)),
                  HeadersFrom(lines, next.value, Pending(prevBlock, prevGroup)));
    }
  }

  // The header `run` waits to pair with a label.
  function Pending(prevBlock: bool, prevGroup: seq<nat>): Option<seq<nat>> {
    if prevBlock then Some(prevGroup) else None
  }

  // The header bookkeeping of `run` after the group `p`.
  method CollectHeader(p: Parsed, headers0: seq<seq<nat>>, prevBlock0: bool, prevGroup0: seq<nat>)
    returns (headers: seq<seq<nat>>, prevBlock: bool, prevGroup: seq<nat>)
    ensures headers == headers0 + HeadersAdded(p, Pending(prevBlock0, prevGroup0))
    ensures Pending(prevBlock, prevGroup) == PendingAfter(p, Pending(prevBlock0, prevGroup0))
  {
    headers, prevBlock, prevGroup := headers0, prevBlock0, prevGroup0;
    if p.kind == BlockCmmt {
      prevBlock := true;
      prevGroup := p.group;
    } else if p.kind == Label && prevBlock {
      headers := headers + [prevGroup + p.group];
    } else if p.kind != EmptyLine {
      prevBlock := false;
    }
  }

  // One step of the run.
  lemma RunFromStep(lines: seq<string>, og: seq<string>, spans: seq<Span>, i: nat)
    requires i < |lines| == |og| && GroupEffect(lines, og, spans, i).Some?
    ensures RunFrom(lines, og, spans, i)
            == Then(GroupEffect(lines, og, spans, i).value, RunFrom(lines, og, spans, NextLine(lines, i)))
  {
  }

  // Two effects one after the other.
  function Join(d: Effect, e: Effect): Effect {
    Effect(d.reports + e.reports, d.spaceLines + e.spaceLines)
  }

  // A run whose first group fails fails.
  lemma RunFails(lines: seq<string>, og: seq<string>, spans: seq<Span>, i: nat)
    requires i < |lines| == |og| && GroupEffect(lines, og, spans, i).None?
    ensures RunFrom(lines, og, spans, i).None?
  {
  }

  // Appending the effects of a group after those already done.
  lemma JoinAfter(base: seq<Report>, used: seq<nat>, done: Effect, e: Effect)
    ensures base + Join(done, e).reports == base + done.reports + e.reports
    ensures used + Join(done, e).spaceLines == used + done.spaceLines + e.spaceLines
  {
  }

  // `ThenStep`, `ThenNothing` and `ThenAssoc` are algebra on effects, not properties of the checker:
  // `Then` is associative with the empty effect as unit. The loop of `Run` uses them to keep its
  // invariant that the effects so far, then the run from the current line, are the whole run.

  // The run from a group on, after the effects `done`, is the run from the next group on after the
  // group's effects too.
  lemma ThenStep(done: Effect, e: Effect, here: Option<Effect>, rest: Option<Effect>)
    requires here == Then(e, rest)
    ensures Then(Join(done, e), rest) == Then(done, here)
  {
    ThenAssoc(done, e, rest);
  }

  // One step of the header collection, with the group already parsed.
  lemma HeadersAt(lines: seq<string>, i: nat, p: Parsed, pending: Option<seq<nat>>)
    requires i < |lines| && p == ParseSpec(lines, i)
    ensures HeadersFrom(lines, i, pending) == HeadersAdded(p, pending) + HeadersFrom(lines, NextLine(lines, i), PendingAfter(p, pending))
  {
    HeadersFromStep(lines, i, pending);
  }

  // Headers collected so far, then those of one group, then the rest.
  lemma HeadersJoin(headers: seq<seq<nat>>, added: seq<seq<nat>>, here: seq<seq<nat>>, rest: seq<seq<nat>>)
    requires here == added + rest
    ensures (headers + added) + rest == headers + here
  {
  }

  // One step of the header collection.
  lemma HeadersFromStep(lines: seq<string>, i: nat, pending: Option<seq<nat>>)
    requires i < |lines|
    ensures HeadersFrom(lines, i, pending)
            == HeadersAdded(ParseSpec(lines, i), pending) + HeadersFrom(lines, NextLine(lines, i), PendingAfter(ParseSpec(lines, i), pending))
  {
  }

  // Nothing before the rest is the rest.
  lemma ThenNothing(rest: Option<Effect>)
    ensures Then(Effect([], []), rest) == rest
  {
    if rest.Some? {
      assert [] + rest.value.reports == rest.value.reports;
      assert [] + rest.value.spaceLines == rest.value.spaceLines;
    }
  }

  // Running two effects one after the other before the rest is running their join before the rest.
  lemma ThenAssoc(d: Effect, e: Effect, rest: Option<Effect>)
    ensures Then(d, Then(e, rest)) == Then(Effect(d.reports + e.reports, d.spaceLines + e.spaceLines), rest)
  {
    if rest.Some? {
      assert d.reports + (e.reports + rest.value.reports) == (d.reports + e.reports) + rest.value.reports;
      assert d.spaceLines + (e.spaceLines + rest.value.spaceLines) == (d.spaceLines + e.spaceLines) + rest.value.spaceLines;
    }
  }

  // `SStyleChecker(filename)`: a checker over the lines of the file with its block comment table, or
  // `None` when building the table fails.
  method Open(raw: seq<string>) returns (c: Option<AsmStyleChecker>)
    ensures c.Some? <==> BlockTable(PrepareLines(raw, TabLength)).Some?
    ensures c.Some? ==>
              fresh(c.value) && c.value.lines == PrepareLines(raw, TabLength) && c.value.ogLines == ReadLines(raw)
              && c.value.blockCmmts == BlockTable(PrepareLines(raw, TabLength)).value
              && c.value.usedSpaceLines == [] && c.value.diags == []
  {
    var checker := new AsmStyleChecker(raw);
    var ok := checker.GetBlockComments();
    if !ok {
      return None;
    }
    c := Some(checker);
  }
}
