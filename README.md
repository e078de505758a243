# Style checker model

A Dafny model of a small style checker for C and for ARM-style assembly
sources. Both checkers read a file into a list of lines, classify each
line into a *group* of lines (a comment, a statement, a conditional with its
block, a label, ...), and hand every group to a handler that prints style
diagnostics: wrong indentation, text after a terminator, magic numbers and
literals, lines over the length limit, excess blank lines, TODO comments,
commented-out code and lines indented with spaces.

The model follows the two source files module by module.

- `Common`: Python string primitives as used by both files (`find`, `lstrip`,
  `rstrip`, the `str.replace` tab replacement, `range`), and the reading of the
  file into stripped lines with each tab replaced.
- `Quotes`: `within_quotes`, identical in both files.
- `CComments`: `within_comment` of the C checker.
- `Keywords`: `match_keywords`, the keyword search that tries a fixed list in
  order.
- `Scan`, `Scanners`: the three forward scanners of the C checker
  (`find_statement_terminator`, `find_condition`, `find_code_block`). `Scan` lays
  the text out as a stream of character cells and end-of-line cells in reading
  order. `Scanners` states each scanner over that stream. Each scanner is also
  written position by position, the way the source's nested loops walk the text,
  and proved equal to the stream form.
- `CPatterns`: the anchored regular expressions of the C checker, written out
  by hand. The function-definition pattern, the function-header pattern and the
  list of "looks like code" patterns are left uninterpreted (`Patterns`).
- `CMagic`: `contains_magic` of the C checker. The `findall` of the magic-number
  pattern is described by hand.
- `CParse`: `parse_line` of the C checker. It is a specification function
  `ParseSpec`, and a method `ParseLine` with the source's loops is proved equal
  to it.
- `CRules`: the diagnostics of each C check as functions of the text, plus the
  configuration detection of the constructor.
- `CChecker`: the class `CStyleChecker` with the handlers, `override_indent_amt`
  and `run`. Printing a diagnostic appends a `Diag` record (kind, first line,
  last line) to the `diags` field. The handlers call each other recursively and
  the source's loop can revisit a line, so every handler takes a `fuel` bound.
  The `Outcome` of a handler is one of:
  - `Next(line)`: the line after the group;
  - `NoLine`: the handler returned `None`;
  - `Crash`: the source raises;
  - `OutOfFuel`: the fuel bound was reached.
- `AsmComments`: the block-comment table of the assembly checker
  (`get_block_comments`) and its `within_comment`.
- `AsmParse`, `AsmMagic`: `parse_line` and `contains_magic` of the assembly
  checker.
- `AsmRules`: the assembly diagnostics as functions of the text, and `RunFrom`,
  the whole run as a function.
- `AsmChecker`: the class `AsmStyleChecker` with its handlers and `run`. The
  function headers that `run` collects are returned to the caller.

Line indices are 0-based. The source prints 1-based line numbers.

Python exceptions are modelled as failure results, never as preconditions:
- unpacking the `None` a scanner returns;
- the assertion in `find_code_block`;
- `case_indent` read before it is set;
- a block-comment table entry without a start.

In the assembly checker a handler that returns `None` makes the next loop test
and `parse_line` fail, so the model ends the run there.

Where the code and the tool's intended design differ, the model follows the
code:
- `match_keywords` tries the keywords in a fixed order (`while`, `for`,
  `switch`, `if`, `else if`, ...) and takes the first one accepted. On
  `} else if (x)` it therefore finds `if`, not the longer `else if`
  (`Keywords.ElseIfLineMatchesIf`). Even the bare line `else if` is read as
  `if` at column 5 (`Keywords.ElseIfExact`), while every other keyword's own
  text is read as that keyword at column 0 (`Keywords.ExactLine`).
- The three C scanners count braces, parentheses and terminators without
  skipping quoted or commented text.
- The case-label convention is not taken from the first `switch`/`case` pair.
  Every `case` or `default` line after a `switch` overwrites it, so the last one
  scanned decides (`CRules.LastCaseWins`).
- `override_indent_amt` raises when no `switch` set `case_indent`.
- A `/*` never closed by a `*/` makes the comment loop of `parse_line`
  (cstyle.py:394-407) take in every line to the end of the text and then fall
  through to the code branches. Those append the lines of the construct that
  starts on the same line, for example `n..l` for a statement
  (cstyle.py:496-516). The group then lists line `n` twice and is not one run
  of consecutive lines. `CParse.ParseCode` keeps this group as it is, and
  `CParse.ParseGroupShape` states the run shape only for the other groups.
- The comment in the `switch` loop (cstyle.py:473-474) says the line of the
  `}` that closes the switch belongs to the case only when it holds statements
  of that case. The code tests the text before the brace against the
  white-space pattern (cstyle.py:38), which needs at least one space or tab.
  A `}` in column 0 has empty text before it, so its line is taken in too
  (`CParse.ColumnZeroCloseTakenIn`).

## Model

| member | source | states |
|---|---|---|
| Common.FindFrom | cstyle.py:302 | `str.find` from an index: -1 or an occurrence at or after the index, and no occurrence before the one returned |
| Common.Find | sstyle.py:352 | `str.find`: -1 or an occurrence of the pattern |
| Common.LeadingWs | cstyle.py:376 | the width `lstrip` removes: a run of Python whitespace followed by a non-whitespace character or the end |
| Common.TrailingWs | cstyle.py:490 | the width `rstrip` removes: a run of whitespace at the end preceded by a non-whitespace character or the start |
| Common.LeadingSpaces | sstyle.py:24 | the ` *` prefix of the anchored patterns: a run of spaces then a non-space or the end |
| Common.Range | cstyle.py:414 | `range(a, b)`: empty when `b <= a`, otherwise the consecutive indices from `a` |
| Common.ReplaceTabs | cstyle.py:134 | the tab replacement leaves no tab and keeps a tab-free line unchanged |
| Common.ReplaceTabsIdempotent | sstyle.py:83 | replacing tabs twice is replacing them once |
| Common.StripNewline | cstyle.py:131-132 | a final newline is removed and nothing else changes |
| Common.PrepareLines | cstyle.py:129-135 | the lines as stored: one per line read, none holding a tab |
| Quotes.QuotesBelowExact | cstyle.py:252-260 | the quote positions collected are exactly the unescaped `"` below the bound, in increasing order |
| Quotes.InQuotesIff | cstyle.py:263 | a span is within quotes if and only if it lies strictly inside a pair of consecutive unescaped quotes (both directions) |
| Quotes.RangesAreQuotePairs | cstyle.py:254-257 | every range opens and closes on an unescaped `"` with no unescaped `"` inside |
| Quotes.NoQuoteCharNotInQuotes | cstyle.py:245-247 | a string without `"` has nothing within quotes |
| Quotes.QuotesBeforeFirst | cstyle.py:245-251 | the scan starting at the first `"` misses no quote |
| Quotes.WithinQuotes | sstyle.py:143-164 | the loop computes `InQuotes` |
| CComments.BlockRangesFromArePairs | cstyle.py:284-290 | every range runs from a `/*` to the end of a later `*/`, with no `/*` between them |
| CComments.BlockRangesFromCoverCloses | cstyle.py:284-290 | every `*/` after the scan start closes a range |
| CComments.BlockRangesArePairs | cstyle.py:277-292 | the ranges are exactly the `/* ... */` pairs of the line after its first `/*` |
| CComments.WithinComment | cstyle.py:265-292 | the loops compute `InComment`: a `//` to the left outside quotes, or strictly inside a block-comment range |
| Keywords.MatchOne | cstyle.py:297-316 | an accepted keyword's index lies within the line |
| Keywords.MatchWord | cstyle.py:297-316 | an accepted index lies within the line |
| Keywords.MatchAmong | cstyle.py:296-318 | a keyword found is one of those tried, at an index of the line |
| Keywords.MatchAmongSound | cstyle.py:295-318 | the keyword returned is the first of the list accepted; `None, -1` means no keyword of the list is accepted |
| Keywords.MatchOneMeaning | cstyle.py:297-316 | an accepted keyword is the whole short line, or its first occurrence, delimited, outside quotes and outside comments |
| Keywords.MatchOneNone | cstyle.py:302-311 | a first occurrence inside an identifier or missing is not accepted |
| Keywords.MatchOneAt | cstyle.py:302-316 | a delimited, unquoted, uncommented first occurrence is accepted (converse of `MatchOneMeaning`) |
| Keywords.TryWord | cstyle.py:297-316 | the loop body computes `MatchWord` |
| Keywords.MatchKeywords | cstyle.py:295-318 | the loop computes `MatchSpec` |
| Keywords.NoSlashNotInComment | cstyle.py:265-281 | a line without `/` has no commented text |
| Keywords.ElseIfLineMatchesIf | cstyle.py:98 | on `} else if (x)` the keyword found is `if` at column 7 |
| Keywords.DoInsideIdentifier | cstyle.py:295-318 | `  dowork();` holds no keyword: the `do` in `dowork` is glued to an identifier and no other keyword occurs |
| Keywords.ExactLine | cstyle.py:295-318 | a line that is exactly a keyword's text, other than `else if`, is recognised as that keyword at column 0 |
| Keywords.ElseIfExact | cstyle.py:295-318 | the bare line `else if` is recognised as `if` at column 5, because `if` is tried before `else if` |
| Keywords.AcceptedFirst | cstyle.py:295-318 | when the keywords tried before one are all rejected and it is accepted, it is the match, at its own index |
| Keywords.NoneAccepted | cstyle.py:295-318 | when no keyword is accepted the result is "no keyword" |
| Keywords.EmptyNoKeyword | cstyle.py:297-299 | the empty line holds no keyword |
| Scan.StreamOrdered | cstyle.py:323-325 | the nested loops read the text's cells in strict reading order, each agreeing with the text |
| Scan.StreamCoversChar | cstyle.py:323-325 | every character at or after the start is read |
| Scan.StreamCoversEol | cstyle.py:333 | the end of every line from the start line on is reached |
| Scanners.TerminatorSpec | cstyle.py:322-336 | a terminator found is a position of the text, holds a terminator character when keywords are not included, and is not before the start |
| Scanners.TermScanFirst | cstyle.py:323-336 | the scan answers at the first cell where it stops |
| Scanners.TerminatorIsFirst | cstyle.py:322-336 | the answer is the first terminator or keyword line; with no answer, neither exists through the end of the text |
| Scanners.TerminatorFound | cstyle.py:326-336 | a found terminator is the first stop from the start |
| Scanners.TerminatorMissing | cstyle.py:322-336 | no answer means no terminator character and no keyword line to the end of the text |
| Scanners.TermFromIsScan | cstyle.py:323-336 | the position-by-position loops and the stream scan agree |
| Scanners.FindStatementTerminator | cstyle.py:322-336 | the loops compute `TerminatorSpec` |
| Scanners.CloseScanFirst | cstyle.py:350-353 | the `)` answered is the first at which the count is zero; none when the count never returns to zero |
| Scanners.ConditionSpec | cstyle.py:340-353 | the answer is a `(` at or after the start and a later `)` |
| Scanners.FirstOpenIsFirst | cstyle.py:346-349 | the opening position recorded is the first `(` |
| Scanners.ConditionOpenExists | cstyle.py:342-353 | a closing `)` is found only after some `(` |
| Scanners.ConditionInText | cstyle.py:340-353 | both positions are characters of the text |
| Scanners.ConditionIsBalanced | cstyle.py:340-353 | the answer is the first `(` and the first `)` through which the parentheses balance |
| Scanners.CloseFromIsScan | cstyle.py:343-353 | the position-by-position loops and the stream scan agree |
| Scanners.OpenFromIsScan | cstyle.py:343-349 | the same for the first `(` |
| Scanners.FindCondition | cstyle.py:340-353 | the loops compute `ConditionSpec` |
| Scanners.CodeBlockSpec | cstyle.py:357-369 | the block starts at the given `{` and ends at a later `}`; none when the start is not `{` |
| Scanners.CodeBlockInText | cstyle.py:357-369 | the closing position is a character of the text |
| Scanners.PositiveThrough | cstyle.py:360-369 | from a `{` the brace count stays positive until a `}` brings it to zero |
| Scanners.CodeBlockIsBalanced | cstyle.py:357-369 | the closing `}` is the first at which the braces balance, positive before it |
| Scanners.FindCodeBlock | cstyle.py:357-369 | the loops compute `CodeBlockSpec` |
| CMagic.DigitsEnd | cstyle.py:40 | the end of a digit run: digits up to it, a non-digit or the end after it |
| CMagic.OthersEnd | cstyle.py:40 | the end of the run matched by `[^a-zA-Z0-9_]+` |
| CMagic.NumberEnd | cstyle.py:40 | a number takes at least one character |
| CMagic.Candidates | cstyle.py:190-191 | every number `findall` yields lies within the line after the index |
| CMagic.CandidatesShape | cstyle.py:40 | every match is a number preceded by a non-identifier character, in increasing order without overlap |
| CMagic.GluedDigitNotCandidate | cstyle.py:40 | a digit right after an identifier character never starts a number |
| CMagic.NumberNeverNegative | cstyle.py:58 | the group used is the unsigned number, so `-1` of the allow-list never matches |
| CMagic.ScanLiteralLoop | cstyle.py:202-238 | the quote loop computes `LiteralScan` |
| CMagic.CheckNumber | cstyle.py:193-199 | the number body computes `NumberReported` |
| CMagic.ContainsMagic | cstyle.py:188-240 | the method computes `MagicSpec` |
| CMagic.ScanLiteralsWitness | cstyle.py:206-219 | a literal is reported only with a witness |
| CMagic.LiteralScanAbsent | cstyle.py:202-203 | without the delimiter on the line nothing is reported and the quote state is kept |
| CMagic.LiteralScanWitness | cstyle.py:221-238 | whatever the quote state it starts in, a scan reports only a witnessed literal |
| CMagic.MagicWitness | cstyle.py:188-240 | a magic line has a non-allow-listed number or literal whose first occurrence is not commented |
| CMagic.NoCandidateNoQuoteNotMagic | cstyle.py:191-240 | a line without numbers and quote characters is not magic |
| CMagic.AllowListedNumbersPass | cstyle.py:108-109 | allow-listed numbers are never reported |
| CParse.BlankRunEnd | cstyle.py:382-386 | the first non-blank line from `m`, with only blank lines before it |
| CParse.CommentCloseLine | cstyle.py:398-405 | the first line holding a `*/` past the opening `/*` |
| CParse.ScanBraces | cstyle.py:465-470 | the brace that closes the switch is a `}` of the line |
| CParse.DirectiveEnd | cstyle.py:486-492 | the last directive line is a line of the text from `m` on |
| CParse.ParseCode | cstyle.py:409-516 | a group is the group so far extended |
| CParse.Dispatch | cstyle.py:409-516 | the group of a keyword branch is a run of lines from `n` |
| CParse.ConditionalGroup | cstyle.py:411-428 | a conditional's group is a run from `n` |
| CParse.ConditionalLast | cstyle.py:412-427 | the condition closes at or after `n`, and the body ends at or after that |
| CParse.TermLast | cstyle.py:418-427 | a group ends at or after its terminator's line |
| CParse.BlockLast | cstyle.py:420-422 | a block ends at or after the line of its `{` |
| CParse.DoLast | cstyle.py:434-438 | the `;` after a `do` block is at or after the block |
| CParse.FuncLast | cstyle.py:504-506 | a function body ends at or after its header's terminator |
| CParse.UnconditionalGroup | cstyle.py:429-452 | an `else` or `do` group is a run from `n` |
| CParse.UnconditionalLast | cstyle.py:431-452 | its last line is at or after `n` |
| CParse.StatementGroup | cstyle.py:496-516 | a statement, structure or function group is a run from `n` |
| CParse.StatementLast | cstyle.py:497-516 | its last line is at or after `n` |
| CParse.ParseLine | cstyle.py:374-516 | the loops compute `ParseSpec` |
| CParse.BlankRunLines | cstyle.py:379-388 | the blank branch yields line `n` through the last blank line after it |
| CParse.BlockCommentLines | cstyle.py:394-407 | the block-comment loop yields the lines through the closing line, or every remaining line |
| CParse.HasCommentEnd | cstyle.py:400-402 | the inner loop finds a `*/` from the column exactly when `find` does |
| CParse.ParseCodeLine | cstyle.py:409-516 | the branch after the comment tests computes `ParseCode` |
| CParse.DispatchLines | cstyle.py:410-481 | the keyword branches compute `Dispatch` |
| CParse.DirectiveLines | cstyle.py:483-494 | the directive loop yields the lines through `DirectiveEnd` |
| CParse.ConditionalLines | cstyle.py:411-428 | computes `ConditionalGroup` |
| CParse.ConditionalLastLines | cstyle.py:412-427 | computes `ConditionalLast` |
| CParse.TermLastLine | cstyle.py:418-427 | computes `TermLast` |
| CParse.UnconditionalLines | cstyle.py:429-452 | computes `UnconditionalGroup` |
| CParse.UnconditionalLastLine | cstyle.py:431-452 | computes `UnconditionalLast` |
| CParse.CaseGroupLines | cstyle.py:453-481 | the case loop yields the label line and `CaseLines` |
| CParse.FuncBodyLast | cstyle.py:504-506 | computes `FuncLast` |
| CParse.StatementLines | cstyle.py:496-516 | computes `StatementGroup` |
| CParse.StatementLastLine | cstyle.py:497-516 | computes `StatementLast` |
| CParse.CaseLinesRun | cstyle.py:458-479 | the lines a case takes in are consecutive and within the text |
| CParse.CaseRun | cstyle.py:456-481 | a case group is a run from its label line |
| CParse.ParseGroupShape | cstyle.py:374-516 | every group starts at `n` and stays in the text; unless the block comment is unclosed, it is the run from `n` to its last line |
| CParse.BlankRunAbsorbs | cstyle.py:379-388 | a later line is in a blank group if and only if it and every line down to `n` are blank |
| CParse.LineCommentAlone | cstyle.py:390-392 | a `//` line is a group of its own |
| CParse.BlockCommentGroup | cstyle.py:394-405 | a closed block comment ends on the first line holding a `*/` past the opening |
| CParse.DirectiveEndMeaning | cstyle.py:486-492 | every directive line before the last ends in a backslash, and the last does not unless it ends the text |
| CParse.CodeIsDispatch | cstyle.py:409 | a line that is neither blank nor a comment is dispatched on its keyword |
| CParse.DirectiveDispatch | cstyle.py:483-494 | a directive without a control keyword takes in exactly its backslash-continued lines |
| CParse.BlockLastMeaning | cstyle.py:420-422 | a `{` block ends on the line of the `}` that balances it; there is no end only when no `}` balances it |
| CParse.TermLastMeaning | cstyle.py:418-427 | a construct ends on the line of the `}` that balances its `{` terminator, or on the line of its `;` |
| CParse.DoLastMeaning | cstyle.py:434-438 | a `do` construct ends on the first `;` or `{` after the `}` that balances its `{`; without an end, the `{`, the balancing `}` or the terminator after it is missing |
| CParse.ConditionalMeaning | cstyle.py:411-428 | a conditional runs from its keyword line through the first `;` or `{` after the condition, and for a `{` through the `}` that balances it; it has no group only when the condition, the terminator or that `}` is missing |
| CParse.ElseMeaning | cstyle.py:441-452 | `else` runs from its line through the first `;` or `{` from the line's start, and for a `{` through the `}` that balances it |
| CParse.DoMeaning | cstyle.py:431-440 | `do` runs from its line through the `}` that balances its first terminator, a `{`, and on through the first `;` or `{` after that `}` |
| CParse.FuncLastMeaning | cstyle.py:504-506 | a function body ends at the `}` that balances the first `{` from the header's terminator |
| CParse.StatementLastMeaning | cstyle.py:497-516 | a function definition ends at its body's balancing `}`, a structure at the `}` that balances its `{`, a statement on the line of its `;` |
| CParse.StatementMeaning | cstyle.py:496-516 | any other line runs from `n` through the first `;` or `{` and on to the end, and has the kind, that `StatementEndsOn` gives; without a group, a terminator or a balancing `}` is missing |
| CParse.ScanBracesIsCloseFrom | cstyle.py:465-470 | the brace count the case loop keeps over one line agrees with the balanced scan of the text |
| CParse.CloseFromInText | cstyle.py:465-470 | the `}` the balanced scan finds is a position of the text, at or after the line it starts on |
| CParse.CaseLinesEnd | cstyle.py:458-481 | the lines taken in after a label hold no case label, and stop at the next label, at the end of the text, or at the `}` that closes the switch, whose line is taken in unless one or more spaces or tabs, and nothing else, precede the brace; a `}` in column 0 is taken in |
| CParse.ColumnZeroCloseTakenIn | cstyle.py:471-477 | a `}` in column 0 that closes the switch is taken into the case group, because the white-space pattern (cstyle.py:38) needs at least one space or tab |
| CParse.CaseMeaning | cstyle.py:453-481 | a case group is its label line and the run after it that `CaseEndsAt` describes |
| CParse.SwitchCloseIsFirstZero | cstyle.py:456-470 | the `}` that closes the switch is the first `}` that brings the brace count, one at the start, to zero |
| CRules.InconsistentAtMostOnce | cstyle.py:555-561 | one `check_indentation` reports "Inconsistent Indentation" at most once, and exactly once when a line breaks the rule |
| CRules.EmptyLineDiagsKind | cstyle.py:533-535 | whitespace-only lines are reported only as whitespace |
| CRules.ModesOrdered | cstyle.py:539-553 | `relax` accepts all the default mode accepts, which accepts all `all_exact` accepts |
| CRules.ExactIndentPasses | cstyle.py:539-553 | a group exactly at the amount passes in every mode |
| CRules.DefaultFirstLineExact | cstyle.py:546-553 | in the default mode only the first line must be exact |
| CRules.BlockContinuationOneIn | cstyle.py:664-688 | block-comment continuation lines must sit one column in, where the default mode would accept them |
| CRules.TrailMeaning | cstyle.py:596-608 | after a terminator nothing, one space or a `//` comment passes; other non-blank text gets one diagnostic |
| CRules.LineLimitExact | cstyle.py:939-943 | the diagnostics name exactly the lines over 80 characters, once each, in order |
| CRules.MagicDiagsExact | cstyle.py:563-568 | the diagnostics name exactly the given lines that are magic |
| CRules.StripSlashes | cstyle.py:714 | the result does not start with `/` |
| CRules.StripSlashesSuffix | cstyle.py:714 | only a run of leading slashes is removed |
| CRules.GroupAdvances | cstyle.py:154 | the line after a group is past its first line and at most the line count |
| CRules.IndentAmtWitness | cstyle.py:139-154 | the detected amount is the default or the indentation of a non-blank line |
| CRules.NoFunctionKeepsDefault | cstyle.py:121 | without a function definition the amount stays `TAB_LENGTH` |
| CRules.CaseScan | cstyle.py:164-174 | the value is unchanged, 0 or the indentation amount |
| CRules.CaseIndentFrom | cstyle.py:158-174 | the same over all `switch` lines |
| CRules.LastCaseWins | cstyle.py:164-174 | the last `case`/`default` line scanned decides the value |
| CRules.NoCaseKeeps | cstyle.py:165-174 | without a case line the value is unchanged |
| CRules.NoSwitchUnset | cstyle.py:158-160 | without a `switch`, `case_indent` stays unset |
| CChecker.ParsedHandleable | cstyle.py:409-428 | every group `parse_line` yields starts at its line, and a conditional starts with an accepted keyword |
| CChecker.ConditionalHasKeyword | cstyle.py:410-411 | a conditional group's first line has an accepted keyword |
| CChecker.DispatchConditional | cstyle.py:411 | the conditional branch is taken only on a keyword |
| CChecker.CStyleChecker.constructor | cstyle.py:117-121 | the checker holds the given lines and configuration and no diagnostics |
| CChecker.CStyleChecker.OverrideIndentAmt | cstyle.py:176-179 | the amount changes; `case_indent` follows unless it is 0; the source raises when it is unset |
| CChecker.CStyleChecker.HandleWhitespace | cstyle.py:905-936 | appends `WhitespaceDiags` and returns the line after the group |
| CChecker.CStyleChecker.CheckIndentation | cstyle.py:527-561 | appends `IndentDiags` |
| CChecker.CStyleChecker.LineMisindented | cstyle.py:537-553 | the per-line test of the mode |
| CChecker.CStyleChecker.HandleTrailingString | cstyle.py:596-608 | appends `TrailDiags` |
| CChecker.CStyleChecker.HandleLeadingString | cstyle.py:610-616 | appends `LeadingDiags` |
| CChecker.CStyleChecker.CheckMagic | cstyle.py:563-568 | appends `MagicDiags` |
| CChecker.CStyleChecker.CheckLineLimit | cstyle.py:939-943 | appends `LineLimitDiags` |
| CChecker.CStyleChecker.HandleBlockComment | cstyle.py:664-703 | appends `BlockCommentDiags`; the line after the group, or `None` without `*/` |
| CChecker.CStyleChecker.BlockIndentBad | cstyle.py:666-696 | the loop computes `BlockIndentError` |
| CChecker.CStyleChecker.HandleComment | cstyle.py:705-723 | relaxed and moved by `case_indent` in a switch (raising when it is unset), the default mode otherwise, then the comment text checks; the line after the first |
| CChecker.CStyleChecker.CheckCommentIndent | cstyle.py:706-712 | the indentation part of `handle_comment` |
| CChecker.CStyleChecker.CheckCommentText | cstyle.py:713-721 | appends `CommentDiags` |
| CChecker.CStyleChecker.HandleDirective | cstyle.py:725-727 | the default indentation check; the line after the group |
| CChecker.CStyleChecker.HandleStatement | cstyle.py:871-877 | indentation and optionally magic checks; the line after the group |
| CChecker.CStyleChecker.CondTail | cstyle.py:789-808 | a keyword after the closing brace hands back the last line, otherwise the line after; every diagnostic added names a line of the text |
| CChecker.CStyleChecker.UncondTail | cstyle.py:822-846 | the same for `else`; after a `do` block always the line after; every diagnostic added names a line of the text |
| CChecker.CStyleChecker.CheckHeaderIndent | cstyle.py:849-867 | appends `HeaderIndentDiags` |
| CChecker.CStyleChecker.ConditionTerminator | cstyle.py:758-768 | the terminator is the one after the condition's closing parenthesis (`CondTerminator`); the switch flag is the keyword test |
| CChecker.CStyleChecker.HandleGroup | cstyle.py:572-594 | the outcome each group kind allows |
| CChecker.CStyleChecker.Walk | cstyle.py:776-787 | the shared inner loop stops at or past its stop line |
| CChecker.CStyleChecker.HandleTerminator | cstyle.py:622-662 | `{` gives `None` after the header checks; a terminator on the first line gives the next line |
| CChecker.CStyleChecker.HandleCond | cstyle.py:757-808 | never `None`; a result comes from the terminator after the condition: a `;` on the first line gives the next line, a `{` gives the `CondTail` rule at the end of its balanced block; every diagnostic added names a line of the text |
| CChecker.CStyleChecker.HandleUncond | cstyle.py:810-846 | never `None`; the same terminator rule as `HandleCond`, with a `do` block always ending at the line after the group |
| CChecker.CStyleChecker.HandleFunc | cstyle.py:848-869 | the line after the group |
| CChecker.CStyleChecker.HandleStructure | cstyle.py:879-902 | the line after the group; a one-line structure gets only the statement checks |
| CChecker.CStyleChecker.HandleSwitchCase | cstyle.py:729-754 | the line after the group; raises when `case_indent` is unset |
| CChecker.CStyleChecker.Run | cstyle.py:945-951 | the line-limit diagnostics come first; every diagnostic names a line of the text; a completed run ends past the last line |
| CChecker.CondTerminator | cstyle.py:758-768 | the terminator after a condition, when there is one, is a position of the text |
| CRules.WhitespaceDiagsInText | cstyle.py:905-936 | every whitespace diagnostic names a line of the text |
| CRules.EmptyLineDiagsInText | cstyle.py:533-535 | every whitespace-only-line diagnostic names a line of the text |
| CRules.IndentDiagsInText | cstyle.py:527-561 | every indentation diagnostic names a line of the text |
| CRules.TrailDiagsInText | cstyle.py:596-608 | a trailing-text diagnostic names the terminator's line |
| CRules.LeadingDiagsInText | cstyle.py:610-616 | a leading-text diagnostic names the terminator's line |
| CRules.HeaderIndentDiagsInText | cstyle.py:849-867 | the header's indentation diagnostics name lines of the text |
| CRules.BlockCommentDiagsInText | cstyle.py:664-703 | block-comment diagnostics name lines of the text |
| CRules.MagicDiagsInText | cstyle.py:563-568 | magic-number diagnostics name lines of the text |
| CRules.LineLimitDiagsInText | cstyle.py:939-943 | line-limit diagnostics name lines of the text |
| CRules.CommentDiagsInText | cstyle.py:713-721 | comment-text diagnostics name the comment's line |
| CChecker.Open | cstyle.py:117-174 | the lines read, then the detected indentation amount and case convention; `None` where the source raises |
| CChecker.DetectIndentAmt | cstyle.py:139-154 | computes `IndentAmtFrom` |
| CChecker.FindBodyIndent | cstyle.py:144-151 | computes `BodyIndent` |
| CChecker.DetectCaseIndent | cstyle.py:156-174 | computes `CaseIndentFrom` |
| CChecker.ScanCases | cstyle.py:164-174 | computes `CaseScan` |
| AsmComments.SpanScanMeaning | sstyle.py:183-197 | the table answers `false` exactly when every entry has a start and none covers the column; `true` exactly when a covering entry precedes any start-less one |
| AsmComments.SpanScanTotal | sstyle.py:183-197 | with every entry started, the table loop always answers |
| AsmComments.MarkerWins | sstyle.py:169-174 | an unquoted marker left of the column comments it, whatever the table |
| AsmComments.CoversMeaning | sstyle.py:187-195 | the lines between an entry's lines are covered; on its start line from the start column; on its end line up to the end column |
| AsmComments.SpansFromGrows | sstyle.py:210-220 | the scan only appends to the table |
| AsmComments.SpansFromShape | sstyle.py:210-220 | every entry added ends past a `*/` and pairs with a `/*` before it that is outside quotes and not after a comment marker, or with none, in text order |
| AsmComments.ClosesRecorded | sstyle.py:217-220 | every `*/` after the scan point gets an entry |
| AsmComments.BlockTableShape | sstyle.py:206-220 | the table's entries are exactly the file's `*/`, once each, in order, each paired with a `/*` before it that is outside quotes and not after a comment marker, or with none |
| AsmComments.WithinComment | sstyle.py:166-197 | the loops compute `InCommentSpec` |
| AsmComments.ScanSpans | sstyle.py:183-197 | the table loop computes `SpanScan` |
| AsmParse.LabelRunEnd | sstyle.py:24 | the end of a run of label characters |
| AsmParse.ParseLine | sstyle.py:222-265 | the loops compute `ParseSpec` |
| AsmParse.ParseShape | sstyle.py:222-265 | every group is a run from `n`; only blank runs and block comments span lines; blank groups are all blank and stop before a non-blank line; block comments end on a `*/` line |
| AsmParse.LocalLabelIsLabel | sstyle.py:257-262 | `.L1:` also matches the directive pattern but is a label |
| AsmParse.UnclosedCommentIsInstruction | sstyle.py:242-265 | an unclosed block comment line is an instruction |
| AsmMagic.ContainsMagic | sstyle.py:90-141 | the method computes `AsmMagicSpec` |
| AsmMagic.ScanLiteralLoop | sstyle.py:102-139 | the quote loop computes `LiteralScan` |
| AsmMagic.NumbersFromMeaning | sstyle.py:93-100 | the number loop answers `false` exactly when every number is allowed or commented, and `true` only for a magic number |
| AsmMagic.LiteralsFromWitness | sstyle.py:107-120 | a literal is reported only with a witness |
| AsmMagic.LiteralScanWitness | sstyle.py:122-139 | whatever the quote state it starts in, a scan reports only a witnessed literal |
| AsmMagic.AsmMagicWitness | sstyle.py:90-141 | a magic line has an allow-list-free number at an uncommented column, or such a literal |
| AsmMagic.AsmMagicFailure | sstyle.py:183-185 | the check fails only on a table entry without a start |
| AsmMagic.AllSome | sstyle.py:90-141 | with every entry started, the check answers |
| AsmMagic.ImmediateIsCommented | sstyle.py:173-174 | a number right after `#` outside quotes counts as commented |
| AsmMagic.ImmediatesPass | sstyle.py:94-100 | a quote-free line whose numbers are allowed or immediates is not magic |
| AsmRules.NextLine | sstyle.py:395 | the line after a group is past its start and at most the line count |
| AsmRules.IndentRules | sstyle.py:267-285 | labels in column 0; instructions and directives at exactly `TAB_LENGTH`, one diagnostic otherwise; others unchecked |
| AsmRules.OneTabIndented | sstyle.py:83 | one leading tab gives indentation `TAB_LENGTH` |
| AsmRules.OneTabClean | sstyle.py:275-292 | a tab-indented instruction passes and is not a space line |
| AsmRules.FourSpacesCounted | sstyle.py:286-292 | four spaces pass the indentation test but are counted as space indentation |
| AsmRules.LabelColon | sstyle.py:352 | the first colon of a label line ends the label |
| AsmRules.LabelTrail | sstyle.py:352-359 | after a label only blanks or comments pass; otherwise one diagnostic |
| AsmRules.ExcessNewlinesRule | sstyle.py:363-368 | a blank group over the limit gets one diagnostic naming its lines |
| AsmRules.GroupFailure | sstyle.py:302-316 | a group fails only when an instruction's magic test fails |
| AsmRules.RunFailure | sstyle.py:383-408 | with every table entry started, the run completes |
| AsmRules.GroupSpaceLines | sstyle.py:286-292 | a group adds at most its own first line |
| AsmRules.SpaceLinesShape | sstyle.py:377-381 | the space lines are instruction and directive lines indented with a space, once each, increasing |
| AsmRules.PendingStarts | sstyle.py:398-400 | a block comment starts a pending header |
| AsmRules.PendingKept | sstyle.py:405-408 | blank lines and labels keep it pending |
| AsmRules.HeaderCompleted | sstyle.py:401-404 | a label completes it |
| AsmRules.HeadersFromShape | sstyle.py:396-408 | every header from a point on has the header shape |
| AsmRules.HeadersShape | sstyle.py:387-408 | every header is a block comment, then blanks and labels, ending with a label |
| AsmRules.LabelsShareHeader | sstyle.py:401-408 | two labels after one block comment both get it |
| AsmChecker.ReadLines | sstyle.py:77-84 | one line kept per line read |
| AsmChecker.AsmStyleChecker.constructor | sstyle.py:63-84 | the lines as stored and as read, no diagnostics, an empty table |
| AsmChecker.AsmStyleChecker.GetBlockComments | sstyle.py:206-220 | computes the table `SpansFrom` |
| AsmChecker.AsmStyleChecker.ScanLine | sstyle.py:211-220 | one line of the table scan |
| AsmChecker.AsmStyleChecker.CheckIndentation | sstyle.py:267-292 | appends `IndentReports` and `SpaceLines` |
| AsmChecker.AsmStyleChecker.HandleTrailingString | sstyle.py:294-300 | appends `TrailReports` |
| AsmChecker.AsmStyleChecker.CheckLineLimit | sstyle.py:371-375 | appends `LineLimitReports` |
| AsmChecker.AsmStyleChecker.CheckSpaceIndentation | sstyle.py:377-381 | appends `SpaceReport` |
| AsmChecker.AsmStyleChecker.HandleBlockComment | sstyle.py:318-329 | appends `BlockReports`; `None` without `*/`, adding nothing |
| AsmChecker.AsmStyleChecker.HandleComment | sstyle.py:331-336 | appends `TodoReports` |
| AsmChecker.AsmStyleChecker.HandleInstruction | sstyle.py:338-344 | indentation and magic checks; `None` when the magic test fails, after the indentation report is added |
| AsmChecker.AsmStyleChecker.HandleDirective | sstyle.py:346-348 | the indentation check |
| AsmChecker.AsmStyleChecker.HandleLabel | sstyle.py:350-361 | the indentation check and `LabelReports` |
| AsmChecker.AsmStyleChecker.CheckLabelTrail | sstyle.py:352-359 | appends `LabelReports` |
| AsmChecker.AsmStyleChecker.HandleWhitespace | sstyle.py:363-369 | appends `WhitespaceReports` |
| AsmChecker.AsmStyleChecker.HandleGroup | sstyle.py:302-316 | applies `GroupEffect`; on failure too, the diagnostics and space lines only grow |
| AsmChecker.AsmStyleChecker.HandleStep | sstyle.py:394-395 | one parse and handle step of `RunFrom`; the diagnostics only grow |
| AsmChecker.AsmStyleChecker.RunStep | sstyle.py:393-408 | one loop turn keeps the run and header invariants; a failing turn keeps the reports of the groups before it |
| AsmChecker.AsmStyleChecker.Run | sstyle.py:383-410 | the diagnostics, space lines and headers of `RunFrom` and `HeadersFrom`; `false` exactly when `RunFrom` fails; on every outcome the line-limit reports follow the earlier diagnostics |
| AsmChecker.CollectHeader | sstyle.py:397-408 | the header bookkeeping of one turn |
| AsmChecker.RunFromStep | sstyle.py:393-395 | one step of the run function |
| AsmChecker.HeadersFromStep | sstyle.py:396-408 | one step of the header function |
| AsmChecker.Open | sstyle.py:63-88 | a checker exactly when the table can be built |

## Left out

- The command line (`usage`, option parsing, `main`), opening the file and
  `sys.exit` on failure. The model starts from the lines read.
- The text of the printed messages and the echoed source lines (`print_lines`).
  A diagnostic is a record of its kind and the lines it names.
- `test_parse` and `test_magic` of the C checker. They are debugging aids that
  only print.
- The `print('')` lines of the assembly `run`, and the printing of the file
  header and function headers. `Run` returns the collected headers instead.
- The assembly checker's `indent_amt` field. It is never changed, so the model
  uses the constant `TAB_LENGTH`.
- `FUNC_REGEXP`, `FUNC_HDR_REGEXP` and the `code_regexp` list of the C checker
  are uninterpreted parameters. They decide which statements are function
  definitions and which comments are commented-out code. No property that
  depends on their meaning is stated.
- The C handlers take a `fuel` bound. The source can revisit a line forever:
  on `if (x) {} else {}` the conditional hands back its own line and is parsed
  again as the same conditional. The model reports such a run as `OutOfFuel`.
- CChecker.CStyleChecker.HandleCond: states the returned line and that every
  diagnostic added names a line of the text, not which diagnostics are added.
  The block's diagnostics are the recursive walk of its groups, which has no
  closed form.
- CChecker.CStyleChecker.HandleUncond: weaker for the same reason as `HandleCond`.
- CChecker.CStyleChecker.HandleFunc: states the returned line. It does not state
  the diagnostics of the body walk.
- CChecker.CStyleChecker.HandleStructure: states the returned line and the
  one-line case. It does not state the diagnostics of a multi-line body.
- CChecker.CStyleChecker.HandleSwitchCase: states the returned line and the
  crash when `case_indent` is unset. It does not state the diagnostics of the
  body walk.
- CChecker.CStyleChecker.Walk: states where the loop stops. It does not state
  the diagnostics of the groups it hands on.
- CChecker.CStyleChecker.CondTail: states the returned line. It does not state
  the leading-string and trailing-string diagnostics.
- CChecker.CStyleChecker.UncondTail: weaker for the same reason as `CondTail`.
- CChecker.CStyleChecker.ConditionTerminator: states the terminator found. It
  does not state the magic diagnostics of the condition lines, only that they
  name lines of the text.
- CChecker.CStyleChecker.HandleTerminator: states the result for a `{` and for a
  terminator on the first line. It does not state the diagnostics of the nested
  group.
- CChecker.CStyleChecker.HandleGroup: states the outcome each kind allows, not
  the diagnostics of each handler.
- CChecker.CStyleChecker.Run: states that the line-limit diagnostics come first,
  that every diagnostic names a line of the text and that a completed run ends
  past the last line. It does not state which diagnostics the groups add.
- AsmComments.BlockTableShape: states that the `/*` paired with each `*/` comes
  before it, is outside quotes and is not after a comment marker. It does not
  state that this `/*` passed the table part of `within_comment`, nor that it is
  the last `/*` the scan accepted; the scan's own definition (`SpansFrom`) does
  both. `AsmComments.SpansFromShape` is weaker in the same way.
- AsmMagic.AsmMagicWitness: states only that a magic line has a witness (a
  number or a literal outside the allow-list, outside a comment). It does not
  state the converse, which does not hold for the literal witness: its two
  quotes need not be a pair the scan matches. In `"a" "b"`, the closing quote
  of the first string and the opening quote of the second form one. Also, the
  single-quote scan starts in the quote state the double-quote scan ends in.
  `AsmMagic.LiteralsFromWitness` is weaker in the same way.
- AsmChecker.AsmStyleChecker.Run: when a handler fails, states only that the
  earlier diagnostics and the line-limit reports stay at the front of `diags`.
  It does not name the reports of the groups handled before the failing one;
  `AsmChecker.AsmStyleChecker.RunStep` keeps them as a prefix, and
  `AsmChecker.AsmStyleChecker.HandleInstruction` states the failing group's
  indentation report exactly.
- Python 2 details of failure are not distinguished. The model has one `Crash`
  outcome (C) or one failure result (assembly) for:
  - a `TypeError` on a `None` start in the block table;
  - unpacking `None`;
  - comparing `None` with the line count.
