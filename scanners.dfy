// The three multi-line scanners of the C checker: the statement terminator
// (`find_statement_terminator`), the parenthesised condition
// (`find_condition`) and the brace-delimited code block (`find_code_block`).
// Each scans the text from a position onwards (see module Scan); each method
// runs the source's nested loops and is proved equal to a definition over
// the cell stream, whose meaning in terms of the text is proved alongside.
module Scanners {
  import opened Common
  import opened Keywords
  import opened Scan

  // ---------------------------------------------------------------- terminator

  // `;` or `{` by default, otherwise the requested character.
  predicate IsTerminator(c: char, term: Option<char>) {
    if term.None? then c == '{' || c == ';' else c == term.value
  }

  // The scan stops at a terminator character, or (when keywords are included) at the end of a line
  // after the first one that holds a keyword.
  predicate Stops(x: Cell, n: nat, term: Option<char>, withKeywords: bool) {
    match x
    case Ch(_, c) => IsTerminator(c, term)
    case Eol(m, text) => withKeywords && m != n && MatchSpec(text).Found?
  }

  function StopAt(x: Cell): Loc {
    match x
    case Ch(at, _) => at
    case Eol(m, text) => Loc(m, if MatchSpec(text).Found? then MatchSpec(text).index else 0)
  }

  function TermScan(cells: seq<Cell>, n: nat, term: Option<char>, withKeywords: bool): Option<Loc> {
    if cells == [] then None
    else if Stops(cells[0], n, term, withKeywords) then Some(StopAt(cells[0]))
    else TermScan(cells[1..], n, term, withKeywords)
  }

  // `find_statement_terminator(n, start, term, include_keywords)`: the answer is a character position
  // of the text, holding a terminator when keywords are not included, and never before the start.
  function TerminatorSpec(lines: seq<string>, n: nat, start: nat, term: Option<char>, withKeywords: bool): (r: Option<Loc>)
    ensures r.Some? ==> IsPos(lines, r.value)
    ensures r.Some? && !withKeywords ==> IsTerminator(lines[r.value.line][r.value.col], term)
    ensures r.Some? && StartOk(lines, n, start) ==> AtOrBefore(Loc(n, start), r.value)
  {
    TermScanInText(lines, n, start, term, withKeywords);
    TermFromIsScan(lines, n, start, n, term, withKeywords);
    TermFrom(lines, n, start, n, term, withKeywords)
  }

  // The scan answers with the first cell where it stops.
  lemma {:induction false} TermScanFirst(cells: seq<Cell>, n: nat, term: Option<char>, withKeywords: bool)
    ensures var r := TermScan(cells, n, term, withKeywords);
            r.Some? ==> exists k :: 0 <= k < |cells| && Stops(cells[k], n, term, withKeywords)
                          && r.value == StopAt(cells[k])
                          && forall i :: 0 <= i < k ==> !Stops(cells[i], n, term, withKeywords)
    ensures TermScan(cells, n, term, withKeywords).None? ==>
              forall i :: 0 <= i < |cells| ==> !Stops(cells[i], n, term, withKeywords)
  {
    if cells != [] && !Stops(cells[0], n, term, withKeywords) {
      var t := cells[1..];
      TermScanFirst(t, n, term, withKeywords);
      if TermScan(t, n, term, withKeywords).Some? {
        var k :| 0 <= k < |t| && Stops(t[k], n, term, withKeywords)
                 && TermScan(t, n, term, withKeywords).value == StopAt(t[k])
                 && forall i :: 0 <= i < k ==> !Stops(t[i], n, term, withKeywords);
        assert cells[k + 1] == t[k];
        forall i | 0 <= i < k + 1 ensures !Stops(cells[i], n, term, withKeywords) {
          if i > 0 {
            assert cells[i] == t[i - 1];
          }
        }
      } else {
        forall i | 0 <= i < |cells| ensures !Stops(cells[i], n, term, withKeywords) {
          if i > 0 {
            assert cells[i] == t[i - 1];
          }
        }
      }
    }
  }

  lemma TermScanInText(lines: seq<string>, n: nat, start: nat, term: Option<char>, withKeywords: bool)
    ensures var r := TermScan(Stream(lines, n, start), n, term, withKeywords);
            r.Some? ==> (IsPos(lines, r.value)
                         && (!withKeywords ==> IsTerminator(lines[r.value.line][r.value.col], term))
                         && (StartOk(lines, n, start) ==> AtOrBefore(Loc(n, start), r.value)))
  {
    var s := Stream(lines, n, start);
    TermScanFirst(s, n, term, withKeywords);
    StreamCellsOk(lines, n, start);
    if TermScan(s, n, term, withKeywords).Some? {
      var k :| 0 <= k < |s| && Stops(s[k], n, term, withKeywords)
               && TermScan(s, n, term, withKeywords).value == StopAt(s[k]);
      assert CellOk(lines, s[k]);
      if StartOk(lines, n, start) {
        StreamOrdered(lines, n, start);
        assert AtOrBefore(Loc(n, start), Key(s[k]));
      }
    }
  }

  // No terminator character at any position from `a` up to (not including) `b`.
  ghost predicate NoTerminatorBetween(lines: seq<string>, a: Loc, b: Loc, term: Option<char>) {
    forall p :: IsPos(lines, p) && AtOrBefore(a, p) && Before(p, b) ==> !IsTerminator(lines[p.line][p.col], term)
  }

  // When keywords are included, no line strictly after line `n` and before line `m` holds a keyword.
  predicate NoKeywordLineBetween(lines: seq<string>, n: nat, m: nat, withKeywords: bool) {
    withKeywords ==> forall i :: n < i < m && i < |lines| ==> MatchSpec(lines[i]).NoKeyword?
  }

  // `at` is the first terminator character at or after the start, unless a keyword line after the
  // start line comes first, in which case `at` is that keyword's position.
  ghost predicate FirstStop(lines: seq<string>, n: nat, start: nat, term: Option<char>, withKeywords: bool, at: Loc) {
    (IsPos(lines, at) && IsTerminator(lines[at.line][at.col], term)
     && NoTerminatorBetween(lines, Loc(n, start), at, term)
     && NoKeywordLineBetween(lines, n, at.line, withKeywords))
    || (withKeywords && n < at.line < |lines|
        && MatchSpec(lines[at.line]).Found? && MatchSpec(lines[at.line]).index == at.col
        && NoTerminatorBetween(lines, Loc(n, start), Loc(at.line + 1, 0), term)
        && NoKeywordLineBetween(lines, n, at.line, withKeywords))
  }

  // The terminator found is the first stop; when none is found there is no terminator character and
  // no keyword line from the start to the end of the text.
  lemma TerminatorIsFirst(lines: seq<string>, n: nat, start: nat, term: Option<char>, withKeywords: bool)
    requires StartOk(lines, n, start)
    ensures TerminatorSpec(lines, n, start, term, withKeywords).Some? ==>
              FirstStop(lines, n, start, term, withKeywords, TerminatorSpec(lines, n, start, term, withKeywords).value)
    ensures TerminatorSpec(lines, n, start, term, withKeywords).None? ==>
              NoTerminatorBetween(lines, Loc(n, start), Loc(|lines|, 0), term)
              && NoKeywordLineBetween(lines, n, |lines|, withKeywords)
  {
    if TerminatorSpec(lines, n, start, term, withKeywords).Some? {
      TerminatorFound(lines, n, start, term, withKeywords);
    } else {
      TerminatorMissing(lines, n, start, term, withKeywords);
    }
  }

  lemma TerminatorFound(lines: seq<string>, n: nat, start: nat, term: Option<char>, withKeywords: bool)
    requires StartOk(lines, n, start) && TerminatorSpec(lines, n, start, term, withKeywords).Some?
    ensures FirstStop(lines, n, start, term, withKeywords, TerminatorSpec(lines, n, start, term, withKeywords).value)
  {
    var s := Stream(lines, n, start);
    StreamOrdered(lines, n, start);
    TermScanFirst(s, n, term, withKeywords);
    TermFromIsScan(lines, n, start, n, term, withKeywords);
    var r := TerminatorSpec(lines, n, start, term, withKeywords);
    var k :| 0 <= k < |s| && Stops(s[k], n, term, withKeywords) && r.value == StopAt(s[k])
             && forall i :: 0 <= i < k ==> !Stops(s[i], n, term, withKeywords);
    var stop := Key(s[k]);
    NothingBeforeStop(lines, n, start, term, withKeywords, k);
    if s[k].Eol? {
      forall p | IsPos(lines, p) && AtOrBefore(Loc(n, start), p) && Before(p, Loc(stop.line + 1, 0))
        ensures !IsTerminator(lines[p.line][p.col], term)
      {
        assert Before(p, stop);
      }
    }
  }

  // Neither a terminator character nor a keyword line is read before the k-th cell when no cell
  // before it stops the scan.
  lemma NothingBeforeStop(lines: seq<string>, n: nat, start: nat, term: Option<char>, withKeywords: bool, k: nat)
    requires StartOk(lines, n, start) && k < |Stream(lines, n, start)|
    requires forall i :: 0 <= i < k ==> !Stops(Stream(lines, n, start)[i], n, term, withKeywords)
    ensures NoTerminatorBetween(lines, Loc(n, start), Key(Stream(lines, n, start)[k]), term)
    ensures NoKeywordLineBetween(lines, n, Key(Stream(lines, n, start)[k]).line, withKeywords)
  {
    var stop := Key(Stream(lines, n, start)[k]);
    forall p | IsPos(lines, p) && AtOrBefore(Loc(n, start), p) && Before(p, stop)
      ensures !IsTerminator(lines[p.line][p.col], term)
    {
      CharReadBefore(lines, n, start, k, p);
    }
    forall i | n < i < stop.line && i < |lines| && withKeywords
      ensures MatchSpec(lines[i]).NoKeyword?
    {
      EolReadBefore(lines, n, start, k, i);
    }
  }

  lemma TerminatorMissing(lines: seq<string>, n: nat, start: nat, term: Option<char>, withKeywords: bool)
    requires StartOk(lines, n, start) && TerminatorSpec(lines, n, start, term, withKeywords).None?
    ensures NoTerminatorBetween(lines, Loc(n, start), Loc(|lines|, 0), term)
    ensures NoKeywordLineBetween(lines, n, |lines|, withKeywords)
  {
    var s := Stream(lines, n, start);
    TermScanFirst(s, n, term, withKeywords);
    TermFromIsScan(lines, n, start, n, term, withKeywords);
    forall p | IsPos(lines, p) && AtOrBefore(Loc(n, start), p)
      ensures !IsTerminator(lines[p.line][p.col], term)
    {
      StreamCoversChar(lines, n, start, p);
    }
    forall i | n < i < |lines| && withKeywords
      ensures MatchSpec(lines[i]).NoKeyword?
    {
      StreamCoversEol(lines, n, start, i);
    }
  }

  // The terminator scan stated position by position, the way the loops of the source walk the text.
  function TermFrom(lines: seq<string>, l: nat, j: nat, n: nat, term: Option<char>, withKeywords: bool): Option<Loc>
    decreases |lines| - l, (if l < |lines| then |lines[l]| - j else 0)
  {
    if l >= |lines| then None
    else if j < |lines[l]| then
      (if IsTerminator(lines[l][j], term) then Some(Loc(l, j)) else TermFrom(lines, l, j + 1, n, term, withKeywords))
    else if withKeywords && l != n && MatchSpec(lines[l]).Found? then Some(Loc(l, MatchSpec(lines[l]).index))
    else TermFrom(lines, l + 1, 0, n, term, withKeywords)
  }

  // The position-by-position scan and the scan over the cell stream agree.
  lemma {:induction false} TermFromIsScan(lines: seq<string>, l: nat, j: nat, n: nat, term: Option<char>, withKeywords: bool)
    ensures TermFrom(lines, l, j, n, term, withKeywords) == TermScan(Stream(lines, l, j), n, term, withKeywords)
    decreases |lines| - l, (if l < |lines| then |lines[l]| - j else 0)
  {
    if l < |lines| {
      StreamUnfold(lines, l, j);
      if j < |lines[l]| {
        TermFromIsScan(lines, l, j + 1, n, term, withKeywords);
        TermScanCons(Ch(Loc(l, j), lines[l][j]), Stream(lines, l, j + 1), n, term, withKeywords);
      } else {
        TermFromIsScan(lines, l + 1, 0, n, term, withKeywords);
        TermScanCons(Eol(l, lines[l]), Stream(lines, l + 1, 0), n, term, withKeywords);
      }
    }
  }

  lemma TermScanCons(x: Cell, t: seq<Cell>, n: nat, term: Option<char>, withKeywords: bool)
    ensures TermScan([x] + t, n, term, withKeywords)
            == if Stops(x, n, term, withKeywords) then Some(StopAt(x)) else TermScan(t, n, term, withKeywords)
  {
    assert ([x] + t)[1..] == t;
  }

  // `find_statement_terminator(n, start, term, include_keywords)`.
  method FindStatementTerminator(lines: seq<string>, n: nat, start: nat, term: Option<char>, withKeywords: bool)
    returns (r: Option<Loc>)
    ensures r == TerminatorSpec(lines, n, start, term, withKeywords)
  {
    ghost var goal := TermFrom(lines, n, start, n, term, withKeywords);
    var lineN := n;
    while lineN < |lines|
      invariant lineN == n || n < lineN <= |lines|
      invariant TermFrom(lines, lineN, if lineN == n then start else 0, n, term, withKeywords) == goal
      decreases |lines| - lineN
    {
      var lo := if lineN == n then start else 0;
      var j := lo;
      while j < |lines[lineN]|
        invariant lo <= j
        invariant TermFrom(lines, lineN, j, n, term, withKeywords) == goal
        decreases |lines[lineN]| - j
      {
        if term.None? {
          if lines[lineN][j] == '{' || lines[lineN][j] == ';' {
            return Some(Loc(lineN, j));
          }
        } else if lines[lineN][j] == term.value {
          return Some(Loc(lineN, j));
        }
        j := j + 1;
      }
      if lineN != n && withKeywords {
        var m := MatchKeywords(lines[lineN]);
        if m.Found? {
          return Some(Loc(lineN, m.index));
        }
      }
      lineN := lineN + 1;
    }
    r := None;
  }

  // ---------------------------------------------------------------- balanced scans

  predicate IsChar(x: Cell, c: char) {
    x.Ch? && x.c == c
  }

  // The first `close` character at which the count of `open` minus `close`, started at `depth`,
  // reaches zero.
  function CloseScan(cells: seq<Cell>, open: char, close: char, depth: int): Option<Loc> {
    if cells == [] then None
    else
      var d := depth + Delta(cells[0], open, close);
      if IsChar(cells[0], close) && d == 0 then Some(cells[0].at)
      else CloseScan(cells[1..], open, close, d)
  }

  // No closing character before the k-th cell brings the count, started at `depth`, to zero.
  predicate NoZeroBefore(cells: seq<Cell>, k: nat, open: char, close: char, depth: int)
    requires k <= |cells|
  {
    forall i :: 0 <= i < k && IsChar(cells[i], close) ==> depth + Balance(cells, i, open, close) != 0
  }

  // The k-th cell is the first closing character that brings the count to zero.
  predicate FirstZeroAt(cells: seq<Cell>, k: nat, open: char, close: char, depth: int) {
    k < |cells| && IsChar(cells[k], close) && depth + Balance(cells, k, open, close) == 0
    && NoZeroBefore(cells, k, open, close, depth)
  }

  lemma NoZeroShift(cells: seq<Cell>, k: nat, open: char, close: char, depth: int)
    requires 0 < k <= |cells|
    requires IsChar(cells[0], close) ==> depth + Delta(cells[0], open, close) != 0
    requires NoZeroBefore(cells[1..], k - 1, open, close, depth + Delta(cells[0], open, close))
    ensures NoZeroBefore(cells, k, open, close, depth)
  {
    forall i | 0 <= i < k && IsChar(cells[i], close)
      ensures depth + Balance(cells, i, open, close) != 0
    {
      BalanceShift(cells, i, open, close);
      if i > 0 {
        assert cells[i] == cells[1..][i - 1];
      }
    }
  }

  lemma FirstZeroShift(cells: seq<Cell>, k: nat, open: char, close: char, depth: int)
    requires cells != []
    requires IsChar(cells[0], close) ==> depth + Delta(cells[0], open, close) != 0
    requires FirstZeroAt(cells[1..], k, open, close, depth + Delta(cells[0], open, close))
    ensures FirstZeroAt(cells, k + 1, open, close, depth)
  {
    BalanceShift(cells, k + 1, open, close);
    NoZeroShift(cells, k + 1, open, close, depth);
    assert cells[k + 1] == cells[1..][k];
  }

  // The answer is the first closing character where the running count is zero; there is no answer
  // when no closing character brings the count to zero.
  ghost predicate AnswersFirstZero(cells: seq<Cell>, open: char, close: char, depth: int) {
    var r := CloseScan(cells, open, close, depth);
    (r.Some? ==> exists k: nat :: FirstZeroAt(cells, k, open, close, depth) && cells[k].at == r.value)
    && (r.None? ==> NoZeroBefore(cells, |cells|, open, close, depth))
  }

  lemma {:induction false} CloseScanFirst(cells: seq<Cell>, open: char, close: char, depth: int)
    ensures AnswersFirstZero(cells, open, close, depth)
  {
    if cells != [] {
      var d := depth + Delta(cells[0], open, close);
      if IsChar(cells[0], close) && d == 0 {
        BalanceShift(cells, 0, open, close);
        assert FirstZeroAt(cells, 0, open, close, depth);
      } else {
        CloseScanFirst(cells[1..], open, close, d);
        CloseScanPasses(cells, open, close, depth);
      }
    }
  }

  // The step of `CloseScanFirst` past a first cell that does not end the scan.
  lemma CloseScanPasses(cells: seq<Cell>, open: char, close: char, depth: int)
    requires cells != []
    requires !(IsChar(cells[0], close) && depth + Delta(cells[0], open, close) == 0)
    requires AnswersFirstZero(cells[1..], open, close, depth + Delta(cells[0], open, close))
    ensures AnswersFirstZero(cells, open, close, depth)
  {
    var t := cells[1..];
    var d := depth + Delta(cells[0], open, close);
    BalanceShift(cells, 0, open, close);
    assert CloseScan(cells, open, close, depth) == CloseScan(t, open, close, d);
    if CloseScan(t, open, close, d).Some? {
      var k: nat :| FirstZeroAt(t, k, open, close, d) && t[k].at == CloseScan(t, open, close, d).value;
      FirstZeroShift(cells, k, open, close, depth);
      assert cells[k + 1] == t[k];
    } else {
      NoZeroShift(cells, |cells|, open, close, depth);
    }
  }

  // ---------------------------------------------------------------- condition

  // The position of the first `(` among the cells.
  function FirstOpen(cells: seq<Cell>): Option<Loc> {
    if cells == [] then None
    else if IsChar(cells[0], '(') then Some(cells[0].at)
    else FirstOpen(cells[1..])
  }

  // `find_condition(n, start)`: the first `(` from the start and the `)` that brings the count of
  // parentheses back to zero.
  function ConditionSpec(lines: seq<string>, n: nat, start: nat): (r: Option<(Loc, Loc)>)
    ensures r.Some? ==> IsPos(lines, r.value.0) && lines[r.value.0.line][r.value.0.col] == '('
    ensures r.Some? ==> IsPos(lines, r.value.1) && lines[r.value.1.line][r.value.1.col] == ')'
    ensures r.Some? ==> Before(r.value.0, r.value.1)
    ensures r.Some? && StartOk(lines, n, start) ==> AtOrBefore(Loc(n, start), r.value.0)
  {
    ConditionInText(lines, n, start);
    CloseFromIsScan(lines, n, start, '(', ')', 0);
    OpenFromIsScan(lines, n, start);
    Pair(OpenFrom(lines, n, start), CloseFrom(lines, n, start, '(', ')', 0))
  }

  lemma {:induction false} FirstOpenIsFirst(cells: seq<Cell>)
    ensures FirstOpen(cells).Some? ==>
              exists k :: 0 <= k < |cells| && cells[k] == Ch(FirstOpen(cells).value, '(')
                && forall i :: 0 <= i < k ==> !IsChar(cells[i], '(')
    ensures FirstOpen(cells).None? ==> forall i :: 0 <= i < |cells| ==> !IsChar(cells[i], '(')
  {
    if cells != [] && !IsChar(cells[0], '(') {
      var t := cells[1..];
      FirstOpenIsFirst(t);
      if FirstOpen(t).Some? {
        var k :| 0 <= k < |t| && t[k] == Ch(FirstOpen(t).value, '(') && forall i :: 0 <= i < k ==> !IsChar(t[i], '(');
        assert cells[k + 1] == t[k];
        forall i | 0 <= i < k + 1 ensures !IsChar(cells[i], '(') {
          if i > 0 {
            assert cells[i] == t[i - 1];
          }
        }
      } else {
        forall i | 0 <= i < |cells| ensures !IsChar(cells[i], '(') {
          if i > 0 {
            assert cells[i] == t[i - 1];
          }
        }
      }
    }
  }

  // Without an opening character the count never rises above zero.
  lemma {:induction false} NoOpenNotPositive(cells: seq<Cell>, k: nat, open: char, close: char)
    requires k < |cells| && forall i :: 0 <= i <= k ==> !IsChar(cells[i], open)
    ensures Balance(cells, k, open, close) <= 0
  {
    BalanceStep(cells, k, open, close);
    if k > 0 {
      NoOpenNotPositive(cells, k - 1, open, close);
    }
  }

  // Whenever the closing `)` is found, an opening `(` was seen before it.
  lemma ConditionOpenExists(lines: seq<string>, n: nat, start: nat)
    ensures CloseScan(Stream(lines, n, start), '(', ')', 0).Some? ==> FirstOpen(Stream(lines, n, start)).Some?
  {
    var s := Stream(lines, n, start);
    CloseScanFirst(s, '(', ')', 0);
    FirstOpenIsFirst(s);
    if CloseScan(s, '(', ')', 0).Some? && FirstOpen(s).None? {
      var k: nat :| FirstZeroAt(s, k, '(', ')', 0) && s[k].at == CloseScan(s, '(', ')', 0).value;
      BalanceStep(s, k, '(', ')');
      if k > 0 {
        NoOpenNotPositive(s, k - 1, '(', ')');
      }
    }
  }

  // The parenthesis that brings the count from 0 back to 0 comes after the first `(`.
  lemma OpenBeforeClose(s: seq<Cell>, k1: nat, k2: nat)
    requires FirstZeroAt(s, k2, '(', ')', 0) && k1 < |s| && IsChar(s[k1], '(')
    requires forall i :: 0 <= i < k1 ==> !IsChar(s[i], '(')
    ensures k1 < k2
  {
    if k2 < k1 {
      NoOpenNotPositive(s, k2, '(', ')');
      BalanceStep(s, k2, '(', ')');
      if k2 > 0 {
        NoOpenNotPositive(s, k2 - 1, '(', ')');
      }
    }
  }

  lemma ConditionInText(lines: seq<string>, n: nat, start: nat)
    ensures var s := Stream(lines, n, start);
            CloseScan(s, '(', ')', 0).Some? && FirstOpen(s).Some? ==>
              var o := FirstOpen(s).value;
              var c := CloseScan(s, '(', ')', 0).value;
              IsPos(lines, o) && lines[o.line][o.col] == '(' && IsPos(lines, c) && lines[c.line][c.col] == ')'
              && Before(o, c) && (StartOk(lines, n, start) ==> AtOrBefore(Loc(n, start), o))
  {
    var s := Stream(lines, n, start);
    if CloseScan(s, '(', ')', 0).Some? && FirstOpen(s).Some? {
      CloseScanFirst(s, '(', ')', 0);
      FirstOpenIsFirst(s);
      StreamCellsOk(lines, n, start);
      var k2: nat :| FirstZeroAt(s, k2, '(', ')', 0) && s[k2].at == CloseScan(s, '(', ')', 0).value;
      var k1 :| 0 <= k1 < |s| && s[k1] == Ch(FirstOpen(s).value, '(') && forall i :: 0 <= i < k1 ==> !IsChar(s[i], '(');
      assert CellOk(lines, s[k1]) && CellOk(lines, s[k2]);
      OpenBeforeClose(s, k1, k2);
      StreamOrderedAnyStart(lines, n, start, k1, k2);
      if StartOk(lines, n, start) {
        StreamOrdered(lines, n, start);
      }
    }
  }

  // `find_condition` answers with the first `(` from the start and the first `)` through which the
  // count of parentheses is zero; it answers nothing when no `)` brings the count to zero.
  lemma ConditionIsBalanced(lines: seq<string>, n: nat, start: nat)
    ensures var s := Stream(lines, n, start);
            var r := ConditionSpec(lines, n, start);
            r.Some? ==>
              (exists k: nat :: FirstZeroAt(s, k, '(', ')', 0) && s[k].at == r.value.1)
              && (exists k :: 0 <= k < |s| && s[k] == Ch(r.value.0, '(') && forall i :: 0 <= i < k ==> !IsChar(s[i], '('))
    ensures var s := Stream(lines, n, start);
            ConditionSpec(lines, n, start).None? ==> NoZeroBefore(s, |s|, '(', ')', 0)
  {
    var s := Stream(lines, n, start);
    CloseScanFirst(s, '(', ')', 0);
    FirstOpenIsFirst(s);
    ConditionOpenExists(lines, n, start);
    CloseFromIsScan(lines, n, start, '(', ')', 0);
    OpenFromIsScan(lines, n, start);
    assert ConditionSpec(lines, n, start) == Pair(FirstOpen(s), CloseScan(s, '(', ')', 0));
  }

  // The balanced scan stated position by position, the way the loops of the source walk the text.
  function CloseFrom(lines: seq<string>, l: nat, j: nat, open: char, close: char, depth: int): Option<Loc>
    decreases |lines| - l, (if l < |lines| then |lines[l]| - j else 0)
  {
    if l >= |lines| then None
    else if j < |lines[l]| then
      var c := lines[l][j];
      var d := depth + (if c == open then 1 else if c == close then -1 else 0);
      if c == close && d == 0 then Some(Loc(l, j)) else CloseFrom(lines, l, j + 1, open, close, d)
    else CloseFrom(lines, l + 1, 0, open, close, depth)
  }

  lemma {:induction false} CloseFromIsScan(lines: seq<string>, l: nat, j: nat, open: char, close: char, depth: int)
    ensures CloseFrom(lines, l, j, open, close, depth) == CloseScan(Stream(lines, l, j), open, close, depth)
    decreases |lines| - l, (if l < |lines| then |lines[l]| - j else 0)
  {
    if l < |lines| {
      StreamUnfold(lines, l, j);
      if j < |lines[l]| {
        var x := Ch(Loc(l, j), lines[l][j]);
        CloseFromIsScan(lines, l, j + 1, open, close, depth + Delta(x, open, close));
        CloseScanCons(x, Stream(lines, l, j + 1), open, close, depth);
      } else {
        CloseFromIsScan(lines, l + 1, 0, open, close, depth);
        CloseScanCons(Eol(l, lines[l]), Stream(lines, l + 1, 0), open, close, depth);
      }
    }
  }

  lemma CloseScanCons(x: Cell, t: seq<Cell>, open: char, close: char, depth: int)
    ensures var d := depth + Delta(x, open, close);
            CloseScan([x] + t, open, close, depth)
            == if IsChar(x, close) && d == 0 then Some(x.at) else CloseScan(t, open, close, d)
  {
    assert ([x] + t)[1..] == t;
  }

  // The first `(` stated position by position.
  function OpenFrom(lines: seq<string>, l: nat, j: nat): Option<Loc>
    decreases |lines| - l, (if l < |lines| then |lines[l]| - j else 0)
  {
    if l >= |lines| then None
    else if j < |lines[l]| then (if lines[l][j] == '(' then Some(Loc(l, j)) else OpenFrom(lines, l, j + 1))
    else OpenFrom(lines, l + 1, 0)
  }

  lemma {:induction false} OpenFromIsScan(lines: seq<string>, l: nat, j: nat)
    ensures OpenFrom(lines, l, j) == FirstOpen(Stream(lines, l, j))
    decreases |lines| - l, (if l < |lines| then |lines[l]| - j else 0)
  {
    if l < |lines| {
      StreamUnfold(lines, l, j);
      if j < |lines[l]| {
        OpenFromIsScan(lines, l, j + 1);
        assert ([Ch(Loc(l, j), lines[l][j])] + Stream(lines, l, j + 1))[1..] == Stream(lines, l, j + 1);
      } else {
        OpenFromIsScan(lines, l + 1, 0);
        assert ([Eol(l, lines[l])] + Stream(lines, l + 1, 0))[1..] == Stream(lines, l + 1, 0);
      }
    }
  }

  function Either(a: Option<Loc>, b: Option<Loc>): Option<Loc> {
    if a.Some? then a else b
  }

  function Pair(o: Option<Loc>, c: Option<Loc>): Option<(Loc, Loc)> {
    if o.Some? && c.Some? then Some((o.value, c.value)) else None
  }

  // `find_condition(n, start)`.
  method FindCondition(lines: seq<string>, n: nat, start: nat) returns (r: Option<(Loc, Loc)>)
    ensures r == ConditionSpec(lines, n, start)
  {
    ghost var close := CloseFrom(lines, n, start, '(', ')', 0);
    ghost var open := OpenFrom(lines, n, start);
    var numParen := 0;
    var startParen: Option<Loc> := None;
    var lineN := n;
    while lineN < |lines|
      invariant lineN == n || n < lineN <= |lines|
      invariant startParen.None? ==> numParen <= 0
      invariant CloseFrom(lines, lineN, if lineN == n then start else 0, '(', ')', numParen) == close
      invariant Either(startParen, OpenFrom(lines, lineN, if lineN == n then start else 0)) == open
      decreases |lines| - lineN
    {
      var lo := if lineN == n then start else 0;
      var j := lo;
      while j < |lines[lineN]|
        invariant lo <= j
        invariant startParen.None? ==> numParen <= 0
        invariant CloseFrom(lines, lineN, j, '(', ')', numParen) == close
        invariant Either(startParen, OpenFrom(lines, lineN, j)) == open
        decreases |lines[lineN]| - j
      {
        if lines[lineN][j] == '(' {
          numParen := numParen + 1;
          if startParen.None? {
            startParen := Some(Loc(lineN, j));
          }
        } else if lines[lineN][j] == ')' {
          numParen := numParen - 1;
          if numParen == 0 {
            return Some((startParen.value, Loc(lineN, j)));
          }
        }
        j := j + 1;
      }
      lineN := lineN + 1;
    }
    r := None;
  }

  // ---------------------------------------------------------------- code block

  // `find_code_block(n, start)`: the block opened by the `{` at the start position and the `}` that
  // closes it; nothing when the start is not a `{` (the source's assertion) or the block is unclosed.
  function CodeBlockSpec(lines: seq<string>, n: nat, start: nat): (r: Option<(Loc, Loc)>)
    ensures r.Some? ==> r.value.0 == Loc(n, start) && IsPos(lines, r.value.0) && lines[n][start] == '{'
    ensures r.Some? ==> IsPos(lines, r.value.1) && lines[r.value.1.line][r.value.1.col] == '}'
    ensures r.Some? ==> Before(r.value.0, r.value.1)
  {
    CodeBlockInText(lines, n, start);
    CloseFromIsScan(lines, n, start, '{', '}', 0);
    if IsPos(lines, Loc(n, start)) && lines[n][start] == '{' then
      Pair(Some(Loc(n, start)), CloseFrom(lines, n, start, '{', '}', 0))
    else None
  }

  lemma CodeBlockInText(lines: seq<string>, n: nat, start: nat)
    ensures var s := Stream(lines, n, start);
            IsPos(lines, Loc(n, start)) && CloseScan(s, '{', '}', 0).Some? ==>
              var c := CloseScan(s, '{', '}', 0).value;
              IsPos(lines, c) && lines[c.line][c.col] == '}' && AtOrBefore(Loc(n, start), c)
  {
    var s := Stream(lines, n, start);
    if IsPos(lines, Loc(n, start)) && CloseScan(s, '{', '}', 0).Some? {
      CloseScanFirst(s, '{', '}', 0);
      StreamOrdered(lines, n, start);
      StreamCellsOk(lines, n, start);
      var k: nat :| FirstZeroAt(s, k, '{', '}', 0) && s[k].at == CloseScan(s, '{', '}', 0).value;
      assert CellOk(lines, s[k]);
    }
  }

  // Starting on a `{`, the count of braces stays positive as long as no `}` brings it to zero.
  lemma {:induction false} PositiveThrough(cells: seq<Cell>, k: nat)
    requires k < |cells| && IsChar(cells[0], '{')
    requires forall i :: 0 <= i <= k && IsChar(cells[i], '}') ==> Balance(cells, i, '{', '}') != 0
    ensures forall i :: 0 <= i <= k ==> Balance(cells, i, '{', '}') > 0
  {
    BalanceStep(cells, k, '{', '}');
    if k > 0 {
      PositiveThrough(cells, k - 1);
    }
  }

  // The code block ends at the first `}` that balances the braces from the opening `{`: the count of
  // braces is positive through every character before it and zero through it.
  lemma CodeBlockIsBalanced(lines: seq<string>, n: nat, start: nat)
    ensures var s := Stream(lines, n, start);
            var r := CodeBlockSpec(lines, n, start);
            r.Some? ==>
              r.value.0 == Loc(n, start) && lines[n][start] == '{'
              && exists k: nat :: 0 < k < |s| && s[k] == Ch(r.value.1, '}') && Balance(s, k, '{', '}') == 0
                   && forall i :: 0 <= i < k ==> Balance(s, i, '{', '}') > 0
    ensures var s := Stream(lines, n, start);
            CodeBlockSpec(lines, n, start).None? && IsPos(lines, Loc(n, start)) && lines[n][start] == '{' ==>
              forall i :: 0 <= i < |s| ==> Balance(s, i, '{', '}') > 0
  {
    var s := Stream(lines, n, start);
    CloseScanFirst(s, '{', '}', 0);
    CloseFromIsScan(lines, n, start, '{', '}', 0);
    if IsPos(lines, Loc(n, start)) && lines[n][start] == '{' {
      assert s[0] == Ch(Loc(n, start), '{');
      var r := CloseScan(s, '{', '}', 0);
      if r.Some? {
        var k: nat :| FirstZeroAt(s, k, '{', '}', 0) && s[k].at == r.value;
        PositiveThrough(s, k - 1);
      } else if |s| > 0 {
        PositiveThrough(s, |s| - 1);
      }
    }
  }

  // `find_code_block(n, start)`; `None` stands for both the failed assertion and the unclosed block.
  method FindCodeBlock(lines: seq<string>, n: nat, start: nat) returns (r: Option<(Loc, Loc)>)
    ensures r == CodeBlockSpec(lines, n, start)
  {
    if !(n < |lines| && start < |lines[n]| && lines[n][start] == '{') {
      return None;
    }
    ghost var close := CloseFrom(lines, n, start, '{', '}', 0);
    var numBrace := 0;
    var lineN := n;
    while lineN < |lines|
      invariant lineN == n || n < lineN <= |lines|
      invariant CloseFrom(lines, lineN, if lineN == n then start else 0, '{', '}', numBrace) == close
      decreases |lines| - lineN
    {
      var lo := if lineN == n then start else 0;
      var j := lo;
      while j < |lines[lineN]|
        invariant lo <= j
        invariant CloseFrom(lines, lineN, j, '{', '}', numBrace) == close
        decreases |lines[lineN]| - j
      {
        if lines[lineN][j] == '{' {
          numBrace := numBrace + 1;
        } else if lines[lineN][j] == '}' {
          numBrace := numBrace - 1;
          if numBrace == 0 {
            return Some((Loc(n, start), Loc(lineN, j)));
          }
        }
        j := j + 1;
      }
      lineN := lineN + 1;
    }
    r := None;
  }
}
