// Comments of the assembly checker: `within_comment` and the table of block
// comments that `get_block_comments` builds once for the whole file.
//
// A column of a line is in a comment when a `//`, `@` or `#` that is not
// inside a quoted literal lies left of it (quotes are counted from the column
// leftwards, and column 0 is never looked at), or when a block comment of the
// table covers it. The table is read in order and the first covering entry
// decides; an entry whose `*/` came before any `/*` has no start, and reaching
// it makes the source fail (it subscripts `None`), which is `None` here.
module AsmComments {
  import opened Common
  import opened Quotes
  import opened CComments

  // One entry of `block_cmmts`: where the last accepted `/*` was seen, and the column just past a
  // `*/`.
  datatype Span = Span(start: Option<Loc>, end: Loc)

  // A `//` ends at column `i`, or column `i` holds `@` or `#`.
  predicate MarkerAt(s: string, i: nat)
    requires 1 <= i < |s|
  {
    SlashPairAt(s, i) || s[i] == '@' || s[i] == '#'
  }

  // The left scan of `within_comment`: a marker at some column `1 <= i < lo` with an even number of
  // unescaped quotes after it and before `lo`.
  predicate MarkerBefore(s: string, lo: nat)
    requires lo <= |s|
  {
    exists i :: 1 <= i < lo && MarkerAt(s, i) && CountQuotes(s, i + 1, lo) % 2 == 0
  }

  // The entry from `start` to `end` covers column `lo` of line `n`.
  predicate Covers(start: Loc, end: Loc, n: nat, lo: int) {
    start.line <= n <= end.line
    && if n == start.line then lo >= start.col
       else if n == end.line then lo <= end.col
       else true
  }

  // The loop over the table: the first covering entry answers `true`; an entry without a start met
  // before that is a failure.
  function SpanScan(spans: seq<Span>, n: nat, lo: int): Option<bool> {
    if spans == [] then Some(false)
    else match spans[0].start
      case None => None
      case Some(st) => if Covers(st, spans[0].end, n, lo) then Some(true) else SpanScan(spans[1..], n, lo)
  }

  // `within_comment(s, n, lo, hi)` with the table `spans`; `hi` plays no part.
  function InCommentSpec(s: string, spans: seq<Span>, n: nat, lo: nat): Option<bool>
    requires lo <= |s|
  {
    if MarkerBefore(s, lo) then Some(true) else SpanScan(spans, n, lo)
  }

  // ---------------------------------------------------------------- the table

  // `get_block_comments` from column `j` of line `i` on, `start` being the last accepted `/*` and
  // `acc` the table so far. A `/*` is accepted when it is neither inside a double-quoted literal nor
  // in a comment by the table built so far; every `*/` adds an entry, and `start` is never reset.
  // `None` when `within_comment` fails on the way.
  function SpansFrom(lines: seq<string>, i: nat, j: nat, start: Option<Loc>, acc: seq<Span>): Option<seq<Span>>
    decreases |lines| - i, if i < |lines| then |lines[i]| - j else 0
  {
    if i >= |lines| then Some(acc)
    else if j + 1 >= |lines[i]| then SpansFrom(lines, i + 1, 0, start, acc)
    else if OpensAt(lines[i], j) && !InQuotes(lines[i], j, j + 2) then
      match InCommentSpec(lines[i], acc, i, j)
      case None => None
      case Some(true) => SpansFrom(lines, i, j + 1, start, acc)
      case Some(false) => SpansFrom(lines, i, j + 1, Some(Loc(i, j)), acc)
    else if ClosesAt(lines[i], j) then SpansFrom(lines, i, j + 1, start, acc + [Span(start, Loc(i, j + 2))])
    else SpansFrom(lines, i, j + 1, start, acc)
  }

  // The table of the whole file.
  function BlockTable(lines: seq<string>): Option<seq<Span>> {
    SpansFrom(lines, 0, 0, None, [])
  }

  // A `/*` outside double quotes and not after a line-comment marker: the part of the scan's test
  // for an opening that does not depend on the table built so far.
  predicate AcceptedOpen(lines: seq<string>, st: Loc) {
    st.line < |lines| && OpensAt(lines[st.line], st.col)
    && !InQuotes(lines[st.line], st.col, st.col + 2) && !MarkerBefore(lines[st.line], st.col)
  }

  // An entry ends just past a `*/` of the file, and its start, when it has one, is a `/*` before that
  // `*/` that passes `AcceptedOpen`.
  predicate GoodSpan(lines: seq<string>, span: Span) {
    span.end.line < |lines| && 2 <= span.end.col && ClosesAt(lines[span.end.line], span.end.col - 2)
    && (span.start.Some? ==>
          AcceptedOpen(lines, span.start.value) && Before(span.start.value, Loc(span.end.line, span.end.col - 2)))
  }

  // The entries are in the order of their ends.
  predicate Ascending(spans: seq<Span>) {
    forall a, b :: 0 <= a < b < |spans| ==> Before(spans[a].end, spans[b].end)
  }

  // Every entry ends at or before column `j + 1` of line `i`.
  predicate EndsBy(spans: seq<Span>, i: nat, j: nat) {
    forall k :: 0 <= k < |spans| ==> spans[k].end.line < i || (spans[k].end.line == i && spans[k].end.col <= j + 1)
  }

  // ---------------------------------------------------------------- meaning

  // The table answers `false` exactly when every entry has a start and none covers the column; it
  // answers `true` exactly when a covering entry comes before any entry without a start.
  lemma {:induction false} SpanScanMeaning(spans: seq<Span>, n: nat, lo: int)
    ensures SpanScan(spans, n, lo) == Some(false) <==>
              forall k :: 0 <= k < |spans| ==> spans[k].start.Some? && !Covers(spans[k].start.value, spans[k].end, n, lo)
    ensures SpanScan(spans, n, lo) == Some(true) <==>
              exists k :: 0 <= k < |spans| && spans[k].start.Some? && Covers(spans[k].start.value, spans[k].end, n, lo)
                          && forall i :: 0 <= i < k ==> spans[i].start.Some?
  {
    if spans != [] {
      SpanScanMeaning(spans[1..], n, lo);
      var t := spans[1..];
      if spans[0].start.Some? && !Covers(spans[0].start.value, spans[0].end, n, lo) {
        if SpanScan(t, n, lo) == Some(true) {
          var k :| 0 <= k < |t| && t[k].start.Some? && Covers(t[k].start.value, t[k].end, n, lo)
                   && forall i :: 0 <= i < k ==> t[i].start.Some?;
          assert spans[k + 1] == t[k];
          forall i | 0 <= i < k + 1 ensures spans[i].start.Some? {
            if i > 0 {
              assert spans[i] == t[i - 1];
            }
          }
        }
        if exists k :: 0 <= k < |spans| && spans[k].start.Some? && Covers(spans[k].start.value, spans[k].end, n, lo)
                       && forall i :: 0 <= i < k ==> spans[i].start.Some? {
          var k :| 0 <= k < |spans| && spans[k].start.Some? && Covers(spans[k].start.value, spans[k].end, n, lo)
                   && forall i :: 0 <= i < k ==> spans[i].start.Some?;
          assert k > 0 && spans[k] == t[k - 1];
          forall i | 0 <= i < k - 1 ensures t[i].start.Some? {
            assert t[i] == spans[i + 1];
          }
        }
        forall k | 0 <= k < |t| ensures t[k] == spans[k + 1] { }
      } else if spans[0].start.Some? {
        assert !(forall k :: 0 <= k < |spans| ==> spans[k].start.Some? && !Covers(spans[k].start.value, spans[k].end, n, lo));
      } else {
        assert !(forall k :: 0 <= k < |spans| ==> spans[k].start.Some? && !Covers(spans[k].start.value, spans[k].end, n, lo));
      }
    }
  }

  // The table loop always answers when every entry has a start.
  lemma {:induction false} SpanScanTotal(spans: seq<Span>, n: nat, lo: int)
    requires forall k :: 0 <= k < |spans| ==> spans[k].start.Some?
    ensures SpanScan(spans, n, lo).Some?
  {
    if spans != [] {
      assert forall k :: 0 <= k < |spans[1..]| ==> spans[1..][k] == spans[k + 1];
      SpanScanTotal(spans[1..], n, lo);
    }
  }

  // An unquoted marker to the left of the column puts it in a comment, whatever the table holds.
  lemma MarkerWins(s: string, spans: seq<Span>, n: nat, lo: nat, i: nat)
    requires lo <= |s| && 1 <= i < lo && MarkerAt(s, i) && CountQuotes(s, i + 1, lo) % 2 == 0
    ensures InCommentSpec(s, spans, n, lo) == Some(true)
  {
  }

  // Within a block comment: any line strictly between the lines of a covering entry; on the start
  // line from the start column on; on the end line up to the end column.
  lemma CoversMeaning(start: Loc, end: Loc, n: nat, lo: int)
    requires start.line < end.line
    ensures start.line < n < end.line ==> Covers(start, end, n, lo)
    ensures Covers(start, end, start.line, lo) <==> lo >= start.col
    ensures Covers(start, end, end.line, lo) <==> lo <= end.col
    ensures n < start.line || end.line < n ==> !Covers(start, end, n, lo)
  {
  }

  // The scan only appends to the table.
  lemma {:induction false} SpansFromGrows(lines: seq<string>, i: nat, j: nat, start: Option<Loc>, acc: seq<Span>)
    ensures SpansFrom(lines, i, j, start, acc).Some? ==> acc <= SpansFrom(lines, i, j, start, acc).value
    decreases |lines| - i, if i < |lines| then |lines[i]| - j else 0
  {
    if i >= |lines| {
    } else if j + 1 >= |lines[i]| {
      SpansFromGrows(lines, i + 1, 0, start, acc);
    } else if OpensAt(lines[i], j) && !InQuotes(lines[i], j, j + 2) {
      SpansFromGrows(lines, i, j + 1, start, acc);
      SpansFromGrows(lines, i, j + 1, Some(Loc(i, j)), acc);
    } else if ClosesAt(lines[i], j) {
      SpansFromGrows(lines, i, j + 1, start, acc + [Span(start, Loc(i, j + 2))]);
    } else {
      SpansFromGrows(lines, i, j + 1, start, acc);
    }
  }

  // Every entry the scan adds is a `*/` of the file, paired with a `/*` before it that passes
  // `AcceptedOpen` (or with none), and the entries come in the order of the text.
  lemma {:induction false} SpansFromShape(lines: seq<string>, i: nat, j: nat, start: Option<Loc>, acc: seq<Span>)
    requires start.Some? ==> AcceptedOpen(lines, start.value) && Before(start.value, Loc(i, j))
    requires forall k :: 0 <= k < |acc| ==> GoodSpan(lines, acc[k])
    requires Ascending(acc) && EndsBy(acc, i, j)
    ensures SpansFrom(lines, i, j, start, acc).Some? ==>
              var t := SpansFrom(lines, i, j, start, acc).value;
              Ascending(t) && forall k :: 0 <= k < |t| ==> GoodSpan(lines, t[k])
    decreases |lines| - i, if i < |lines| then |lines[i]| - j else 0
  {
    if i >= |lines| {
    } else if j + 1 >= |lines[i]| {
      SpansFromShape(lines, i + 1, 0, start, acc);
    } else if OpensAt(lines[i], j) && !InQuotes(lines[i], j, j + 2) {
      SpansFromShape(lines, i, j + 1, start, acc);
      if InCommentSpec(lines[i], acc, i, j) == Some(false) {
        SpansFromShape(lines, i, j + 1, Some(Loc(i, j)), acc);
      }
    } else if ClosesAt(lines[i], j) {
      var span := Span(start, Loc(i, j + 2));
      var acc' := acc + [span];
      assert GoodSpan(lines, span);
      assert Ascending(acc') by {
        forall a, b | 0 <= a < b < |acc'| ensures Before(acc'[a].end, acc'[b].end) {
          if b == |acc| {
            assert acc'[a] == acc[a];
          }
        }
      }
      SpansFromShape(lines, i, j + 1, start, acc');
    } else {
      SpansFromShape(lines, i, j + 1, start, acc);
    }
  }

  // Every `*/` at or after column `j` of line `i` gets an entry ending just past it.
  lemma {:induction false} ClosesRecorded(lines: seq<string>, i: nat, j: nat, start: Option<Loc>, acc: seq<Span>, a: nat, b: nat)
    requires a < |lines| && ClosesAt(lines[a], b) && (i < a || (i == a && j <= b))
    requires SpansFrom(lines, i, j, start, acc).Some?
    ensures var t := SpansFrom(lines, i, j, start, acc).value;
            exists k :: 0 <= k < |t| && t[k].end == Loc(a, b + 2)
    decreases |lines| - i, if i < |lines| then |lines[i]| - j else 0
  {
    if j + 1 >= |lines[i]| {
      ClosesRecorded(lines, i + 1, 0, start, acc, a, b);
    } else if OpensAt(lines[i], j) && !InQuotes(lines[i], j, j + 2) {
      if InCommentSpec(lines[i], acc, i, j) == Some(false) {
        ClosesRecorded(lines, i, j + 1, Some(Loc(i, j)), acc, a, b);
      } else {
        ClosesRecorded(lines, i, j + 1, start, acc, a, b);
      }
    } else if ClosesAt(lines[i], j) {
      var acc' := acc + [Span(start, Loc(i, j + 2))];
      if i == a && j == b {
        SpansFromGrows(lines, i, j + 1, start, acc');
        assert SpansFrom(lines, i, j + 1, start, acc').value[|acc|] == acc'[|acc|];
      } else {
        ClosesRecorded(lines, i, j + 1, start, acc', a, b);
      }
    } else {
      ClosesRecorded(lines, i, j + 1, start, acc, a, b);
    }
  }

  // The table of a file: its entries are the `*/` of the text, each once and in order, each paired
  // with a `/*` before it that passes `AcceptedOpen`, or with none.
  lemma BlockTableShape(lines: seq<string>)
    ensures BlockTable(lines).Some? ==>
              var t := BlockTable(lines).value;
              Ascending(t)
              && (forall k :: 0 <= k < |t| ==> GoodSpan(lines, t[k]))
              && forall a: nat, b: nat :: a < |lines| && ClosesAt(lines[a], b) ==>
                   exists k :: 0 <= k < |t| && t[k].end == Loc(a, b + 2)
  {
    if BlockTable(lines).Some? {
      SpansFromShape(lines, 0, 0, None, []);
      forall a: nat, b: nat | a < |lines| && ClosesAt(lines[a], b)
        ensures exists k :: 0 <= k < |BlockTable(lines).value| && BlockTable(lines).value[k].end == Loc(a, b + 2)
      {
        ClosesRecorded(lines, 0, 0, None, [], a, b);
      }
    }
  }

  // ---------------------------------------------------------------- the method

  // `within_comment(s, n, lo, hi)`, reading the table `spans`.
  method WithinComment(s: string, spans: seq<Span>, n: nat, lo: nat, hi: int) returns (r: Option<bool>)
    requires lo <= |s|
    ensures r == InCommentSpec(s, spans, n, lo)
  {
    var inQuote := false;
    var i: int := lo - 1;
    while i >= 1
      invariant 0 <= i + 1 <= lo
      invariant inQuote == (CountQuotes(s, i + 1, lo) % 2 == 1)
      invariant forall k :: i < k < lo && 1 <= k && MarkerAt(s, k) ==> CountQuotes(s, k + 1, lo) % 2 == 1
    {
      if !inQuote && s[i - 1] == '/' && s[i] == '/' {
        assert MarkerAt(s, i);
        return Some(true);
      }
      if !inQuote && (s[i] == '@' || s[i] == '#') {
        assert MarkerAt(s, i);
        return Some(true);
      }
      if s[i] == '"' && (i == 0 || s[i - 1] != '\\') {
        inQuote := !inQuote;
      }
      i := i - 1;
    }
    assert !MarkerBefore(s, lo);
    r := ScanSpans(spans, n, lo);
  }

  // The loop of `within_comment` over the table.
  method ScanSpans(spans: seq<Span>, n: nat, lo: int) returns (r: Option<bool>)
    ensures r == SpanScan(spans, n, lo)
  {
    var k := 0;
    while k < |spans|
      invariant k <= |spans|
      invariant SpanScan(spans[k..], n, lo) == SpanScan(spans, n, lo)
    {
      assert spans[k..][1..] == spans[k + 1..];
      var span := spans[k];
      if span.start.None? {
        return None;
      }
      var start := span.start.value;
      if n >= start.line && n <= span.end.line {
        if n == start.line {
          if lo >= start.col {
            return Some(true);
          }
        } else if n == span.end.line {
          if lo <= span.end.col {
            return Some(true);
          }
        } else {
          return Some(true);
        }
      }
      k := k + 1;
    }
    assert spans[k..] == [];
    r := Some(false);
  }
}
