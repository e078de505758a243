// The text from a position onwards, read the way the C checker's scanners
// read it: line by line, each line's characters left to right from the
// start column (column 0 on later lines), then an end-of-line step where the
// terminator scan may look at the whole line for a keyword.
module Scan {
  import opened Common

  datatype Cell = Ch(at: Loc, c: char) | Eol(line: nat, text: string)

  function Stream(lines: seq<string>, l: nat, j: nat): seq<Cell>
    decreases |lines| - l, (if l < |lines| then |lines[l]| - j else 0)
  {
    if l >= |lines| then []
    else if j < |lines[l]| then [Ch(Loc(l, j), lines[l][j])] + Stream(lines, l, j + 1)
    else [Eol(l, lines[l])] + Stream(lines, l + 1, 0)
  }

  // The first cell of the stream and the rest.
  lemma StreamUnfold(lines: seq<string>, l: nat, j: nat)
    requires l < |lines|
    ensures j < |lines[l]| ==> Stream(lines, l, j) == [Ch(Loc(l, j), lines[l][j])] + Stream(lines, l, j + 1)
    ensures j >= |lines[l]| ==> Stream(lines, l, j) == [Eol(l, lines[l])] + Stream(lines, l + 1, 0)
  {
  }

  // Where a cell sits in reading order: an end of line comes after the line's last character.
  function Key(x: Cell): Loc {
    match x
    case Ch(at, _) => at
    case Eol(l, text) => Loc(l, |text|)
  }

  predicate AtOrBefore(a: Loc, b: Loc) {
    Before(a, b) || a == b
  }

  // A valid character position of the text.
  predicate IsPos(lines: seq<string>, p: Loc) {
    p.line < |lines| && p.col < |lines[p.line]|
  }

  // The cell agrees with the text.
  predicate CellOk(lines: seq<string>, x: Cell) {
    match x
    case Ch(at, c) => IsPos(lines, at) && c == lines[at.line][at.col]
    case Eol(l, text) => l < |lines| && text == lines[l]
  }

  predicate StartOk(lines: seq<string>, l: nat, j: nat) {
    l < |lines| ==> j <= |lines[l]|
  }

  // Every cell agrees with the text and comes at or after `start`, and the cells are in strict
  // reading order.
  predicate ReadInOrder(lines: seq<string>, s: seq<Cell>, start: Loc) {
    (forall k :: 0 <= k < |s| ==> CellOk(lines, s[k]) && AtOrBefore(start, Key(s[k])))
    && (forall k1, k2 :: 0 <= k1 < k2 < |s| ==> Before(Key(s[k1]), Key(s[k2])))
  }

  lemma {:induction false} StreamOrdered(lines: seq<string>, l: nat, j: nat)
    requires StartOk(lines, l, j)
    ensures ReadInOrder(lines, Stream(lines, l, j), Loc(l, j))
    decreases |lines| - l, (if l < |lines| then |lines[l]| - j else 0)
  {
    if l < |lines| {
      if j < |lines[l]| {
        StreamOrdered(lines, l, j + 1);
        OrderedCons(lines, Ch(Loc(l, j), lines[l][j]), Stream(lines, l, j + 1), Loc(l, j + 1));
      } else {
        StreamOrdered(lines, l + 1, 0);
        OrderedCons(lines, Eol(l, lines[l]), Stream(lines, l + 1, 0), Loc(l + 1, 0));
      }
    }
  }

  // The ordering facts carry over from the cells after the first cell `x` to the whole stream.
  lemma OrderedCons(lines: seq<string>, x: Cell, t: seq<Cell>, next: Loc)
    requires CellOk(lines, x) && Before(Key(x), next)
    requires ReadInOrder(lines, t, next)
    ensures ReadInOrder(lines, [x] + t, Key(x))
  {
    var s := [x] + t;
    forall k | 0 <= k < |s| ensures CellOk(lines, s[k]) && AtOrBefore(Key(x), Key(s[k])) {
      if k > 0 {
        assert s[k] == t[k - 1];
      }
    }
    forall k1, k2 | 0 <= k1 < k2 < |s| ensures Before(Key(s[k1]), Key(s[k2])) {
      assert s[k2] == t[k2 - 1];
      if k1 > 0 {
        assert s[k1] == t[k1 - 1];
      }
    }
  }

  // Every cell agrees with the text, whatever the start.
  lemma {:induction false} StreamCellsOk(lines: seq<string>, l: nat, j: nat)
    ensures forall k :: 0 <= k < |Stream(lines, l, j)| ==> CellOk(lines, Stream(lines, l, j)[k])
    decreases |lines| - l, (if l < |lines| then |lines[l]| - j else 0)
  {
    if l < |lines| {
      var s := Stream(lines, l, j);
      var next := if j < |lines[l]| then Loc(l, j + 1) else Loc(l + 1, 0);
      StreamCellsOk(lines, next.line, next.col);
      assert s == [s[0]] + Stream(lines, next.line, next.col);
    }
  }

  // Later cells come later in reading order, whatever the start.
  lemma StreamOrderedAnyStart(lines: seq<string>, l: nat, j: nat, k1: nat, k2: nat)
    requires k1 < k2 < |Stream(lines, l, j)|
    ensures Before(Key(Stream(lines, l, j)[k1]), Key(Stream(lines, l, j)[k2]))
  {
    var s := Stream(lines, l, j);
    if StartOk(lines, l, j) {
      StreamOrdered(lines, l, j);
    } else {
      StreamOrdered(lines, l + 1, 0);
      OrderedCons(lines, Eol(l, lines[l]), Stream(lines, l + 1, 0), Loc(l + 1, 0));
    }
  }

  // Every character position at or after the start is read.
  lemma {:induction false} StreamCoversChar(lines: seq<string>, l: nat, j: nat, p: Loc)
    requires IsPos(lines, p) && AtOrBefore(Loc(l, j), p)
    ensures exists k :: 0 <= k < |Stream(lines, l, j)| && Stream(lines, l, j)[k] == Ch(p, lines[p.line][p.col])
    decreases |lines| - l, (if l < |lines| then |lines[l]| - j else 0)
  {
    var s := Stream(lines, l, j);
    if Loc(l, j) == p {
      assert s[0] == Ch(p, lines[p.line][p.col]);
    } else {
      var next := if j < |lines[l]| then Loc(l, j + 1) else Loc(l + 1, 0);
      StreamCoversChar(lines, next.line, next.col, p);
      var t := Stream(lines, next.line, next.col);
      assert s == [s[0]] + t;
      var k :| 0 <= k < |t| && t[k] == Ch(p, lines[p.line][p.col]);
      assert s[k + 1] == t[k];
    }
  }

  // The end of every line from the start line on is read.
  lemma {:induction false} StreamCoversEol(lines: seq<string>, l: nat, j: nat, m: nat)
    requires l <= m < |lines|
    ensures exists k :: 0 <= k < |Stream(lines, l, j)| && Stream(lines, l, j)[k] == Eol(m, lines[m])
    decreases |lines| - l, (if l < |lines| then |lines[l]| - j else 0)
  {
    var s := Stream(lines, l, j);
    if l == m && j >= |lines[l]| {
      assert s[0] == Eol(m, lines[m]);
    } else {
      var next := if j < |lines[l]| then Loc(l, j + 1) else Loc(l + 1, 0);
      StreamCoversEol(lines, next.line, next.col, m);
      var t := Stream(lines, next.line, next.col);
      assert s == [s[0]] + t;
      var k :| 0 <= k < |t| && t[k] == Eol(m, lines[m]);
      assert s[k + 1] == t[k];
    }
  }

  // A character position between the start and the k-th cell is read before the k-th cell.
  lemma CharReadBefore(lines: seq<string>, l: nat, j: nat, k: nat, p: Loc)
    requires StartOk(lines, l, j) && k < |Stream(lines, l, j)|
    requires IsPos(lines, p) && AtOrBefore(Loc(l, j), p) && Before(p, Key(Stream(lines, l, j)[k]))
    ensures exists i :: 0 <= i < k && Stream(lines, l, j)[i] == Ch(p, lines[p.line][p.col])
  {
    StreamOrdered(lines, l, j);
    StreamCoversChar(lines, l, j, p);
  }

  // The end of a line between the start and the k-th cell is read before the k-th cell.
  lemma EolReadBefore(lines: seq<string>, l: nat, j: nat, k: nat, m: nat)
    requires StartOk(lines, l, j) && k < |Stream(lines, l, j)|
    requires l <= m < |lines| && Before(Loc(m, |lines[m]|), Key(Stream(lines, l, j)[k]))
    ensures exists i :: 0 <= i < k && Stream(lines, l, j)[i] == Eol(m, lines[m])
  {
    StreamOrdered(lines, l, j);
    StreamCoversEol(lines, l, j, m);
  }

  // Net count of `open` minus `close` characters among the cells.
  function Net(cells: seq<Cell>, open: char, close: char): int {
    if cells == [] then 0
    else Net(cells[..|cells| - 1], open, close) + Delta(cells[|cells| - 1], open, close)
  }

  // What one cell adds to the count.
  function Delta(x: Cell, open: char, close: char): int {
    if x.Ch? && x.c == open then 1 else if x.Ch? && x.c == close then -1 else 0
  }

  lemma {:induction false} NetCons(x: Cell, t: seq<Cell>, open: char, close: char)
    ensures Net([x] + t, open, close) == Delta(x, open, close) + Net(t, open, close)
    decreases |t|
  {
    if t != [] {
      var u := t[..|t| - 1];
      assert ([x] + t)[..|t|] == [x] + u;
      NetCons(x, u, open, close);
    }
  }

  // The count over the cells up to and including the i-th.
  function Balance(cells: seq<Cell>, i: nat, open: char, close: char): int
    requires i < |cells|
  {
    Net(cells[..i + 1], open, close)
  }

  // The count through cell `i` is the count through cell `i - 1` plus cell `i`'s own contribution.
  lemma BalanceStep(cells: seq<Cell>, i: nat, open: char, close: char)
    requires i < |cells|
    ensures i == 0 ==> Balance(cells, i, open, close) == Delta(cells[0], open, close)
    ensures i > 0 ==> Balance(cells, i, open, close) == Balance(cells, i - 1, open, close) + Delta(cells[i], open, close)
  {
    var p := cells[..i + 1];
    assert p[..|p| - 1] == cells[..i] && p[|p| - 1] == cells[i];
    assert Net(p, open, close) == Net(cells[..i], open, close) + Delta(cells[i], open, close);
    if i == 0 {
      assert cells[..i] == [];
    }
  }

  // The count through cell `i` is the first cell's contribution plus the count over the rest.
  lemma BalanceShift(cells: seq<Cell>, i: nat, open: char, close: char)
    requires i < |cells|
    ensures i == 0 ==> Balance(cells, i, open, close) == Delta(cells[0], open, close)
    ensures i > 0 ==> Balance(cells, i, open, close) == Delta(cells[0], open, close) + Balance(cells[1..], i - 1, open, close)
  {
    assert cells[..i + 1] == [cells[0]] + cells[1..][..i];
    NetCons(cells[0], cells[1..][..i], open, close);
    if i == 0 {
      BalanceStep(cells, 0, open, close);
    }
  }
}
