// Comment spans of one C line (`within_comment` of the C checker).
//
// A span `[lo, hi)` is in a comment when a `//` that is not inside a quoted
// literal ends left of `lo` (quotes are counted from `lo` leftwards), or when
// it lies strictly inside a `/* ... */` range of the same line. A range is
// produced for every `*/` after the first `/*`, and starts at the last `/*`
// seen before it.
module CComments {
  import opened Common
  import opened Quotes

  // Characters `i - 1` and `i` are `//`.
  predicate SlashPairAt(s: string, i: nat)
    requires 1 <= i < |s|
  {
    s[i - 1] == '/' && s[i] == '/'
  }

  // Number of unescaped `"` in `s[a..b]`.
  function CountQuotes(s: string, a: nat, b: nat): nat
    requires b <= |s|
    decreases b - a
  {
    if a >= b then 0 else (if IsUnescapedQuote(s, a) then 1 else 0) + CountQuotes(s, a + 1, b)
  }

  // A `//` ends at some `i < lo` with an even number of unescaped quotes between it and `lo`.
  predicate LineCommentBefore(s: string, lo: nat)
    requires lo <= |s|
  {
    exists i :: 1 <= i < lo && SlashPairAt(s, i) && CountQuotes(s, i + 1, lo) % 2 == 0
  }

  predicate OpensAt(s: string, i: nat) {
    i + 1 < |s| && s[i] == '/' && s[i + 1] == '*'
  }

  predicate ClosesAt(s: string, i: nat) {
    i + 1 < |s| && s[i] == '*' && s[i + 1] == '/'
  }

  // The block-comment ranges produced by the scan from column `i` on, `prev` being the last `/*` seen.
  function BlockRangesFrom(s: string, i: nat, prev: nat): seq<(nat, nat)>
    decreases |s| - i
  {
    if i + 1 >= |s| then []
    else if OpensAt(s, i) then BlockRangesFrom(s, i + 1, i)
    else if ClosesAt(s, i) then [(prev, i + 2)] + BlockRangesFrom(s, i + 1, prev)
    else BlockRangesFrom(s, i + 1, prev)
  }

  // The `ranges` list of `within_comment`: empty when the line has no `/*`.
  function BlockRanges(s: string): seq<(nat, nat)> {
    var index := Find(s, "/*");
    if index == -1 then [] else BlockRangesFrom(s, index, index)
  }

  predicate InComment(s: string, lo: nat, hi: int)
    requires lo <= |s|
  {
    LineCommentBefore(s, lo) || InsideSome(BlockRanges(s), lo, hi)
  }

  // Every range runs from a `/*` to the end of a later `*/`, with no other `/*` between them.
  lemma {:induction false} BlockRangesFromArePairs(s: string, i: nat, prev: nat)
    requires OpensAt(s, prev) && prev < i
    requires forall p :: prev < p < i ==> !OpensAt(s, p)
    ensures forall r :: r in BlockRangesFrom(s, i, prev) ==>
              r.0 + 2 < r.1 && OpensAt(s, r.0) && ClosesAt(s, r.1 - 2)
              && forall p :: r.0 < p < r.1 - 2 ==> !OpensAt(s, p)
    decreases |s| - i
  {
    if i + 1 < |s| {
      if OpensAt(s, i) {
        BlockRangesFromArePairs(s, i + 1, i);
      } else {
        BlockRangesFromArePairs(s, i + 1, prev);
      }
    }
  }

  // Every `*/` at or after column `i` closes exactly one range.
  lemma {:induction false} BlockRangesFromCoverCloses(s: string, i: nat, prev: nat, c: nat)
    requires i <= c && ClosesAt(s, c)
    ensures exists k :: 0 <= k < |BlockRangesFrom(s, i, prev)| && BlockRangesFrom(s, i, prev)[k].1 == c + 2
    decreases |s| - i
  {
    var next := if OpensAt(s, i) then i else prev;
    if i < c {
      BlockRangesFromCoverCloses(s, i + 1, next, c);
      var k :| 0 <= k < |BlockRangesFrom(s, i + 1, next)| && BlockRangesFrom(s, i + 1, next)[k].1 == c + 2;
      if !OpensAt(s, i) && ClosesAt(s, i) {
        assert BlockRangesFrom(s, i, prev) == [(prev, i + 2)] + BlockRangesFrom(s, i + 1, next);
        assert BlockRangesFrom(s, i, prev)[k + 1] == BlockRangesFrom(s, i + 1, next)[k];
      } else {
        assert BlockRangesFrom(s, i, prev) == BlockRangesFrom(s, i + 1, next);
      }
    } else {
      assert BlockRangesFrom(s, i, prev)[0].1 == c + 2;
    }
  }

  // The ranges are exactly the `/* ... */` pairs of the line: each one is a pair with no `/*`
  // inside, and each `*/` after the first `/*` ends one of them.
  lemma BlockRangesArePairs(s: string)
    ensures forall r :: r in BlockRanges(s) ==>
              r.0 + 2 < r.1 && OpensAt(s, r.0) && ClosesAt(s, r.1 - 2)
              && forall p :: r.0 < p < r.1 - 2 ==> !OpensAt(s, p)
    ensures forall c: nat :: Find(s, "/*") != -1 && Find(s, "/*") < c && ClosesAt(s, c) ==>
              exists k :: 0 <= k < |BlockRanges(s)| && BlockRanges(s)[k].1 == c + 2
  {
    var index := Find(s, "/*");
    if index != -1 {
      assert s[index..index + 2] == "/*";
      assert OpensAt(s, index);
      BlockRangesFromArePairs(s, index + 1, index);
      assert BlockRanges(s) == BlockRangesFrom(s, index + 1, index);
      forall c: nat | index < c && ClosesAt(s, c)
        ensures exists k :: 0 <= k < |BlockRanges(s)| && BlockRanges(s)[k].1 == c + 2
      {
        BlockRangesFromCoverCloses(s, index + 1, index, c);
      }
    }
  }

  // `within_comment(s, lo, hi)`; the source indexes `s[lo - 1]`, so `lo` is at most the line length.
  method WithinComment(s: string, lo: nat, hi: int) returns (b: bool)
    requires lo <= |s|
    ensures b == InComment(s, lo, hi)
  {
    // Look left from lo for a // that is not inside quotes
    var inQuote := false;
    var i: int := lo - 1;
    while i >= 1
      invariant 0 <= i + 1 <= lo
      invariant inQuote == (CountQuotes(s, i + 1, lo) % 2 == 1)
      invariant forall k :: i < k < lo && 1 <= k && SlashPairAt(s, k) ==> CountQuotes(s, k + 1, lo) % 2 == 1
    {
      if !inQuote && s[i - 1] == '/' && s[i] == '/' {
        assert SlashPairAt(s, i) && CountQuotes(s, i + 1, lo) % 2 == 0;
        return true;
      }
      if s[i] == '"' && (i == 0 || s[i - 1] != '\\') {
        inQuote := !inQuote;
      }
      i := i - 1;
    }
    assert !LineCommentBefore(s, lo);

    var index := Find(s, "/*");
    if index == -1 {
      return false;
    }
    var ranges: seq<(nat, nat)> := [];
    var prev: nat := index;
    var j: nat := index;
    while j + 1 < |s|
      invariant index <= j
      invariant ranges + BlockRangesFrom(s, j, prev) == BlockRanges(s)
      decreases |s| - j
    {
      if s[j] == '/' && s[j + 1] == '*' {
        prev := j;
      } else if s[j] == '*' && s[j + 1] == '/' {
        ranges := ranges + [(prev, j + 2)];
      }
      j := j + 1;
    }
    assert ranges == BlockRanges(s);
    b := exists k :: 0 <= k < |ranges| && lo > ranges[k].0 && hi < ranges[k].1;
  }
}
