/**
 * Double-quoted spans of one line (`within_quotes`, identical in both checkers).
 *
 * A double quote delimits a literal when it is not directly preceded by a
 * backslash. The delimiters are paired left to right; each pair gives the
 * range `(open, close + 1)`, and a span `[lo, hi)` is within quotes when it
 * lies strictly between the two quotes of one pair.
 */
module Quotes {
  import opened Common

  /** The character at `i` is a `"` not directly preceded by a backslash. */
  predicate IsUnescapedQuote(s: string, i: nat)
    requires i < |s|
  {
    s[i] == '"' && (i == 0 || s[i - 1] != '\\')
  }

  /** Indices of the unescaped quotes of `s` below `upto`, in scan order. */
  function QuotesBelow(s: string, upto: nat): seq<nat>
    requires upto <= |s|
  {
    if upto == 0 then []
    else QuotesBelow(s, upto - 1) + (if IsUnescapedQuote(s, upto - 1) then [upto - 1] else [])
  }

  /** The `ranges` list of `within_quotes`: consecutive delimiters paired up, the last one dropped when unpaired. */
  function Pairs(u: seq<nat>): seq<(nat, nat)> {
    seq(|u| / 2, k requires 0 <= k < |u| / 2 => (u[2 * k], u[2 * k + 1] + 1))
  }

  function QuoteRanges(s: string): seq<(nat, nat)> {
    Pairs(QuotesBelow(s, |s|))
  }

  /** `[lo, hi)` lies strictly inside one of `ranges` (the `any(...)` of the source). */
  predicate InsideSome(ranges: seq<(nat, nat)>, lo: int, hi: int) {
    exists i :: 0 <= i < |ranges| && lo > ranges[i].0 && hi < ranges[i].1
  }

  predicate InQuotes(s: string, lo: int, hi: int) {
    InsideSome(QuoteRanges(s), lo, hi)
  }

  /** The quote list holds exactly the unescaped quotes below `upto`, strictly ascending. */
  lemma {:induction false} QuotesBelowExact(s: string, upto: nat)
    requires upto <= |s|
    ensures forall p: nat :: p in QuotesBelow(s, upto) <==> p < upto && IsUnescapedQuote(s, p)
    ensures forall i, j :: 0 <= i < j < |QuotesBelow(s, upto)| ==>
              QuotesBelow(s, upto)[i] < QuotesBelow(s, upto)[j]
  {
    if upto > 0 {
      QuotesBelowExact(s, upto - 1);
      var prev := QuotesBelow(s, upto - 1);
      var extra: seq<nat> := if IsUnescapedQuote(s, upto - 1) then [upto - 1] else [];
      assert QuotesBelow(s, upto) == prev + extra;
      forall i | 0 <= i < |prev| ensures prev[i] < upto - 1 {
        assert prev[i] in prev;
      }
      forall p: nat
        ensures p in prev + extra <==> p < upto && IsUnescapedQuote(s, p)
      {
        assert p in prev + extra <==> p in prev || p in extra;
      }
    }
  }

  /** `[lo, hi)` lies strictly between the quotes of the k-th delimiter pair. */
  predicate BetweenPair(u: seq<nat>, k: int, lo: int, hi: int) {
    0 <= k < |u| / 2 && u[2 * k] < lo && hi <= u[2 * k + 1]
  }

  /** Within quotes iff strictly between the 2k-th and (2k+1)-th unescaped quotes for some k. */
  lemma InQuotesIff(s: string, lo: int, hi: int)
    ensures InQuotes(s, lo, hi) ==> exists k :: BetweenPair(QuotesBelow(s, |s|), k, lo, hi)
    ensures (exists k :: BetweenPair(QuotesBelow(s, |s|), k, lo, hi)) ==> InQuotes(s, lo, hi)
  {
    var u := QuotesBelow(s, |s|);
    if InQuotes(s, lo, hi) {
      var k := InQuotesPair(u, lo, hi);
    }
    if exists k :: BetweenPair(u, k, lo, hi) {
      var k :| BetweenPair(u, k, lo, hi);
      PairInQuotes(u, k, lo, hi);
    }
  }

  lemma InQuotesPair(u: seq<nat>, lo: int, hi: int) returns (k: int)
    requires InsideSome(Pairs(u), lo, hi)
    ensures BetweenPair(u, k, lo, hi)
  {
    var ranges := Pairs(u);
    k :| 0 <= k < |ranges| && lo > ranges[k].0 && hi < ranges[k].1;
    assert ranges[k] == (u[2 * k], u[2 * k + 1] + 1);
  }

  lemma PairInQuotes(u: seq<nat>, k: int, lo: int, hi: int)
    requires BetweenPair(u, k, lo, hi)
    ensures InsideSome(Pairs(u), lo, hi)
  {
    var ranges := Pairs(u);
    assert ranges[k] == (u[2 * k], u[2 * k + 1] + 1);
  }

  /** No unescaped quote below `upto` when no `"` occurs there. */
  lemma {:induction false} NoQuotesBelow(s: string, upto: nat)
    requires upto <= |s|
    requires forall i :: 0 <= i < upto ==> s[i] != '"'
    ensures QuotesBelow(s, upto) == []
  {
    if upto > 0 {
      NoQuotesBelow(s, upto - 1);
    }
  }

  /** A line without any `"` has no quoted span. */
  lemma NoQuoteCharNotInQuotes(s: string, lo: int, hi: int)
    requires '"' !in s
    ensures !InQuotes(s, lo, hi)
  {
    NoQuotesBelow(s, |s|);
  }

  /** Every range pairs an unescaped opening quote with the next unescaped quote. */
  lemma RangesAreQuotePairs(s: string, r: (nat, nat))
    requires r in QuoteRanges(s)
    ensures r.0 + 1 < r.1 <= |s|
    ensures IsUnescapedQuote(s, r.0) && IsUnescapedQuote(s, r.1 - 1)
    ensures forall p :: r.0 < p < r.1 - 1 ==> !IsUnescapedQuote(s, p)
  {
    var u := QuotesBelow(s, |s|);
    QuotesBelowExact(s, |s|);
    var k :| 0 <= k < |u| / 2 && Pairs(u)[k] == r;
    assert r == (u[2 * k], u[2 * k + 1] + 1);
    assert u[2 * k] in u && u[2 * k + 1] in u;
    forall p | r.0 < p < r.1 - 1
      ensures !IsUnescapedQuote(s, p)
    {
      NotBetweenConsecutive(u, 2 * k, p);
    }
  }

  /** In a strictly ascending list nothing lies strictly between two neighbours. */
  lemma NotBetweenConsecutive(u: seq<nat>, i: nat, p: nat)
    requires i + 1 < |u| && u[i] < p < u[i + 1]
    requires forall a, b :: 0 <= a < b < |u| ==> u[a] < u[b]
    ensures p !in u
  {
    forall j | 0 <= j < |u|
      ensures u[j] != p
    {
      if j < i {
        assert u[j] < u[i];
      } else if i + 1 < j {
        assert u[i + 1] < u[j];
      }
    }
  }

  /** The pairing step: appending a delimiter to the list of delimiters seen so far. */
  lemma PairsAppend(u: seq<nat>, x: nat)
    ensures |u| % 2 == 0 ==> Pairs(u + [x]) == Pairs(u)
    ensures |u| % 2 == 1 ==> Pairs(u + [x]) == Pairs(u) + [(u[|u| - 1], x + 1)]
  {
    var v := u + [x];
    if |u| % 2 == 1 {
      assert |v| / 2 == |u| / 2 + 1;
      assert 2 * (|u| / 2) == |u| - 1;
    }
  }

  /** `within_quotes(s, lo, hi)`. */
  method WithinQuotes(s: string, lo: int, hi: int) returns (b: bool)
    ensures b == InQuotes(s, lo, hi)
  {
    var ranges: seq<(nat, nat)> := [];
    var index := Find(s, "\"");
    QuotesBeforeFirst(s, index);
    if index == -1 {
      assert QuoteRanges(s) == [];
      return false;
    }
    var inQuote := false;
    var prevQuote: nat := index;
    var i: nat := index;
    while i < |s|
      invariant index <= i <= |s|
      invariant inQuote == (|QuotesBelow(s, i)| % 2 == 1)
      invariant inQuote ==> prevQuote == QuotesBelow(s, i)[|QuotesBelow(s, i)| - 1]
      invariant ranges == Pairs(QuotesBelow(s, i))
    {
      PairsAppend(QuotesBelow(s, i), i);
      if s[i] == '"' && (i == 0 || s[i - 1] != '\\') {
        if inQuote {
          inQuote := false;
          ranges := ranges + [(prevQuote, i + 1)];
        } else {
          inQuote := true;
          prevQuote := i;
        }
      }
      i := i + 1;
    }
    assert ranges == QuoteRanges(s);
    b := exists j :: 0 <= j < |ranges| && lo > ranges[j].0 && hi < ranges[j].1;
  }

  /** Before the first `"` that `find` reports there is no unescaped quote; without one, none at all. */
  lemma QuotesBeforeFirst(s: string, index: int)
    requires index == Find(s, "\"")
    ensures index == -1 ==> QuotesBelow(s, |s|) == []
    ensures index != -1 ==> 0 <= index < |s| && QuotesBelow(s, index) == []
  {
    var upto := if index == -1 then |s| else index;
    forall p | 0 <= p < upto ensures s[p] != '"' {
      assert !OccursAt(s, "\"", p);
      assert s[p..p + 1] == [s[p]];
    }
    NoQuotesBelow(s, upto);
  }
}
