// Magic numbers and magic literals of the C checker (`contains_magic`).
//
// The line is prefixed with a space. The numbers are the matches of the
// pattern `[^a-zA-Z0-9_]+(-|)((0x|0|)[0-9]+)`, found left to right without
// overlap; the unsigned number (the pattern's second group) is what is
// compared with the allow-list, and its first occurrence in the line is what
// is tested for being in a comment. Then the double-quoted literals, and then
// the single-quoted ones, are scanned the same way; the single-quote scan
// starts in whatever quote state the double-quote scan ended in.
module CMagic {
  import opened Common
  import opened CComments

  // NON_MAGIC_NUMBERS.
  const NonMagic: seq<string> := [
    "0", "-1", "1", "\"\\n\"", "'\\n'", "'\\0'",
    "\"r\"", "\"w\"", "\"a\"", "\"r+\"", "\"w+\"", "\"a+\"",
    "\"rb\"", "\"wb\"", "\"ab\"", "\"r+b\"", "\"w+b\"", "\"a+b\"",
    "\"rb+\"", "\"wb+\"", "\"ab+\""]

  // ---------------------------------------------------------------- numbers

  // The end of the run of digits that starts at `q`.
  function DigitsEnd(s: string, q: nat): (e: nat)
    requires q <= |s|
    ensures q <= e <= |s| && (forall k :: q <= k < e ==> IsDigit(s[k])) && (e < |s| ==> !IsDigit(s[e]))
    decreases |s| - q
  {
    if q < |s| && IsDigit(s[q]) then DigitsEnd(s, q + 1) else q
  }

  // The end of the run of non-identifier characters that starts at `p`.
  function OthersEnd(s: string, p: nat): (e: nat)
    requires p <= |s|
    ensures p <= e <= |s| && (forall k :: p <= k < e ==> !IsIdentChar(s[k])) && (e < |s| ==> IsIdentChar(s[e]))
    decreases |s| - p
  {
    if p < |s| && !IsIdentChar(s[p]) then OthersEnd(s, p + 1) else p
  }

  // The end of the number (group `(0x|0|)[0-9]+`) that starts with the digit at `q`: `0x` and its digits
  // when a digit follows the `0x`, otherwise the run of digits.
  function NumberEnd(s: string, q: nat): (e: nat)
    requires q < |s| && IsDigit(s[q])
    ensures q < e <= |s|
  {
    if OccursAt(s, "0x", q) && q + 2 < |s| && IsDigit(s[q + 2]) then DigitsEnd(s, q + 2) else DigitsEnd(s, q)
  }

  // `findall` of the magic-number pattern from index `p`, as the spans `[lo, hi)` of the numbers.
  function Candidates(s: string, p: nat): (c: seq<(nat, nat)>)
    requires p <= |s|
    ensures forall k :: 0 <= k < |c| ==> p < c[k].0 < c[k].1 <= |s|
    decreases |s| - p
  {
    if p >= |s| then []
    else if IsIdentChar(s[p]) then Candidates(s, p + 1)
    else
      var q := OthersEnd(s, p);
      if q < |s| && IsDigit(s[q]) then [(q, NumberEnd(s, q))] + Candidates(s, NumberEnd(s, q))
      else Candidates(s, q)
  }

  // The text `s[lo..hi]` first occurs outside comments.
  predicate FirstOccurrenceUncommented(s: string, text: string) {
    var k := Find(s, text);
    0 <= k && !InComment(s, k, k + |text|)
  }

  // A number that makes the line magic.
  predicate NumberReported(s: string, span: (nat, nat))
    requires span.0 <= span.1 <= |s|
  {
    var number := s[span.0..span.1];
    number !in NonMagic && FirstOccurrenceUncommented(s, number)
  }

  // ---------------------------------------------------------------- literals

  predicate IsUnescaped(s: string, i: nat, q: char)
    requires i < |s|
  {
    s[i] == q && (i == 0 || s[i - 1] != '\\')
  }

  // A quoted literal `s[prev..i + 1]` that makes the line magic.
  predicate LiteralReported(s: string, prev: nat, i: nat)
    requires prev <= i < |s|
  {
    var literal := s[prev..i + 1];
    literal !in NonMagic && FirstOccurrenceUncommented(s, literal)
  }

  // The scan for literals delimited by `q` from index `i`, in quote state `inQuote` with the last
  // opening delimiter at `prev`: whether a literal is reported, and the quote state at the end.
  function ScanLiterals(s: string, q: char, i: nat, inQuote: bool, prev: nat): (bool, bool)
    requires prev <= i <= |s|
    decreases |s| - i
  {
    if i >= |s| then (false, inQuote)
    else if IsUnescaped(s, i, q) then
      if inQuote then
        if LiteralReported(s, prev, i) then (true, false) else ScanLiterals(s, q, i + 1, false, prev)
      else ScanLiterals(s, q, i + 1, true, i)
    else ScanLiterals(s, q, i + 1, inQuote, prev)
  }

  // One literal scan of `contains_magic`: nothing happens when `q` does not occur.
  function LiteralScan(s: string, q: char, inQuote: bool): (bool, bool) {
    var index := Find(s, [q]);
    if index == -1 then (false, inQuote) else ScanLiterals(s, q, index, inQuote, index)
  }

  // A number of the line makes it magic.
  predicate NumberMagic(s: string) {
    exists k :: 0 <= k < |Candidates(s, 0)| && NumberReported(s, Candidates(s, 0)[k])
  }

  // `contains_magic(line)`, on the line with the space in front.
  predicate MagicIn(s: string) {
    NumberMagic(s) || LiteralScan(s, '"', false).0 || LiteralScan(s, '\'', LiteralScan(s, '"', false).1).0
  }

  // `contains_magic(line)`.
  predicate MagicSpec(line: string) {
    MagicIn([' '] + line)
  }

  // ---------------------------------------------------------------- methods

  // The loop of `contains_magic` over one kind of quote.
  method ScanLiteralLoop(s: string, q: char, inQuote0: bool) returns (found: bool, inQuote: bool)
    ensures (found, inQuote) == LiteralScan(s, q, inQuote0)
  {
    inQuote := inQuote0;
    var index := Find(s, [q]);
    if index == -1 {
      return false, inQuote;
    }
    var prevQuote: nat := index;
    var i: nat := index;
    while i < |s|
      invariant prevQuote <= i <= |s|
      invariant ScanLiterals(s, q, i, inQuote, prevQuote) == LiteralScan(s, q, inQuote0)
      decreases |s| - i
    {
      if s[i] == q && (i == 0 || s[i - 1] != '\\') {
        if inQuote {
          inQuote := false;
          var literal := s[prevQuote..i + 1];
          if literal !in NonMagic {
            var k := Find(s, literal);
            if 0 <= k {
              var inComment := WithinComment(s, k, k + |literal|);
              if !inComment {
                return true, false;
              }
            }
          }
        } else {
          inQuote := true;
          prevQuote := i;
        }
      }
      i := i + 1;
    }
    found := false;
  }

  // One number found by the pattern, as the body of the first loop of `contains_magic`.
  method CheckNumber(s: string, lo: nat, hi: nat) returns (b: bool)
    requires lo <= hi <= |s|
    ensures b == NumberReported(s, (lo, hi))
  {
    var number := s[lo..hi];
    b := false;
    if number !in NonMagic {
      var k := Find(s, number);
      if 0 <= k {
        var inComment := WithinComment(s, k, k + |number|);
        b := !inComment;
      }
    }
  }

  // `contains_magic(line)`.
  method ContainsMagic(line: string) returns (b: bool)
    ensures b == MagicSpec(line)
  {
    var s := [' '] + line;
    var numbers := Candidates(s, 0);
    var t := 0;
    while t < |numbers|
      invariant t <= |numbers|
      invariant forall k :: 0 <= k < t ==> !NumberReported(s, numbers[k])
    {
      var reported := CheckNumber(s, numbers[t].0, numbers[t].1);
      if reported {
        return true;
      }
      t := t + 1;
    }
    var dq, inQuote := ScanLiteralLoop(s, '"', false);
    if dq {
      return true;
    }
    var sq, _ := ScanLiteralLoop(s, '\'', inQuote);
    b := sq;
  }

  // ---------------------------------------------------------------- properties

  // The span is a number preceded by a character that cannot continue an identifier: a run of digits,
  // or `0x` followed by a run of digits.
  predicate IsNumberSpan(s: string, lo: nat, hi: nat) {
    0 < lo < hi <= |s| && !IsIdentChar(s[lo - 1]) && IsDigit(s[lo])
    && ((forall k :: lo <= k < hi ==> IsDigit(s[k]))
        || (hi > lo + 2 && s[lo] == '0' && s[lo + 1] == 'x' && forall k :: lo + 2 <= k < hi ==> IsDigit(s[k])))
  }

  // Every span is a number, and the spans come in increasing order without overlap.
  predicate WellFormed(s: string, c: seq<(nat, nat)>) {
    (forall k :: 0 <= k < |c| ==> IsNumberSpan(s, c[k].0, c[k].1))
    && (forall k :: 0 < k < |c| ==> c[k - 1].1 <= c[k].0)
  }

  // A number found at `q` after a run of non-identifier characters is a number span.
  lemma NumberAt(s: string, p: nat, q: nat)
    requires p < q < |s| && IsDigit(s[q]) && forall k :: p <= k < q ==> !IsIdentChar(s[k])
    ensures IsNumberSpan(s, q, NumberEnd(s, q))
  {
    assert !IsIdentChar(s[q - 1]);
    if OccursAt(s, "0x", q) && q + 2 < |s| && IsDigit(s[q + 2]) {
      assert s[q..q + 2][0] == s[q] && s[q..q + 2][1] == s[q + 1];
    }
  }

  lemma WellFormedCons(s: string, x: (nat, nat), t: seq<(nat, nat)>)
    requires IsNumberSpan(s, x.0, x.1) && WellFormed(s, t)
    requires forall k :: 0 <= k < |t| ==> x.1 <= t[k].0
    ensures WellFormed(s, [x] + t)
  {
    var c := [x] + t;
    forall k | 0 < k < |c| ensures IsNumberSpan(s, c[k].0, c[k].1) && c[k - 1].1 <= c[k].0 {
      assert c[k] == t[k - 1];
      if k > 1 {
        assert c[k - 1] == t[k - 2];
      }
    }
  }

  // Every match of `findall` is such a number, in increasing order without overlap.
  lemma {:induction false} CandidatesShape(s: string, p: nat)
    requires p <= |s|
    ensures WellFormed(s, Candidates(s, p))
    decreases |s| - p
  {
    if p < |s| {
      if IsIdentChar(s[p]) {
        CandidatesShape(s, p + 1);
      } else {
        var q := OthersEnd(s, p);
        if q < |s| && IsDigit(s[q]) {
          var e := NumberEnd(s, q);
          CandidatesShape(s, e);
          NumberAt(s, p, q);
          WellFormedCons(s, (q, e), Candidates(s, e));
        } else {
          CandidatesShape(s, q);
        }
      }
    }
  }

  // A digit directly after an identifier character (the `1` of `x1`) never starts a candidate number.
  lemma GluedDigitNotCandidate(s: string, q: nat)
    requires 0 < q < |s| && IsIdentChar(s[q - 1])
    ensures forall k :: 0 <= k < |Candidates(s, 0)| ==> Candidates(s, 0)[k].0 != q
  {
    CandidatesShape(s, 0);
    var c := Candidates(s, 0);
    forall k | 0 <= k < |c| ensures c[k].0 != q {
      assert IsNumberSpan(s, c[k].0, c[k].1);
    }
  }

  // The numbers are unsigned: the entry `-1` of the allow-list never matches a number.
  lemma NumberNeverNegative(s: string)
    ensures forall k :: 0 <= k < |Candidates(s, 0)| ==>
              var (lo, hi) := Candidates(s, 0)[k];
              s[lo..hi] != "-1"
  {
    CandidatesShape(s, 0);
    forall k | 0 <= k < |Candidates(s, 0)|
      ensures var (lo, hi) := Candidates(s, 0)[k]; s[lo..hi] != "-1"
    {
      var (lo, hi) := Candidates(s, 0)[k];
      assert IsNumberSpan(s, lo, hi);
      assert s[lo..hi][0] == s[lo];
    }
  }

  // The literal `s[a..b + 1]` opens with the delimiter `q`, closes with an unescaped `q`, is not
  // allow-listed and first occurs outside comments.
  predicate LiteralWitness(s: string, q: char, a: nat, b: nat) {
    a <= b < |s| && s[a] == q && IsUnescaped(s, b, q)
    && s[a..b + 1] !in NonMagic && FirstOccurrenceUncommented(s, s[a..b + 1])
  }

  // A literal is reported only when it has a witness.
  lemma {:induction false} ScanLiteralsWitness(s: string, q: char, i: nat, inQuote: bool, prev: nat)
    requires prev <= i <= |s|
    requires inQuote ==> prev < |s| && s[prev] == q
    ensures ScanLiterals(s, q, i, inQuote, prev).0 ==> exists a, b :: LiteralWitness(s, q, a, b)
    decreases |s| - i
  {
    if i < |s| {
      if IsUnescaped(s, i, q) {
        if inQuote {
          if LiteralReported(s, prev, i) {
            assert LiteralWitness(s, q, prev, i);
          } else {
            ScanLiteralsWitness(s, q, i + 1, false, prev);
          }
        } else {
          ScanLiteralsWitness(s, q, i + 1, true, i);
        }
      } else {
        ScanLiteralsWitness(s, q, i + 1, inQuote, prev);
      }
    }
  }

  // The scan for `q` starts at the first `q` of the line.
  lemma FindChar(s: string, q: char)
    ensures var index := Find(s, [q]); index != -1 ==> 0 <= index < |s| && s[index] == q
  {
    var index := Find(s, [q]);
    if index != -1 {
      assert s[index..index + 1][0] == s[index];
    }
  }

  // Without the delimiter on the line the scan reports nothing and keeps its quote state.
  lemma LiteralScanAbsent(s: string, q: char, inQuote: bool)
    requires q !in s
    ensures LiteralScan(s, q, inQuote) == (false, inQuote)
  {
    FindChar(s, q);
  }

  // A literal scan reports only a witnessed literal, whatever quote state it starts in.
  lemma LiteralScanWitness(s: string, q: char, inQuote: bool)
    ensures LiteralScan(s, q, inQuote).0 ==> exists a, b :: LiteralWitness(s, q, a, b)
  {
    FindChar(s, q);
    var index := Find(s, [q]);
    if index != -1 {
      ScanLiteralsWitness(s, q, index, inQuote, index);
    }
  }

  // Every reason for a line to be magic: a number outside the allow-list whose first occurrence is not
  // commented, or a literal outside the allow-list whose first occurrence is not commented. The
  // single-quote scan may start inside a quote left open by the double-quote scan, so its literal may
  // open with an escaped `'`, or be the lone `'` that closes it.
  lemma MagicWitness(line: string)
    ensures MagicSpec(line) ==>
              NumberMagic([' '] + line)
              || (exists a, b :: LiteralWitness([' '] + line, '"', a, b))
              || (exists a, b :: LiteralWitness([' '] + line, '\'', a, b))
  {
    var s := [' '] + line;
    LiteralScanWitness(s, '"', false);
    LiteralScanWitness(s, '\'', LiteralScan(s, '"', false).1);
  }

  // A line with no candidate number and no quote characters is not magic.
  lemma NoCandidateNoQuoteNotMagic(line: string)
    requires Candidates([' '] + line, 0) == []
    requires '"' !in line && '\'' !in line
    ensures !MagicSpec(line)
  {
    var s := [' '] + line;
    assert '"' !in s && '\'' !in s;
    LiteralScanAbsent(s, '"', false);
    LiteralScanAbsent(s, '\'', false);
  }

  // Allow-listed numbers are never reported, whatever their position.
  lemma AllowListedNumbersPass(line: string)
    requires '"' !in line && '\'' !in line
    requires var s := [' '] + line;
             forall k :: 0 <= k < |Candidates(s, 0)| ==> s[Candidates(s, 0)[k].0..Candidates(s, 0)[k].1] in ["0", "1"]
    ensures !MagicSpec(line)
  {
    var s := [' '] + line;
    assert '"' !in s && '\'' !in s;
    LiteralScanAbsent(s, '"', false);
    LiteralScanAbsent(s, '\'', false);
  }
}
