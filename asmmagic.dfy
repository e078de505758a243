// Magic numbers and magic literals of the assembly checker (`contains_magic` of
// `SStyleChecker`).
//
// The numbers are found by the same pattern as in the C checker, on the line
// with a space in front, and only `0`, `-1` and `1` are allowed. Unlike the C
// checker, a number is tested for being in a comment at its own column, and
// the comment test is `within_comment` of the assembly checker, so a number
// right after an unquoted `#` or `@` (an immediate operand) counts as
// commented. Literals are found and tested as in the C checker, at the first
// occurrence of their text. The comment test may fail (see `AsmComments`), and
// then so does the whole check: `None`.
module AsmMagic {
  import opened Common
  import opened AsmComments
  import CMagic
  import CComments

  // NON_MAGIC_NUMBERS of the assembly checker.
  const AsmNonMagic: seq<string> := ["0", "-1", "1"]

  // ---------------------------------------------------------------- numbers

  // The number `s[lo..hi]` makes the line magic: it is not allowed and its column is not in a comment.
  predicate NumberWitness(s: string, spans: seq<Span>, n: nat, lo: nat, hi: nat)
    requires lo <= hi <= |s|
  {
    s[lo..hi] !in AsmNonMagic && InCommentSpec(s, spans, n, lo) == Some(false)
  }

  // The first loop of `contains_magic`, from the `t`-th number on.
  function NumbersFrom(s: string, spans: seq<Span>, n: nat, t: nat): Option<bool>
    decreases |CMagic.Candidates(s, 0)| - t
  {
    var c := CMagic.Candidates(s, 0);
    if t >= |c| then Some(false)
    else if s[c[t].0..c[t].1] in AsmNonMagic then NumbersFrom(s, spans, n, t + 1)
    else match InCommentSpec(s, spans, n, c[t].0)
      case None => None
      case Some(true) => NumbersFrom(s, spans, n, t + 1)
      case Some(false) => Some(true)
  }

  // ---------------------------------------------------------------- literals

  // The comment test of the literal `s[prev..i + 1]`, made at the first occurrence of its text.
  function LiteralInComment(s: string, spans: seq<Span>, n: nat, prev: nat, i: nat): Option<bool>
    requires prev <= i < |s|
  {
    var literal := s[prev..i + 1];
    assert OccursAt(s, literal, prev);
    InCommentSpec(s, spans, n, Find(s, literal))
  }

  // The scan for literals delimited by `q` from index `i`, in quote state `inQuote` with the last
  // opening delimiter at `prev`: whether a literal is reported, and the quote state at the end.
  function LiteralsFrom(s: string, spans: seq<Span>, n: nat, q: char, i: nat, inQuote: bool, prev: nat): Option<(bool, bool)>
    requires prev <= i <= |s|
    decreases |s| - i
  {
    if i >= |s| then Some((false, inQuote))
    else if CMagic.IsUnescaped(s, i, q) then
      if inQuote then
        if s[prev..i + 1] in AsmNonMagic then LiteralsFrom(s, spans, n, q, i + 1, false, prev)
        else match LiteralInComment(s, spans, n, prev, i)
          case None => None
          case Some(true) => LiteralsFrom(s, spans, n, q, i + 1, false, prev)
          case Some(false) => Some((true, false))
      else LiteralsFrom(s, spans, n, q, i + 1, true, i)
    else LiteralsFrom(s, spans, n, q, i + 1, inQuote, prev)
  }

  // One literal scan of `contains_magic`: nothing happens when `q` does not occur.
  function LiteralScan(s: string, spans: seq<Span>, n: nat, q: char, inQuote: bool): Option<(bool, bool)> {
    var index := Find(s, [q]);
    if index == -1 then Some((false, inQuote)) else LiteralsFrom(s, spans, n, q, index, inQuote, index)
  }

  // `contains_magic(line, n)` with the table `spans`.
  function AsmMagicSpec(line: string, spans: seq<Span>, n: nat): Option<bool> {
    var s := [' '] + line;
    match NumbersFrom(s, spans, n, 0)
    case None => None
    case Some(true) => Some(true)
    case Some(false) =>
      match LiteralScan(s, spans, n, '"', false)
      case None => None
      case Some((true, _)) => Some(true)
      case Some((false, inQuote)) =>
        match LiteralScan(s, spans, n, '\'', inQuote)
        case None => None
        case Some((found, _)) => Some(found)
  }

  // ---------------------------------------------------------------- methods

  // `contains_magic(line, n)`, reading the table `spans`.
  method ContainsMagic(line: string, spans: seq<Span>, n: nat) returns (r: Option<bool>)
    ensures r == AsmMagicSpec(line, spans, n)
  {
    var s := [' '] + line;
    var numbers := CMagic.Candidates(s, 0);
    var t := 0;
    while t < |numbers|
      invariant t <= |numbers|
      invariant NumbersFrom(s, spans, n, t) == NumbersFrom(s, spans, n, 0)
    {
      var (lo, hi) := numbers[t];
      if s[lo..hi] !in AsmNonMagic {
        var inComment := WithinComment(s, spans, n, lo, hi);
        if inComment.None? {
          return None;
        }
        if !inComment.value {
          return Some(true);
        }
      }
      t := t + 1;
    }
    var dq := ScanLiteralLoop(s, spans, n, '"', false);
    if dq.None? || dq.value.0 {
      return if dq.None? then None else Some(true);
    }
    var sq := ScanLiteralLoop(s, spans, n, '\'', dq.value.1);
    r := if sq.None? then None else Some(sq.value.0);
  }

  // The loop of `contains_magic` over one kind of quote.
  method ScanLiteralLoop(s: string, spans: seq<Span>, n: nat, q: char, inQuote0: bool) returns (r: Option<(bool, bool)>)
    ensures r == LiteralScan(s, spans, n, q, inQuote0)
  {
    var inQuote := inQuote0;
    var index := Find(s, [q]);
    if index == -1 {
      return Some((false, inQuote));
    }
    var prevQuote: nat := index;
    var i: nat := index;
    while i < |s|
      invariant prevQuote <= i <= |s|
      invariant LiteralsFrom(s, spans, n, q, i, inQuote, prevQuote) == LiteralScan(s, spans, n, q, inQuote0)
      decreases |s| - i
    {
      if s[i] == q && (i == 0 || s[i - 1] != '\\') {
        if inQuote {
          inQuote := false;
          var literal := s[prevQuote..i + 1];
          if literal !in AsmNonMagic {
            assert OccursAt(s, literal, prevQuote);
            var k := Find(s, literal);
            var inComment := WithinComment(s, spans, n, k, k + |literal|);
            if inComment.None? {
              return None;
            }
            if !inComment.value {
              return Some((true, false));
            }
          }
        } else {
          inQuote := true;
          prevQuote := i;
        }
      }
      i := i + 1;
    }
    r := Some((false, inQuote));
  }

  // ---------------------------------------------------------------- properties

  // Candidate `k` of the line is allowed, or stands in a comment.
  predicate NumberPasses(s: string, spans: seq<Span>, n: nat, k: nat)
    requires k < |CMagic.Candidates(s, 0)|
  {
    var c := CMagic.Candidates(s, 0);
    s[c[k].0..c[k].1] in AsmNonMagic || InCommentSpec(s, spans, n, c[k].0) == Some(true)
  }

  // The number loop answers `false` exactly when every number is allowed or commented, and answers
  // `true` only for a number that makes the line magic.
  lemma NumbersFromMeaning(s: string, spans: seq<Span>, n: nat, t: nat)
    ensures NumbersFrom(s, spans, n, t) == Some(false) <==>
              forall k :: t <= k < |CMagic.Candidates(s, 0)| ==> NumberPasses(s, spans, n, k)
    ensures var c := CMagic.Candidates(s, 0);
            NumbersFrom(s, spans, n, t) == Some(true) ==> exists k :: t <= k < |c| && NumberWitness(s, spans, n, c[k].0, c[k].1)
  {
    NumbersFromFalse(s, spans, n, t);
    NumbersFromTrue(s, spans, n, t);
  }

  lemma {:induction false} NumbersFromFalse(s: string, spans: seq<Span>, n: nat, t: nat)
    ensures NumbersFrom(s, spans, n, t) == Some(false) <==>
              forall k :: t <= k < |CMagic.Candidates(s, 0)| ==> NumberPasses(s, spans, n, k)
    decreases |CMagic.Candidates(s, 0)| - t
  {
    if t < |CMagic.Candidates(s, 0)| {
      NumbersFromFalse(s, spans, n, t + 1);
      if !NumberPasses(s, spans, n, t) {
        assert NumbersFrom(s, spans, n, t) != Some(false);
      } else {
        assert NumbersFrom(s, spans, n, t) == NumbersFrom(s, spans, n, t + 1);
      }
    }
  }

  lemma {:induction false} NumbersFromTrue(s: string, spans: seq<Span>, n: nat, t: nat)
    ensures var c := CMagic.Candidates(s, 0);
            NumbersFrom(s, spans, n, t) == Some(true) ==> exists k :: t <= k < |c| && NumberWitness(s, spans, n, c[k].0, c[k].1)
    decreases |CMagic.Candidates(s, 0)| - t
  {
    var c := CMagic.Candidates(s, 0);
    if t < |c| && NumbersFrom(s, spans, n, t) == Some(true) {
      if s[c[t].0..c[t].1] !in AsmNonMagic && InCommentSpec(s, spans, n, c[t].0) == Some(false) {
        NumberWitnessAt(s, spans, n, t, t);
      } else {
        assert NumbersFrom(s, spans, n, t + 1) == Some(true);
        NumbersFromTrue(s, spans, n, t + 1);
      }
    } else {
      assert NumbersFrom(s, spans, n, t) != Some(true);
    }
  }

  lemma NumberWitnessAt(s: string, spans: seq<Span>, n: nat, t: nat, k: nat)
    requires var c := CMagic.Candidates(s, 0);
             t <= k < |c| && NumberWitness(s, spans, n, c[k].0, c[k].1)
    ensures var c := CMagic.Candidates(s, 0);
            exists k :: t <= k < |c| && NumberWitness(s, spans, n, c[k].0, c[k].1)
  {
  }

  // The literal `s[a..b + 1]` opens with `q`, closes with an unescaped `q`, is not allowed and its first
  // occurrence is not in a comment.
  predicate LiteralWitness(s: string, spans: seq<Span>, n: nat, q: char, a: nat, b: nat) {
    a <= b < |s| && s[a] == q && CMagic.IsUnescaped(s, b, q)
    && s[a..b + 1] !in AsmNonMagic && LiteralInComment(s, spans, n, a, b) == Some(false)
  }

  // A literal is reported only when it has a witness.
  lemma {:induction false} LiteralsFromWitness(s: string, spans: seq<Span>, n: nat, q: char, i: nat, inQuote: bool, prev: nat)
    requires prev <= i <= |s|
    requires inQuote ==> prev < |s| && s[prev] == q
    ensures var r := LiteralsFrom(s, spans, n, q, i, inQuote, prev);
            r.Some? && r.value.0 ==> exists a, b :: LiteralWitness(s, spans, n, q, a, b)
    decreases |s| - i
  {
    if i < |s| {
      if CMagic.IsUnescaped(s, i, q) {
        if inQuote {
          if s[prev..i + 1] !in AsmNonMagic && LiteralInComment(s, spans, n, prev, i) == Some(false) {
            assert LiteralWitness(s, spans, n, q, prev, i);
          } else {
            LiteralsFromWitness(s, spans, n, q, i + 1, false, prev);
          }
        } else {
          LiteralsFromWitness(s, spans, n, q, i + 1, true, i);
        }
      } else {
        LiteralsFromWitness(s, spans, n, q, i + 1, inQuote, prev);
      }
    }
  }

  // A literal scan reports only a witnessed literal, whatever quote state it starts in.
  lemma LiteralScanWitness(s: string, spans: seq<Span>, n: nat, q: char, inQuote: bool)
    ensures var r := LiteralScan(s, spans, n, q, inQuote);
            r.Some? && r.value.0 ==> exists a, b :: LiteralWitness(s, spans, n, q, a, b)
  {
    CMagic.FindChar(s, q);
    var index := Find(s, [q]);
    if index != -1 {
      LiteralsFromWitness(s, spans, n, q, index, inQuote, index);
    }
  }

  // Every reason for a line to be magic: a number outside the allow-list at an uncommented column, or a
  // literal outside the allow-list whose first occurrence is not commented.
  lemma AsmMagicWitness(line: string, spans: seq<Span>, n: nat)
    ensures var s := [' '] + line;
            var c := CMagic.Candidates(s, 0);
            AsmMagicSpec(line, spans, n) == Some(true) ==>
              (exists k :: 0 <= k < |c| && NumberWitness(s, spans, n, c[k].0, c[k].1))
              || (exists a, b :: LiteralWitness(s, spans, n, '"', a, b))
              || (exists a, b :: LiteralWitness(s, spans, n, '\'', a, b))
  {
    var s := [' '] + line;
    NumbersFromMeaning(s, spans, n, 0);
    LiteralScanWitness(s, spans, n, '"', false);
    var dq := LiteralScan(s, spans, n, '"', false);
    if dq.Some? {
      LiteralScanWitness(s, spans, n, '\'', dq.value.1);
    }
  }

  // The check fails only when the table holds an entry whose `*/` came before any `/*`.
  lemma AsmMagicFailure(line: string, spans: seq<Span>, n: nat)
    ensures AsmMagicSpec(line, spans, n).None? ==> exists k :: 0 <= k < |spans| && spans[k].start.None?
  {
    if forall k :: 0 <= k < |spans| ==> spans[k].start.Some? {
      forall lo: int ensures SpanScan(spans, n, lo).Some? {
        SpanScanTotal(spans, n, lo);
      }
      AllSome(line, spans, n);
    }
  }

  // With every entry started, each comment test answers, and so does the whole check.
  lemma AllSome(line: string, spans: seq<Span>, n: nat)
    requires forall lo: int :: SpanScan(spans, n, lo).Some?
    ensures AsmMagicSpec(line, spans, n).Some?
  {
    var s := [' '] + line;
    NumbersSome(s, spans, n, 0);
    LiteralsSome(s, spans, n, '"', false);
    var dq := LiteralScan(s, spans, n, '"', false);
    LiteralsSome(s, spans, n, '\'', dq.value.1);
  }

  lemma {:induction false} NumbersSome(s: string, spans: seq<Span>, n: nat, t: nat)
    requires forall lo: int :: SpanScan(spans, n, lo).Some?
    ensures NumbersFrom(s, spans, n, t).Some?
    decreases |CMagic.Candidates(s, 0)| - t
  {
    if t < |CMagic.Candidates(s, 0)| {
      NumbersSome(s, spans, n, t + 1);
    }
  }

  lemma LiteralsSome(s: string, spans: seq<Span>, n: nat, q: char, inQuote: bool)
    requires forall lo: int :: SpanScan(spans, n, lo).Some?
    ensures LiteralScan(s, spans, n, q, inQuote).Some?
  {
    var index := Find(s, [q]);
    if index != -1 {
      LiteralsFromSome(s, spans, n, q, index, inQuote, index);
    }
  }

  lemma {:induction false} LiteralsFromSome(s: string, spans: seq<Span>, n: nat, q: char, i: nat, inQuote: bool, prev: nat)
    requires prev <= i <= |s|
    requires forall lo: int :: SpanScan(spans, n, lo).Some?
    ensures LiteralsFrom(s, spans, n, q, i, inQuote, prev).Some?
    decreases |s| - i
  {
    if i < |s| {
      LiteralsFromSome(s, spans, n, q, i + 1, false, prev);
      LiteralsFromSome(s, spans, n, q, i + 1, true, i);
      LiteralsFromSome(s, spans, n, q, i + 1, inQuote, prev);
    }
  }

  // A number right after a `#` (an immediate operand) that is not inside a double-quoted literal is in
  // a comment by the assembly checker's test, whatever the table holds.
  lemma ImmediateIsCommented(s: string, spans: seq<Span>, n: nat, lo: nat)
    requires 2 <= lo <= |s| && s[lo - 1] == '#'
    ensures InCommentSpec(s, spans, n, lo) == Some(true)
  {
    assert CComments.CountQuotes(s, lo, lo) == 0;
    MarkerWins(s, spans, n, lo, lo - 1);
  }

  // The number `s[lo..hi]` is allowed, or is an immediate operand.
  predicate AllowedOrImmediate(s: string, lo: nat, hi: nat)
    requires lo <= hi <= |s|
  {
    s[lo..hi] in AsmNonMagic || (2 <= lo && s[lo - 1] == '#')
  }

  // A line without quotes whose numbers are all allowed or immediates is not magic.
  lemma ImmediatesPass(line: string, spans: seq<Span>, n: nat)
    requires '"' !in line && '\'' !in line
    requires forall k :: 0 <= k < |CMagic.Candidates([' '] + line, 0)| ==>
               AllowedOrImmediate([' '] + line, CMagic.Candidates([' '] + line, 0)[k].0, CMagic.Candidates([' '] + line, 0)[k].1)
    ensures AsmMagicSpec(line, spans, n) == Some(false)
  {
    var s := [' '] + line;
    var c := CMagic.Candidates(s, 0);
    forall k | 0 <= k < |c|
      ensures NumberPasses(s, spans, n, k)
    {
      assert AllowedOrImmediate(s, c[k].0, c[k].1);
      if s[c[k].0..c[k].1] !in AsmNonMagic {
        ImmediateIsCommented(s, spans, n, c[k].0);
      }
    }
    NumbersFromFalse(s, spans, n, 0);
    assert '"' !in s && '\'' !in s;
    CMagic.FindChar(s, '"');
    CMagic.FindChar(s, '\'');
  }
}
