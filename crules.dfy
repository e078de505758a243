// The rules of the C checker as functions of the text: which diagnostics each
// check produces, and the configuration (`indent_amt`, `case_indent`) that
// the constructor derives from the text. The checker class runs the source's
// loops and is proved to produce exactly these diagnostics.
module CRules {
  import opened Common
  import opened Keywords
  import opened Scanners
  import opened CPatterns
  import opened CParse
  import opened CMagic

  const LineLimit: nat := 80
  const TabLength: nat := 2
  const NewlinesLimit: nat := 2

  // The three ways `check_indentation` compares indentation; `all_exact` wins over `relax`.
  datatype Mode = FirstExact | AllExact | Relax

  // One printed diagnostic, reduced to its kind and the lines it names (one line: `first == last`).
  datatype DiagKind =
    | LineTooLong | InconsistentIndentation | ExtraWhitespaceOnEmpty | ExcessNewlines
    | ExtraWhitespaceBehind(term: string) | StatementsBehind(term: string) | OnNextLine(term: string)
    | MagicNumber | CommentedOutCode | TodoLeftIn

  datatype Diag = Diag(kind: DiagKind, first: nat, last: nat)

  // Every index of `ns` is a line of the text.
  predicate AllIn(lines: seq<string>, ns: seq<nat>) {
    forall k :: 0 <= k < |ns| ==> ns[k] < |lines|
  }

  // Every diagnostic of `ds` names lines of the text.
  predicate InText(lines: seq<string>, ds: seq<Diag>) {
    forall k :: 0 <= k < |ds| ==> ds[k].first < |lines| && ds[k].last < |lines|
  }

  lemma InTextJoin(lines: seq<string>, a: seq<Diag>, b: seq<Diag>)
    requires InText(lines, a) && InText(lines, b)
    ensures InText(lines, a + b)
  {
    forall k | 0 <= k < |a + b| ensures (a + b)[k].first < |lines| && (a + b)[k].last < |lines| {
      if k >= |a| {
        assert (a + b)[k] == b[k - |a|];
      }
    }
  }

  // ---------------------------------------------------------------- indentation

  // Line `n` breaks the rule of `mode` for a group whose first line is `first`. Lines of only spaces
  // and tabs are not checked; an empty line is checked, with indentation 0.
  predicate Misindented(lines: seq<string>, n: nat, first: nat, amt: int, mode: Mode)
    requires n < |lines|
  {
    !IsWhiteSpace(lines[n])
    && match mode
       case AllExact => Indent(lines[n]) != amt
       case Relax => Indent(lines[n]) < amt
       case FirstExact => if n == first then Indent(lines[n]) != amt else Indent(lines[n]) < amt
  }

  // Some line of the group breaks the rule: `indent_error` at the end of `check_indentation`.
  predicate IndentError(lines: seq<string>, group: seq<nat>, amt: int, mode: Mode)
    requires AllIn(lines, group)
  {
    exists k :: 0 <= k < |group| && Misindented(lines, group[k], group[0], amt, mode)
  }

  // `handle_whitespace(group)`: one diagnostic when whitespace checking is on and some line is
  // longer than one character, and one when the run is longer than the newline limit.
  function WhitespaceDiags(lines: seq<string>, checkWs: bool, group: seq<nat>): seq<Diag>
    requires |group| > 0 && AllIn(lines, group)
  {
    var first := group[0];
    var last := group[|group| - 1];
    (if checkWs && exists k :: 0 <= k < |group| && |lines[group[k]]| > 1
     then [Diag(ExtraWhitespaceOnEmpty, first, last)] else [])
    + (if |group| > NewlinesLimit then [Diag(ExcessNewlines, first, last)] else [])
  }

  // What `check_indentation` reports for its whitespace-only lines, one `handle_whitespace([n])` each.
  function EmptyLineDiags(lines: seq<string>, checkWs: bool, ns: seq<nat>): seq<Diag>
    requires AllIn(lines, ns)
    decreases |ns|
  {
    if ns == [] then []
    else
      var n := ns[|ns| - 1];
      EmptyLineDiags(lines, checkWs, ns[..|ns| - 1])
      + (if IsWhiteSpace(lines[n]) then WhitespaceDiags(lines, checkWs, [n]) else [])
  }

  // `check_indentation(group, amt, ...)`: the whitespace diagnostics in line order, then at most one
  // "Inconsistent Indentation" naming the whole group.
  function IndentDiags(lines: seq<string>, checkWs: bool, group: seq<nat>, amt: int, mode: Mode): seq<Diag>
    requires AllIn(lines, group)
  {
    EmptyLineDiags(lines, checkWs, group)
    + (if IndentError(lines, group, amt, mode) then [Diag(InconsistentIndentation, group[0], group[|group| - 1])] else [])
  }

  function CountKind(ds: seq<Diag>, kind: DiagKind): nat {
    if ds == [] then 0 else CountKind(ds[..|ds| - 1], kind) + (if ds[|ds| - 1].kind == kind then 1 else 0)
  }

  lemma {:induction false} CountKindAppend(a: seq<Diag>, b: seq<Diag>, kind: DiagKind)
    ensures CountKind(a + b, kind) == CountKind(a, kind) + CountKind(b, kind)
    decreases |b|
  {
    if b != [] {
      assert (a + b)[..|a + b| - 1] == a + b[..|b| - 1];
      assert (a + b)[|a + b| - 1] == b[|b| - 1];
      CountKindAppend(a, b[..|b| - 1], kind);
    } else {
      assert a + b == a;
    }
  }

  // A whitespace-only line checked for indentation is only ever reported as extra whitespace.
  lemma {:induction false} EmptyLineDiagsKind(lines: seq<string>, checkWs: bool, ns: seq<nat>)
    requires AllIn(lines, ns)
    ensures CountKind(EmptyLineDiags(lines, checkWs, ns), InconsistentIndentation) == 0
    decreases |ns|
  {
    if ns != [] {
      var init := ns[..|ns| - 1];
      EmptyLineDiagsKind(lines, checkWs, init);
      var n := ns[|ns| - 1];
      var tail := if IsWhiteSpace(lines[n]) then WhitespaceDiags(lines, checkWs, [n]) else [];
      CountKindAppend(EmptyLineDiags(lines, checkWs, init), tail, InconsistentIndentation);
    }
  }

  // One call reports "Inconsistent Indentation" at most once, and exactly once when a line breaks the
  // rule.
  lemma InconsistentAtMostOnce(lines: seq<string>, checkWs: bool, group: seq<nat>, amt: int, mode: Mode)
    requires AllIn(lines, group)
    ensures CountKind(IndentDiags(lines, checkWs, group, amt, mode), InconsistentIndentation)
            == if IndentError(lines, group, amt, mode) then 1 else 0
  {
    EmptyLineDiagsKind(lines, checkWs, group);
    var tail := if IndentError(lines, group, amt, mode)
                then [Diag(InconsistentIndentation, group[0], group[|group| - 1])] else [];
    CountKindAppend(EmptyLineDiags(lines, checkWs, group), tail, InconsistentIndentation);
    assert CountKind(tail, InconsistentIndentation) == |tail| by {
      if tail != [] {
        assert tail[..0] == [];
      }
    }
  }

  // `relax` accepts everything the default mode accepts, which accepts everything `all_exact` accepts.
  lemma ModesOrdered(lines: seq<string>, group: seq<nat>, amt: int)
    requires AllIn(lines, group)
    ensures IndentError(lines, group, amt, Relax) ==> IndentError(lines, group, amt, FirstExact)
    ensures IndentError(lines, group, amt, FirstExact) ==> IndentError(lines, group, amt, AllExact)
  {
    if IndentError(lines, group, amt, Relax) {
      var k :| 0 <= k < |group| && Misindented(lines, group[k], group[0], amt, Relax);
      assert Misindented(lines, group[k], group[0], amt, FirstExact);
    }
    if IndentError(lines, group, amt, FirstExact) {
      var k :| 0 <= k < |group| && Misindented(lines, group[k], group[0], amt, FirstExact);
      assert Misindented(lines, group[k], group[0], amt, AllExact);
    }
  }

  // A group whose every checked line sits exactly at `amt` passes in every mode.
  lemma ExactIndentPasses(lines: seq<string>, group: seq<nat>, amt: int, mode: Mode)
    requires AllIn(lines, group)
    requires forall k :: 0 <= k < |group| && !IsWhiteSpace(lines[group[k]]) ==> Indent(lines[group[k]]) == amt
    ensures !IndentError(lines, group, amt, mode)
  {
  }

  // In the default mode only the first line must sit exactly at `amt`: a later line indented further
  // passes, the same line as first line fails.
  lemma DefaultFirstLineExact(lines: seq<string>, n: nat, m: nat, amt: int)
    requires n < m < |lines| && !IsWhiteSpace(lines[n]) && !IsWhiteSpace(lines[m])
    requires Indent(lines[n]) == amt && Indent(lines[m]) > amt
    ensures !IndentError(lines, [n, m], amt, FirstExact)
    ensures IndentError(lines, [m], amt, FirstExact)
    ensures IndentError(lines, [n, m], amt, AllExact)
  {
    assert Misindented(lines, [m][0], m, amt, FirstExact);
    assert Misindented(lines, [n, m][1], n, amt, AllExact);
  }

  // ---------------------------------------------------------------- block comments

  // `handle_block_comment`: the first line must sit at `amt`, every later non-blank line at `amt + 1`
  // so that its `*` lines up under the opening `/*`.
  predicate BlockMisindented(lines: seq<string>, n: nat, first: nat, amt: int)
    requires n < |lines|
  {
    !IsBlank(lines[n]) && Indent(lines[n]) != (if n == first then amt else amt + 1)
  }

  predicate BlockIndentError(lines: seq<string>, group: seq<nat>, amt: int)
    requires AllIn(lines, group)
  {
    exists k :: 0 <= k < |group| && BlockMisindented(lines, group[k], group[0], amt)
  }

  // A continuation line at the opening line's own indentation is reported, where the default mode of
  // `check_indentation` would accept it.
  lemma BlockContinuationOneIn(lines: seq<string>, n: nat, m: nat, amt: int)
    requires n < m < |lines| && !IsBlank(lines[m]) && !IsWhiteSpace(lines[m]) && Indent(lines[m]) == amt
    requires !IsWhiteSpace(lines[n]) && Indent(lines[n]) == amt
    ensures BlockIndentError(lines, [n, m], amt)
    ensures !IndentError(lines, [n, m], amt, FirstExact)
  {
    assert BlockMisindented(lines, [n, m][1], n, amt);
  }

  // ---------------------------------------------------------------- text around terminators

  // `handle_trailing_string(trail, n, term)`.
  function TrailDiags(checkWs: bool, trail: string, n: nat, term: string): seq<Diag> {
    if |trail| == 0 then []
    else if IsWhiteSpace(trail) then
      (if |trail| > 1 && checkWs then [Diag(ExtraWhitespaceBehind(term), n, n)] else [])
    else if !IsLineComment(trail) then [Diag(StatementsBehind(term), n, n)]
    else []
  }

  // What may follow a terminator: nothing, one space, or a `//` comment; anything else that is not
  // only spaces and tabs is a statement that belongs on the next line.
  lemma TrailMeaning(checkWs: bool, trail: string, n: nat, term: string)
    ensures |trail| <= 1 && (trail == [] || trail[0] == ' ') ==> TrailDiags(checkWs, trail, n, term) == []
    ensures IsLineComment(trail) ==> TrailDiags(checkWs, trail, n, term) == []
    ensures !IsWhiteSpace(trail) && !IsLineComment(trail) && |trail| > 0 ==>
              TrailDiags(checkWs, trail, n, term) == [Diag(StatementsBehind(term), n, n)]
    ensures |TrailDiags(checkWs, trail, n, term)| <= 1
  {
    if IsLineComment(trail) {
      var k := LeadingSpaces(trail);
      assert trail[k..][0] == '/';
      assert trail[k] == '/';
    }
  }

  // `handle_leading_string(leading, n, term, amt)`: text before a closing brace. Spaces only: line
  // `n` is checked at `amt`; anything else belongs on the next line, and line `n` is checked one
  // indentation step (`unit`, the checker's `indent_amt`) further in.
  function LeadingDiags(lines: seq<string>, checkWs: bool, leading: string, n: nat, term: string, amt: int, unit: int): seq<Diag>
    requires n < |lines|
  {
    if |leading| == 0 then []
    else if IsWhiteSpace(leading) then IndentDiags(lines, checkWs, [n], amt, FirstExact)
    else [Diag(OnNextLine(term), n, n)] + IndentDiags(lines, checkWs, [n], amt + unit, FirstExact)
  }

  // The indentation checks of a header that ends with the `{` at `t`: with the `{` alone on its line,
  // the header lines and the brace line are checked separately; otherwise together.
  function HeaderIndentDiags(lines: seq<string>, checkWs: bool, first: nat, t: Loc, amt: int): seq<Diag>
    requires t.line < |lines| && t.col <= |lines[t.line]|
  {
    var line := lines[t.line];
    if IsWhiteSpace(line[..t.col]) then
      IndentDiags(lines, checkWs, Range(first, t.line), amt, FirstExact)
      + IndentDiags(lines, checkWs, [t.line], amt, FirstExact)
    else IndentDiags(lines, checkWs, Range(first, t.line + 1), amt, FirstExact)
  }

  // `handle_block_comment(group, amt)`: the indentation diagnostic, then the text after the `*/` of
  // the last line, when there is one.
  function BlockCommentDiags(lines: seq<string>, checkWs: bool, group: seq<nat>, amt: int): seq<Diag>
    requires |group| > 0 && AllIn(lines, group)
  {
    var last := group[|group| - 1];
    var index := Find(lines[last], "*/");
    (if BlockIndentError(lines, group, amt) then [Diag(InconsistentIndentation, group[0], last)] else [])
    + (if index != -1 then TrailDiags(checkWs, lines[last][index + 2..], last, "*/") else [])
  }

  // ---------------------------------------------------------------- magic numbers and line limit

  // `check_magic(ns)`: one diagnostic per magic line, in order.
  function MagicDiags(lines: seq<string>, ns: seq<nat>): seq<Diag>
    requires AllIn(lines, ns)
    decreases |ns|
  {
    if ns == [] then []
    else
      var n := ns[|ns| - 1];
      MagicDiags(lines, ns[..|ns| - 1]) + (if MagicSpec(lines[n]) then [Diag(MagicNumber, n, n)] else [])
  }

  // `check_line_limit` over the first `k` lines.
  function LineLimitDiags(lines: seq<string>, k: nat): seq<Diag>
    requires k <= |lines|
  {
    if k == 0 then []
    else LineLimitDiags(lines, k - 1) + (if |lines[k - 1]| > LineLimit then [Diag(LineTooLong, k - 1, k - 1)] else [])
  }

  // The line-limit diagnostics name exactly the lines longer than the limit, each once, in order.
  lemma {:induction false} LineLimitExact(lines: seq<string>, k: nat)
    requires k <= |lines|
    ensures forall d :: d in LineLimitDiags(lines, k) <==>
              d.kind == LineTooLong && d.first == d.last && d.first < k && |lines[d.first]| > LineLimit
    ensures forall i, j :: 0 <= i < j < |LineLimitDiags(lines, k)| ==>
              LineLimitDiags(lines, k)[i].first < LineLimitDiags(lines, k)[j].first
  {
    if k > 0 {
      LineLimitExact(lines, k - 1);
      var prev := LineLimitDiags(lines, k - 1);
      var all := LineLimitDiags(lines, k);
      forall i, j | 0 <= i < j < |all| ensures all[i].first < all[j].first {
        if j < |prev| {
          assert all[i] == prev[i] && all[j] == prev[j];
        } else {
          assert all[i] == prev[i] && all[i] in prev;
        }
      }
    }
  }

  // Every magic diagnostic names one line of `ns` that contains a magic number or literal.
  lemma {:induction false} MagicDiagsExact(lines: seq<string>, ns: seq<nat>)
    requires AllIn(lines, ns)
    ensures forall d :: d in MagicDiags(lines, ns) <==>
              d.kind == MagicNumber && d.first == d.last && d.first in ns && MagicSpec(lines[d.first])
    decreases |ns|
  {
    if ns != [] {
      var init := ns[..|ns| - 1];
      MagicDiagsExact(lines, init);
      assert ns == init + [ns[|ns| - 1]];
    }
  }

  // ---------------------------------------------------------------- comments

  // `strip.lstrip('/')`.
  function StripSlashes(s: string): (r: string)
    ensures r == [] || r[0] != '/'
  {
    if s != [] && s[0] == '/' then StripSlashes(s[1..]) else s
  }

  // What is stripped is a run of slashes at the front.
  lemma {:induction false} StripSlashesSuffix(s: string)
    ensures |StripSlashes(s)| <= |s|
    ensures StripSlashes(s) == s[|s| - |StripSlashes(s)|..]
    ensures forall i :: 0 <= i < |s| - |StripSlashes(s)| ==> s[i] == '/'
  {
    if s != [] && s[0] == '/' {
      var t := s[1..];
      StripSlashesSuffix(t);
      var r := StripSlashes(t);
      assert StripSlashes(s) == r;
      assert t[|t| - |r|..] == s[|s| - |r|..];
      forall i | 0 <= i < |s| - |r|
        ensures s[i] == '/'
      {
        if i > 0 {
          assert s[i] == t[i - 1];
        }
      }
    }
  }

  // The checks of `handle_comment` on the comment's first line after its indentation.
  function CommentDiags(lines: seq<string>, pats: Patterns, n: nat): seq<Diag>
    requires n < |lines|
  {
    (if pats.isCode(StripSlashes(LStrip(lines[n]))) then [Diag(CommentedOutCode, n, n)] else [])
    + (if IsTodoComment(lines[n]) then [Diag(TodoLeftIn, n, n)] else [])
  }

  // ---------------------------------------------------------------- diagnostics name lines of the text

  // Every check reports only lines of the text it was given.
  lemma WhitespaceDiagsInText(lines: seq<string>, checkWs: bool, group: seq<nat>)
    requires |group| > 0 && AllIn(lines, group)
    ensures InText(lines, WhitespaceDiags(lines, checkWs, group))
  {
  }

  lemma {:induction false} EmptyLineDiagsInText(lines: seq<string>, checkWs: bool, ns: seq<nat>)
    requires AllIn(lines, ns)
    ensures InText(lines, EmptyLineDiags(lines, checkWs, ns))
    decreases |ns|
  {
    if ns != [] {
      var n := ns[|ns| - 1];
      EmptyLineDiagsInText(lines, checkWs, ns[..|ns| - 1]);
      if IsWhiteSpace(lines[n]) {
        WhitespaceDiagsInText(lines, checkWs, [n]);
        InTextJoin(lines, EmptyLineDiags(lines, checkWs, ns[..|ns| - 1]), WhitespaceDiags(lines, checkWs, [n]));
      } else {
        assert EmptyLineDiags(lines, checkWs, ns) == EmptyLineDiags(lines, checkWs, ns[..|ns| - 1]) + [];
      }
    }
  }

  lemma IndentDiagsInText(lines: seq<string>, checkWs: bool, group: seq<nat>, amt: int, mode: Mode)
    requires AllIn(lines, group)
    ensures InText(lines, IndentDiags(lines, checkWs, group, amt, mode))
  {
    EmptyLineDiagsInText(lines, checkWs, group);
    var tail := if IndentError(lines, group, amt, mode) then [Diag(InconsistentIndentation, group[0], group[|group| - 1])] else [];
    InTextJoin(lines, EmptyLineDiags(lines, checkWs, group), tail);
  }

  lemma TrailDiagsInText(lines: seq<string>, checkWs: bool, trail: string, n: nat, term: string)
    requires n < |lines|
    ensures InText(lines, TrailDiags(checkWs, trail, n, term))
  {
  }

  lemma LeadingDiagsInText(lines: seq<string>, checkWs: bool, leading: string, n: nat, term: string, amt: int, unit: int)
    requires n < |lines|
    ensures InText(lines, LeadingDiags(lines, checkWs, leading, n, term, amt, unit))
  {
    IndentDiagsInText(lines, checkWs, [n], amt, FirstExact);
    IndentDiagsInText(lines, checkWs, [n], amt + unit, FirstExact);
    InTextJoin(lines, [Diag(OnNextLine(term), n, n)], IndentDiags(lines, checkWs, [n], amt + unit, FirstExact));
  }

  lemma HeaderIndentDiagsInText(lines: seq<string>, checkWs: bool, first: nat, t: Loc, amt: int)
    requires t.line < |lines| && t.col <= |lines[t.line]|
    ensures InText(lines, HeaderIndentDiags(lines, checkWs, first, t, amt))
  {
    if IsWhiteSpace(lines[t.line][..t.col]) {
      IndentDiagsInText(lines, checkWs, Range(first, t.line), amt, FirstExact);
      IndentDiagsInText(lines, checkWs, [t.line], amt, FirstExact);
      InTextJoin(lines, IndentDiags(lines, checkWs, Range(first, t.line), amt, FirstExact),
                 IndentDiags(lines, checkWs, [t.line], amt, FirstExact));
    } else {
      IndentDiagsInText(lines, checkWs, Range(first, t.line + 1), amt, FirstExact);
    }
  }

  lemma BlockCommentDiagsInText(lines: seq<string>, checkWs: bool, group: seq<nat>, amt: int)
    requires |group| > 0 && AllIn(lines, group)
    ensures InText(lines, BlockCommentDiags(lines, checkWs, group, amt))
  {
    var last := group[|group| - 1];
    var index := Find(lines[last], "*/");
    var indent := if BlockIndentError(lines, group, amt) then [Diag(InconsistentIndentation, group[0], last)] else [];
    var trail := if index != -1 then TrailDiags(checkWs, lines[last][index + 2..], last, "*/") else [];
    InTextJoin(lines, indent, trail);
  }

  lemma {:induction false} MagicDiagsInText(lines: seq<string>, ns: seq<nat>)
    requires AllIn(lines, ns)
    ensures InText(lines, MagicDiags(lines, ns))
    decreases |ns|
  {
    if ns != [] {
      var n := ns[|ns| - 1];
      MagicDiagsInText(lines, ns[..|ns| - 1]);
      InTextJoin(lines, MagicDiags(lines, ns[..|ns| - 1]), if MagicSpec(lines[n]) then [Diag(MagicNumber, n, n)] else []);
    }
  }

  lemma LineLimitDiagsInText(lines: seq<string>)
    ensures InText(lines, LineLimitDiags(lines, |lines|))
  {
    LineLimitExact(lines, |lines|);
    forall k | 0 <= k < |LineLimitDiags(lines, |lines|)|
      ensures LineLimitDiags(lines, |lines|)[k].first < |lines| && LineLimitDiags(lines, |lines|)[k].last < |lines|
    {
      assert LineLimitDiags(lines, |lines|)[k] in LineLimitDiags(lines, |lines|);
    }
  }

  lemma CommentDiagsInText(lines: seq<string>, pats: Patterns, n: nat)
    requires n < |lines|
    ensures InText(lines, CommentDiags(lines, pats, n))
  {
  }

  // ---------------------------------------------------------------- configuration

  // The line after the group that `parse_line(i)` yields: the source's `group[-1] + 1`.
  function NextAfter(p: Parsed): int {
    if p.group == [] then 0 else p.group[|p.group| - 1] + 1
  }

  // The walk over groups moves forward.
  lemma GroupAdvances(lines: seq<string>, pats: Patterns, i: nat)
    requires i < |lines| && ParseSpec(lines, pats, i).Some?
    ensures i < NextAfter(ParseSpec(lines, pats, i).value) <= |lines|
  {
    ParseGroupShape(lines, pats, i);
  }

  // The indentation of the first non-blank line after the header of the function whose group starts
  // at line `i`; `None` where the source fails (no terminator, or only blank lines after it).
  function BodyIndent(lines: seq<string>, i: nat): Option<nat>
    requires i < |lines|
  {
    match TerminatorSpec(lines, i, 0, None, false)
    case None => None
    case Some(t) =>
      var j := BlankRunEnd(lines, t.line + 1);
      if j < |lines| then Some(Indent(lines[j])) else None
  }

  // The indentation amount the constructor derives, walking the groups from line `i`: the body
  // indentation of the first function definition, else the default `TAB_LENGTH`. `None` where the
  // source fails.
  function IndentAmtFrom(lines: seq<string>, pats: Patterns, i: nat): Option<nat>
    decreases |lines| - i
  {
    if i >= |lines| then Some(TabLength)
    else match ParseSpec(lines, pats, i)
      case None => None
      case Some(p) =>
        GroupAdvances(lines, pats, i);
        if p.kind == Func then BodyIndent(lines, i)
        else IndentAmtFrom(lines, pats, NextAfter(p))
  }

  // The amount found is the default or the indentation of some non-blank line.
  lemma {:induction false} IndentAmtWitness(lines: seq<string>, pats: Patterns, i: nat)
    ensures IndentAmtFrom(lines, pats, i).Some? ==>
              IndentAmtFrom(lines, pats, i).value == TabLength
              || exists j :: 0 <= j < |lines| && !IsBlank(lines[j]) && IndentAmtFrom(lines, pats, i).value == Indent(lines[j])
    decreases |lines| - i
  {
    if i < |lines| {
      var p := ParseSpec(lines, pats, i);
      if p.Some? {
        GroupAdvances(lines, pats, i);
        if p.value.kind != Func {
          IndentAmtWitness(lines, pats, NextAfter(p.value));
        } else if BodyIndent(lines, i).Some? {
          var t := TerminatorSpec(lines, i, 0, None, false).value;
          var j := BlankRunEnd(lines, t.line + 1);
          assert !IsBlank(lines[j]);
        }
      }
    }
  }

  // A text where no line starts a function definition (and every line parses) keeps the default.
  lemma {:induction false} NoFunctionKeepsDefault(lines: seq<string>, pats: Patterns, i: nat)
    requires forall k :: i <= k < |lines| ==> ParseSpec(lines, pats, k).Some? && ParseSpec(lines, pats, k).value.kind != Func
    ensures IndentAmtFrom(lines, pats, i) == Some(TabLength)
    decreases |lines| - i
  {
    if i < |lines| {
      var p := ParseSpec(lines, pats, i).value;
      GroupAdvances(lines, pats, i);
      NoFunctionKeepsDefault(lines, pats, NextAfter(p));
    }
  }

  // The case indentation a `case` or `default` line sets, relative to the `switch` at `switchInd`.
  function CaseValue(caseInd: nat, switchInd: nat, amt: int): Option<int> {
    if caseInd - switchInd == 0 then Some(0) else Some(amt)
  }

  predicate IsCaseLine(line: string) {
    MatchSpec(line).Found? && IsSwitchCase(MatchSpec(line).kw)
  }

  // The inner loop of the switch detection: every `case`/`default` line from `j` to the end of the
  // text overwrites the value.
  function CaseScan(lines: seq<string>, j: nat, switchInd: nat, amt: int, cur: Option<int>): (r: Option<int>)
    ensures r == cur || r == Some(0) || r == Some(amt)
    decreases |lines| - j
  {
    if j >= |lines| then cur
    else
      var next := if IsCaseLine(lines[j]) then CaseValue(MatchSpec(lines[j]).index, switchInd, amt) else cur;
      CaseScan(lines, j + 1, switchInd, amt, next)
  }

  // The outer loop: every `switch` line from `i` on, with the colon its first case ends at. The
  // outer `None` is the source's failure when no colon follows a `switch`.
  function CaseIndentFrom(lines: seq<string>, i: nat, amt: int, cur: Option<int>): (r: Option<Option<int>>)
    ensures r.Some? ==> r.value == cur || r.value == Some(0) || r.value == Some(amt)
    decreases |lines| - i
  {
    if i >= |lines| then Some(cur)
    else
      var m := MatchSpec(lines[i]);
      if m.Found? && m.kw == Switch then
        match TerminatorSpec(lines, i, m.index, Some(':'), false)
        case None => None
        case Some(t) => CaseIndentFrom(lines, i + 1, amt, CaseScan(lines, t.line + 1, m.index, amt, cur))
      else CaseIndentFrom(lines, i + 1, amt, cur)
  }

  // The last `case` or `default` line scanned decides the value.
  lemma {:induction false} LastCaseWins(lines: seq<string>, j: nat, k: nat, switchInd: nat, amt: int, cur: Option<int>)
    requires j <= k < |lines| && IsCaseLine(lines[k])
    requires forall m :: k < m < |lines| ==> !IsCaseLine(lines[m])
    ensures CaseScan(lines, j, switchInd, amt, cur) == CaseValue(MatchSpec(lines[k]).index, switchInd, amt)
    decreases k - j
  {
    if j < k {
      var next := if IsCaseLine(lines[j]) then CaseValue(MatchSpec(lines[j]).index, switchInd, amt) else cur;
      LastCaseWins(lines, j + 1, k, switchInd, amt, next);
    } else {
      NoCaseKeeps(lines, k + 1, switchInd, amt, CaseValue(MatchSpec(lines[k]).index, switchInd, amt));
    }
  }

  // Without a `case` or `default` line the value is unchanged.
  lemma {:induction false} NoCaseKeeps(lines: seq<string>, j: nat, switchInd: nat, amt: int, cur: Option<int>)
    requires forall m :: j <= m < |lines| ==> !IsCaseLine(lines[m])
    ensures CaseScan(lines, j, switchInd, amt, cur) == cur
    decreases |lines| - j
  {
    if j < |lines| {
      NoCaseKeeps(lines, j + 1, switchInd, amt, cur);
    }
  }

  // A text without a `switch` leaves `case_indent` unset.
  lemma {:induction false} NoSwitchUnset(lines: seq<string>, i: nat, amt: int, cur: Option<int>)
    requires forall m :: i <= m < |lines| ==> !(MatchSpec(lines[m]).Found? && MatchSpec(lines[m]).kw == Switch)
    ensures CaseIndentFrom(lines, i, amt, cur) == Some(cur)
    decreases |lines| - i
  {
    if i < |lines| {
      NoSwitchUnset(lines, i + 1, amt, cur);
    }
  }
}
