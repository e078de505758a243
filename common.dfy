/**
 * Text primitives shared by the C checker and the assembly checker:
 * positions, character classes, substring search and the Python string
 * operations the checkers rely on (`find`, `lstrip`, `rstrip`, `startswith`,
 * `replace` of tabs), written out over `seq<char>`.
 */
module Common {

  datatype Option<T> = None | Some(value: T)

  /** A position in the text with tabs replaced: a line index and a column index, both from 0. */
  datatype Loc = Loc(line: nat, col: nat)

  /** `a` comes strictly before `b` in reading order. */
  predicate Before(a: Loc, b: Loc) {
    a.line < b.line || (a.line == b.line && a.col < b.col)
  }

  /** Characters that may continue a C identifier (VARS_ALLOWED_CHARS). */
  predicate IsIdentChar(c: char) {
    ('a' <= c <= 'z') || ('A' <= c <= 'Z') || ('0' <= c <= '9') || c == '_'
  }

  predicate IsDigit(c: char) {
    '0' <= c <= '9'
  }

  /** The characters Python's argument-less `strip`/`lstrip`/`rstrip` remove. */
  predicate IsPyWhitespace(c: char) {
    c == ' ' || c == '\t' || c == '\n' || c == '\r' || c as int == 0x0B || c as int == 0x0C
  }

  predicate StartsWith(s: string, p: string) {
    |p| <= |s| && s[..|p|] == p
  }

  predicate EndsWith(s: string, p: string) {
    |p| <= |s| && s[|s| - |p|..] == p
  }

  /** `p` occurs in `s` at index `k`. */
  predicate OccursAt(s: string, p: string, k: nat) {
    k + |p| <= |s| && s[k..k + |p|] == p
  }

  /** Python's `s.find(p, i)`: the first index at or after `i` where `p` occurs, or -1. */
  function FindFrom(s: string, p: string, i: nat): (r: int)
    decreases |s| - i
    ensures r == -1 || (i <= r && OccursAt(s, p, r))
    ensures forall k: nat :: i <= k && (r == -1 || k < r) ==> !OccursAt(s, p, k)
  {
    if i + |p| > |s| then -1
    else if s[i..i + |p|] == p then i
    else FindFrom(s, p, i + 1)
  }

  /** Python's `s.find(p)`. */
  function Find(s: string, p: string): (r: int)
    ensures r == -1 || (0 <= r && OccursAt(s, p, r))
  {
    FindFrom(s, p, 0)
  }

  /** Number of leading characters Python's `lstrip()` removes. */
  function LeadingWs(s: string): (k: nat)
    ensures k <= |s|
    ensures forall i :: 0 <= i < k ==> IsPyWhitespace(s[i])
    ensures k < |s| ==> !IsPyWhitespace(s[k])
  {
    if s == [] || !IsPyWhitespace(s[0]) then 0 else 1 + LeadingWs(s[1..])
  }

  /** Python's `s.lstrip()`. */
  function LStrip(s: string): string {
    s[LeadingWs(s)..]
  }

  /** The column of the first non-blank character: `len(line) - len(line.lstrip())`. */
  function Indent(s: string): nat {
    LeadingWs(s)
  }

  /** `len(s.lstrip()) == 0`. */
  predicate IsBlank(s: string) {
    LeadingWs(s) == |s|
  }

  /** Number of trailing characters Python's `rstrip()` removes. */
  function TrailingWs(s: string): (k: nat)
    ensures k <= |s|
    ensures forall i :: |s| - k <= i < |s| ==> IsPyWhitespace(s[i])
    ensures k < |s| ==> !IsPyWhitespace(s[|s| - 1 - k])
  {
    if s == [] || !IsPyWhitespace(s[|s| - 1]) then 0 else 1 + TrailingWs(s[..|s| - 1])
  }

  /** Python's `s.rstrip()`. */
  function RStrip(s: string): string {
    s[..|s| - TrailingWs(s)]
  }

  /** The regular expression `( |\t)+\Z` matched at the start of `s`: a non-empty run of spaces and tabs. */
  predicate IsSpaceTabRun(s: string) {
    |s| > 0 && forall i :: 0 <= i < |s| ==> s[i] == ' ' || s[i] == '\t'
  }

  /** Number of leading space characters (the regular-expression prefix ` *`). */
  function LeadingSpaces(s: string): (k: nat)
    ensures k <= |s|
    ensures forall i :: 0 <= i < k ==> s[i] == ' '
    ensures k < |s| ==> s[k] != ' '
  {
    if s == [] || s[0] != ' ' then 0 else 1 + LeadingSpaces(s[1..])
  }

  /** The regular expression ` *` followed by the literal `p`, matched at the start of `s`. */
  predicate SpacesThen(s: string, p: string) {
    StartsWith(s[LeadingSpaces(s)..], p)
  }

  /** Python's `range(a, b)` as a sequence of line indices. */
  function Range(a: nat, b: int): (r: seq<nat>)
    ensures |r| == if b <= a then 0 else b - a
    ensures forall i :: 0 <= i < |r| ==> r[i] == a + i
    decreases b - a
  {
    if b <= a then [] else [a] + Range(a + 1, b)
  }

  /** A group of line indices is the run `first, first + 1, ..., last`. */
  predicate IsRun(g: seq<nat>, first: nat, last: nat) {
    first <= last && |g| == last - first + 1 && forall i :: 0 <= i < |g| ==> g[i] == first + i
  }

  /** `s.replace('\t', ' ' * width)`. */
  function ReplaceTabs(s: string, width: nat): (r: string)
    ensures '\t' !in r
    ensures '\t' !in s ==> r == s
  {
    if s == [] then []
    else (if s[0] == '\t' then seq(width, _ => ' ') else [s[0]]) + ReplaceTabs(s[1..], width)
  }

  /** Replacing tabs twice is replacing them once. */
  lemma ReplaceTabsIdempotent(s: string, width: nat)
    ensures ReplaceTabs(ReplaceTabs(s, width), width) == ReplaceTabs(s, width)
  {
  }

  /** Drops the newline `readline` leaves at the end of a line. */
  function StripNewline(l: string): (r: string)
    ensures '\n' !in l ==> r == l
    ensures |l| > 0 && l[|l| - 1] == '\n' ==> r + ['\n'] == l
  {
    if |l| > 0 && l[|l| - 1] == '\n' then l[..|l| - 1] else l
  }

  /** The working copy of a file: each line without its newline and with each tab replaced. */
  function PrepareLines(raw: seq<string>, tabLength: nat): (lines: seq<string>)
    ensures |lines| == |raw|
    ensures forall i :: 0 <= i < |lines| ==> '\t' !in lines[i]
  {
    seq(|raw|, i requires 0 <= i < |raw| => ReplaceTabs(StripNewline(raw[i]), tabLength))
  }
}
