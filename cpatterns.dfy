// The anchored regular expressions of the C checker, written out by hand
// (each is matched at the start of the string, as `re.match` does), and the
// three patterns that are kept uninterpreted: the function-definition and
// function-header patterns and the "looks like code" test used on comments.
module CPatterns {
  import opened Common

  // ` *//.*`: the text starts with `//` after spaces.
  predicate IsLineComment(s: string) {
    SpacesThen(s, "//")
  }

  // ` */\*`: the text starts with `/*` after spaces.
  predicate IsBlockComment(s: string) {
    SpacesThen(s, "/*")
  }

  // `( |\t)+\Z`: the whole text is a non-empty run of spaces and tabs.
  predicate IsWhiteSpace(s: string) {
    IsSpaceTabRun(s)
  }

  const DirectiveNames: seq<string> :=
    ["define", "include", "undef", "ifdef", "ifndef", "if", "else", "elif", "endif", "error", "pragma"]

  // ` *#(define|include|...)`: a preprocessor directive name after `#`.
  predicate IsDirective(s: string) {
    exists i :: 0 <= i < |DirectiveNames| && SpacesThen(s, "#" + DirectiveNames[i])
  }

  // ` *((case .+ *:)|(default *:))`: a `case` label with a colon later on the line, or `default` and a colon.
  predicate IsSwitchCaseLine(s: string) {
    var r := s[LeadingSpaces(s)..];
    (StartsWith(r, "case ") && exists p :: 6 <= p < |r| && r[p] == ':' && '\n' !in r[5..p])
    || (StartsWith(r, "default") && SpacesThen(r[7..], ":"))
  }

  // ` *// *TODO`.
  predicate IsTodoComment(s: string) {
    var k := LeadingSpaces(s);
    StartsWith(s[k..], "//") && SpacesThen(s[k + 2..], "TODO")
  }

  // `FUNC_REGEXP`, `FUNC_HDR_REGEXP` and the `code_regexp` list, left uninterpreted. The first two
  // are matched against the lines of a statement joined together; being uninterpreted, they are
  // given the lines themselves.
  datatype Patterns = Patterns(funcDef: seq<string> -> bool, funcHdr: seq<string> -> bool, isCode: string -> bool)
}
