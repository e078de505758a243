// Keyword recognition for the C checker (`match_keywords`).
//
// The keywords are tried in a fixed order; the first one that is accepted
// wins. A line no longer than the keyword is accepted only when it equals
// the keyword (at index 0). Otherwise only the FIRST occurrence of the
// keyword in the line is examined: it is accepted when it is not part of an
// identifier on either side and lies neither within quotes nor within a
// comment.
module Keywords {
  import opened Common
  import opened Quotes
  import opened CComments

  datatype Keyword = While | For | Switch | If | ElseIf | Else | Do | Case | Default | Break

  function Text(k: Keyword): (w: string)
    ensures |w| >= 2
  {
    match k
    case While => "while"
    case For => "for"
    case Switch => "switch"
    case If => "if"
    case ElseIf => "else if"
    case Else => "else"
    case Do => "do"
    case Case => "case"
    case Default => "default"
    case Break => "break"
  }

  // CONDITIONALS, UNCONDITIONALS, SWITCH_CASE and OTHERS, in the order they are tried
  const Order: seq<Keyword> := [While, For, Switch, If, ElseIf, Else, Do, Case, Default, Break]

  predicate IsConditional(k: Keyword) {
    k in {While, For, Switch, If, ElseIf}
  }

  predicate IsUnconditional(k: Keyword) {
    k == Else || k == Do
  }

  predicate IsSwitchCase(k: Keyword) {
    k == Case || k == Default
  }

  datatype KwMatch = NoKeyword | Found(kw: Keyword, index: nat)

  // The occurrence of `w` at `index` is not glued to identifier characters on either side.
  predicate Delimited(line: string, w: string, index: nat)
    requires index + |w| <= |line|
  {
    (index == 0 || !IsIdentChar(line[index - 1]))
    && (index + |w| == |line| || !IsIdentChar(line[index + |w|]))
  }

  // Where one keyword is accepted in `line`, if it is.
  function MatchOne(line: string, k: Keyword): (r: Option<nat>)
    ensures r.Some? ==> r.value < |line|
  {
    MatchWord(line, Text(k))
  }

  // `match_keywords`'s test of one keyword text `w`: a line no longer than `w` must start with it;
  // otherwise its first occurrence must be delimited and outside quotes and comments.
  function MatchWord(line: string, w: string): (r: Option<nat>)
    requires w != []
    ensures r.Some? ==> r.value < |line|
  {
    if |line| <= |w| then
      (if StartsWith(line, w) then Some(0) else None)
    else
      var index := Find(line, w);
      if index == -1 then None
      else if Delimited(line, w, index) && !InQuotes(line, index, index + |w|)
              && !InComment(line, index, index + |w|) then Some(index)
      else None
  }

  function MatchAmong(line: string, ks: seq<Keyword>): (r: KwMatch)
    ensures r.Found? ==> r.index < |line| && r.kw in ks
  {
    if ks == [] then NoKeyword
    else match MatchOne(line, ks[0])
      case Some(i) => Found(ks[0], i)
      case None => MatchAmong(line, ks[1..])
  }

  function MatchSpec(line: string): KwMatch {
    MatchAmong(line, Order)
  }

  // A match is either the whole line or a delimited first occurrence outside quotes and
  // comments, and no keyword tried earlier is accepted.
  lemma {:induction false} MatchAmongSound(line: string, ks: seq<Keyword>)
    ensures MatchAmong(line, ks).Found? ==>
              var m := MatchAmong(line, ks);
              m.kw in ks && MatchOne(line, m.kw) == Some(m.index)
              && exists j :: 0 <= j < |ks| && ks[j] == m.kw && forall i :: 0 <= i < j ==> MatchOne(line, ks[i]).None?
    ensures MatchAmong(line, ks).NoKeyword? ==> forall i :: 0 <= i < |ks| ==> MatchOne(line, ks[i]).None?
  {
    if ks != [] {
      MatchAmongSound(line, ks[1..]);
      var m := MatchAmong(line, ks);
      if MatchOne(line, ks[0]).None? {
        if m.Found? {
          var j :| 0 <= j < |ks[1..]| && ks[1..][j] == m.kw && forall i :: 0 <= i < j ==> MatchOne(line, ks[1..][i]).None?;
          assert ks[j + 1] == m.kw;
          forall i | 0 <= i < j + 1 ensures MatchOne(line, ks[i]).None? {
            if i > 0 {
              assert ks[i] == ks[1..][i - 1];
            }
          }
        } else {
          forall i | 0 <= i < |ks| ensures MatchOne(line, ks[i]).None? {
            if i > 0 {
              assert ks[i] == ks[1..][i - 1];
            }
          }
        }
      } else {
        assert ks[0] == m.kw;
      }
    }
  }

  // What an accepted keyword at `index` means for the line.
  lemma MatchOneMeaning(line: string, k: Keyword, index: nat)
    requires MatchOne(line, k) == Some(index)
    ensures |line| <= |Text(k)| ==> index == 0 && line == Text(k)
    ensures |line| > |Text(k)| ==>
              OccursAt(line, Text(k), index)
              && (forall p: nat :: p < index ==> !OccursAt(line, Text(k), p))
              && Delimited(line, Text(k), index)
              && !InQuotes(line, index, index + |Text(k)|)
              && !InComment(line, index, index + |Text(k)|)
  {
  }

  // A keyword is not accepted when its first occurrence is part of an identifier, quoted or commented.
  lemma MatchOneNone(line: string, k: Keyword)
    requires |line| > |Text(k)|
    requires Find(line, Text(k)) == -1 || !Delimited(line, Text(k), Find(line, Text(k)))
    ensures MatchOne(line, k) == None
  {
  }

  // One keyword tried against the line, as the body of the loop of `match_keywords`.
  method TryWord(line: string, w: string) returns (r: Option<nat>)
    requires w != []
    ensures r == MatchWord(line, w)
  {
    if |line| <= |w| {
      r := if StartsWith(line, w) then Some(0) else None;
      return;
    }
    var index := Find(line, w);
    if index == -1 {
      return None;
    }
    var left := true;
    var right := true;
    if index != 0 {
      left := !IsIdentChar(line[index - 1]);
    }
    if index + |w| < |line| {
      right := !IsIdentChar(line[index + |w|]);
    }
    r := None;
    var quoted := WithinQuotes(line, index, index + |w|);
    if left && right && !quoted {
      var commented := WithinComment(line, index, index + |w|);
      if !commented {
        r := Some(index);
      }
    }
  }

  // `match_keywords(line)`: the first keyword of the fixed order that is accepted, with its index.
  method MatchKeywords(line: string) returns (m: KwMatch)
    ensures m == MatchSpec(line)
  {
    var t := 0;
    while t < |Order|
      invariant 0 <= t <= |Order|
      invariant MatchAmong(line, Order[t..]) == MatchSpec(line)
    {
      assert Order[t..][0] == Order[t] && Order[t..][1..] == Order[t + 1..];
      var r := TryWord(line, Text(Order[t]));
      if r.Some? {
        return Found(Order[t], r.value);
      }
      t := t + 1;
    }
    m := NoKeyword;
  }

  // `p` cannot occur where one of its characters is missing from `s`.
  lemma Absent(s: string, p: string, j: nat)
    requires j < |p| && p[j] !in s
    ensures Find(s, p) == -1
  {
    forall q: nat | q + |p| <= |s| ensures !OccursAt(s, p, q) {
      assert s[q..q + |p|][j] == s[q + j];
    }
  }

  lemma {:induction false} FindFromFirst(s: string, p: string, i: nat, k: nat)
    requires i <= k && OccursAt(s, p, k)
    requires p != [] && p[0] !in s[i..k]
    ensures FindFrom(s, p, i) == k
    decreases k - i
  {
    if i < k {
      assert s[i..i + |p|][0] == s[i] == s[i..k][0];
      assert s[i + 1..k] == s[i..k][1..];
      FindFromFirst(s, p, i + 1, k);
    }
  }

  lemma NoSlashNotInComment(s: string, lo: nat, hi: int)
    requires lo <= |s| && '/' !in s
    ensures !InComment(s, lo, hi)
  {
    Absent(s, "/*", 0);
  }

  // Example: on a `} else if` line the keyword recognised is the `if`, at column 7.
  lemma ElseIfLineMatchesIf()
    ensures MatchSpec("} else if (x)") == Found(If, 7)
  {
    var line := "} else if (x)";
    WhileAbsentInElseIf();
    ForAbsentInElseIf();
    SwitchAbsentInElseIf();
    IfAcceptedInElseIf();
    assert MatchAmong(line, Order) == MatchAmong(line, Order[1..]);
    assert MatchAmong(line, Order[1..]) == MatchAmong(line, Order[2..]);
    assert MatchAmong(line, Order[2..]) == MatchAmong(line, Order[3..]);
  }

  lemma WhileAbsentInElseIf()
    ensures MatchOne("} else if (x)", While) == None
  {
    Absent("} else if (x)", "while", 0);
  }

  lemma ForAbsentInElseIf()
    ensures MatchOne("} else if (x)", For) == None
  {
    Absent("} else if (x)", "for", 1);
  }

  lemma SwitchAbsentInElseIf()
    ensures MatchOne("} else if (x)", Switch) == None
  {
    Absent("} else if (x)", "switch", 1);
  }

  lemma IfAcceptedInElseIf()
    ensures MatchOne("} else if (x)", If) == Some(7)
  {
    var line := "} else if (x)";
    IfFirstInElseIf();
    IfPlainInElseIf();
    assert Delimited(line, "if", 7) by {
      assert line[6] == ' ' && line[9] == ' ';
    }
    MatchOneAt(line, If, 7);
  }

  lemma IfFirstInElseIf()
    ensures Find("} else if (x)", "if") == 7
  {
    var line := "} else if (x)";
    assert line[7..9] == "if";
    assert line[0..7] == "} else ";
    FindFromFirst(line, "if", 0, 7);
  }

  lemma IfPlainInElseIf()
    ensures !InQuotes("} else if (x)", 7, 9) && !InComment("} else if (x)", 7, 9)
  {
    var line := "} else if (x)";
    assert '"' !in line && '/' !in line;
    NoQuoteCharNotInQuotes(line, 7, 9);
    NoSlashNotInComment(line, 7, 9);
  }

  // The keyword is accepted at its first occurrence when that occurrence is delimited, unquoted and
  // uncommented.
  lemma MatchOneAt(line: string, k: Keyword, index: nat)
    requires |line| > |Text(k)| && Find(line, Text(k)) == index
    requires index + |Text(k)| <= |line| && Delimited(line, Text(k), index)
    requires !InQuotes(line, index, index + |Text(k)|) && !InComment(line, index, index + |Text(k)|)
    ensures MatchOne(line, k) == Some(index)
  {
  }

  // Example: `do` inside the identifier `dowork` is not a keyword, and the line holds no other.
  lemma DoInsideIdentifier()
    ensures MatchSpec("  dowork();") == NoKeyword
  {
    var line := "  dowork();";
    CallMisses1(line);
    CallMisses2(line);
    DoMissInCall(line);
    CallMisses3(line);
    NoneAccepted(line, [While, For, Switch] + [If, ElseIf, Else] + [Do] + [Case, Default, Break]);
  }

  lemma CallMisses1(line: string)
    requires line == "  dowork();"
    ensures NoneOf(line, [While, For, Switch])
  {
    LongMiss(line, While, 1);
    LongMiss(line, For, 0);
    LongMiss(line, Switch, 0);
  }

  lemma CallMisses2(line: string)
    requires line == "  dowork();"
    ensures NoneOf(line, [If, ElseIf, Else])
  {
    LongMiss(line, If, 0);
    LongMiss(line, ElseIf, 0);
    LongMiss(line, Else, 0);
  }

  lemma DoMissInCall(line: string)
    requires line == "  dowork();"
    ensures NoneOf(line, [Do])
  {
    DoFirstInCall();
    assert line[4] == 'w';
    MatchOneNone(line, Do);
  }

  lemma CallMisses3(line: string)
    requires line == "  dowork();"
    ensures NoneOf(line, [Case, Default, Break])
  {
    LongMiss(line, Case, 0);
    LongMiss(line, Default, 2);
    LongMiss(line, Break, 0);
  }

  lemma DoFirstInCall()
    ensures Find("  dowork();", "do") == 2
  {
    var line := "  dowork();";
    assert line[2..4] == "do";
    assert line[0..2] == "  ";
    FindFromFirst(line, "do", 0, 2);
  }

  // A line that is exactly a keyword's text is recognised as that keyword at column 0, except
  // `else if`: the `if` in it is tried first (see ElseIfExact).
  lemma ExactLine(k: Keyword)
    requires k != ElseIf
    ensures MatchSpec(Text(k)) == Found(k, 0)
  {
    var line := Text(k);
    match k
    case While => AcceptedFirst(line, 0, 0, []);
    case For => ExactFor(line);
    case Switch => ExactSwitch(line);
    case If => ExactIf(line);
    case Else => ExactElse(line);
    case Do => ExactDo(line);
    case Case => ExactCase(line);
    case Default => ExactDefault(line);
    case Break => ExactBreak(line);
  }

  // Example: the bare line `else if` is recognised as `if` at column 5.
  lemma ElseIfExact()
    ensures MatchSpec("else if") == Found(If, 5)
  {
    var line := "else if";
    BareElseIfMisses(line);
    IfAcceptedInBareElseIf(line);
    AcceptedFirst(line, 3, 5, [While, For, Switch]);
  }

  lemma BareElseIfMisses(line: string)
    requires line == "else if"
    ensures NoneOf(line, [While, For, Switch])
  {
    LongMiss(line, While, 0);
    LongMiss(line, For, 2);
    LongMiss(line, Switch, 1);
  }

  lemma IfAcceptedInBareElseIf(line: string)
    requires line == "else if"
    ensures MatchOne(line, If) == Some(5)
  {
    assert line[5..7] == "if" && line[0..5] == "else ";
    assert 'i' !in line[0..5];
    FindFromFirst(line, "if", 0, 5);
    assert '"' !in line && '/' !in line;
    NoQuoteCharNotInQuotes(line, 5, 7);
    NoSlashNotInComment(line, 5, 7);
    assert Delimited(line, "if", 5) by {
      assert line[4] == ' ';
    }
    MatchOneAt(line, If, 5);
  }

  // None of the keywords `ks` is accepted in `line`.
  predicate NoneOf(line: string, ks: seq<Keyword>) {
    forall k | k in ks :: MatchOne(line, k).None?
  }

  // None of the first `t` keywords of the order is accepted.
  predicate MissesBefore(line: string, t: nat)
    requires t <= |Order|
  {
    t == 0 || (MissesBefore(line, t - 1) && MatchOne(line, Order[t - 1]).None?)
  }

  lemma {:induction false} MissesFrom(line: string, t: nat)
    requires t <= |Order| && NoneOf(line, Order[..t])
    ensures MissesBefore(line, t)
  {
    if t > 0 {
      assert Order[t - 1] in Order[..t];
      assert forall k | k in Order[..t - 1] :: k in Order[..t];
      MissesFrom(line, t - 1);
    }
  }

  lemma {:induction false} SkipAll(line: string, t: nat)
    requires t <= |Order| && MissesBefore(line, t)
    ensures MatchSpec(line) == MatchAmong(line, Order[t..])
  {
    if t > 0 {
      SkipAll(line, t - 1);
      assert Order[t - 1..][1..] == Order[t..];
    }
  }

  // The first keyword of the order that is accepted decides the match.
  lemma AcceptedFirst(line: string, t: nat, index: nat, earlier: seq<Keyword>)
    requires t < |Order| && Order[..t] == earlier && NoneOf(line, earlier)
    requires MatchOne(line, Order[t]) == Some(index)
    ensures MatchSpec(line) == Found(Order[t], index)
  {
    MissesFrom(line, t);
    SkipAll(line, t);
  }

  // A line in which no keyword is accepted has no keyword.
  lemma NoneAccepted(line: string, all: seq<Keyword>)
    requires Order == all && NoneOf(line, all)
    ensures MatchSpec(line) == NoKeyword
  {
    assert Order[..|Order|] == Order;
    MissesFrom(line, |Order|);
    SkipAll(line, |Order|);
  }

  // A line no longer than a keyword's text that does not start with it does not match it.
  lemma ShortMiss(line: string, k: Keyword)
    requires |line| <= |Text(k)| && (|line| < |Text(k)| || line[0] != Text(k)[0])
    ensures MatchOne(line, k) == None
  {
  }

  // A line longer than a keyword's text that lacks one of its characters does not match it.
  lemma LongMiss(line: string, k: Keyword, j: nat)
    requires |line| > |Text(k)| && j < |Text(k)| && Text(k)[j] !in line
    ensures MatchOne(line, k) == None
  {
    Absent(line, Text(k), j);
  }

  lemma ExactFor(line: string)
    requires line == "for"
    ensures MatchSpec(line) == Found(For, 0)
  {
    ForMisses(line);
    AcceptedFirst(line, 1, 0, [While]);
  }

  lemma ForMisses(line: string)
    requires line == "for"
    ensures NoneOf(line, [While])
  {
    ShortMiss(line, While);
  }

  lemma ExactSwitch(line: string)
    requires line == "switch"
    ensures MatchSpec(line) == Found(Switch, 0)
  {
    SwitchMisses(line);
    AcceptedFirst(line, 2, 0, [While, For]);
  }

  lemma SwitchMisses(line: string)
    requires line == "switch"
    ensures NoneOf(line, [While, For])
  {
    LongMiss(line, While, 3);
    LongMiss(line, For, 0);
  }

  lemma ExactIf(line: string)
    requires line == "if"
    ensures MatchSpec(line) == Found(If, 0)
  {
    IfMisses(line);
    AcceptedFirst(line, 3, 0, [While, For, Switch]);
  }

  lemma IfMisses(line: string)
    requires line == "if"
    ensures NoneOf(line, [While, For, Switch])
  {
    ShortMiss(line, While);
    ShortMiss(line, For);
    ShortMiss(line, Switch);
  }

  lemma ExactElse(line: string)
    requires line == "else"
    ensures MatchSpec(line) == Found(Else, 0)
  {
    ElseMisses1(line);
    ElseMisses2(line);
    AcceptedFirst(line, 5, 0, [While, For, Switch] + [If, ElseIf]);
  }

  lemma ElseMisses1(line: string)
    requires line == "else"
    ensures NoneOf(line, [While, For, Switch])
  {
    ShortMiss(line, While);
    LongMiss(line, For, 0);
    ShortMiss(line, Switch);
  }

  lemma ElseMisses2(line: string)
    requires line == "else"
    ensures NoneOf(line, [If, ElseIf])
  {
    LongMiss(line, If, 0);
    ShortMiss(line, ElseIf);
  }

  lemma ExactDo(line: string)
    requires line == "do"
    ensures MatchSpec(line) == Found(Do, 0)
  {
    DoMisses1(line);
    DoMisses2(line);
    AcceptedFirst(line, 6, 0, [While, For, Switch] + [If, ElseIf, Else]);
  }

  lemma DoMisses1(line: string)
    requires line == "do"
    ensures NoneOf(line, [While, For, Switch])
  {
    ShortMiss(line, While);
    ShortMiss(line, For);
    ShortMiss(line, Switch);
  }

  lemma DoMisses2(line: string)
    requires line == "do"
    ensures NoneOf(line, [If, ElseIf, Else])
  {
    ShortMiss(line, If);
    ShortMiss(line, ElseIf);
    ShortMiss(line, Else);
  }

  lemma ExactCase(line: string)
    requires line == "case"
    ensures MatchSpec(line) == Found(Case, 0)
  {
    CaseMisses1(line);
    CaseMisses2(line);
    AcceptedFirst(line, 7, 0, [While, For, Switch, If] + [ElseIf, Else, Do]);
  }

  lemma CaseMisses1(line: string)
    requires line == "case"
    ensures NoneOf(line, [While, For, Switch, If])
  {
    ShortMiss(line, While);
    LongMiss(line, For, 0);
    ShortMiss(line, Switch);
    LongMiss(line, If, 0);
  }

  lemma CaseMisses2(line: string)
    requires line == "case"
    ensures NoneOf(line, [ElseIf, Else, Do])
  {
    ShortMiss(line, ElseIf);
    ShortMiss(line, Else);
    LongMiss(line, Do, 0);
  }

  lemma ExactDefault(line: string)
    requires line == "default"
    ensures MatchSpec(line) == Found(Default, 0)
  {
    DefaultMisses1(line);
    DefaultMisses2(line);
    AcceptedFirst(line, 8, 0, [While, For, Switch, If] + [ElseIf, Else, Do, Case]);
  }

  lemma DefaultMisses1(line: string)
    requires line == "default"
    ensures NoneOf(line, [While, For, Switch, If])
  {
    LongMiss(line, While, 0);
    LongMiss(line, For, 2);
    LongMiss(line, Switch, 0);
    LongMiss(line, If, 0);
  }

  lemma DefaultMisses2(line: string)
    requires line == "default"
    ensures NoneOf(line, [ElseIf, Else, Do, Case])
  {
    ShortMiss(line, ElseIf);
    LongMiss(line, Else, 2);
    LongMiss(line, Do, 1);
    LongMiss(line, Case, 0);
  }

  lemma ExactBreak(line: string)
    requires line == "break"
    ensures MatchSpec(line) == Found(Break, 0)
  {
    BreakMisses1(line);
    BreakMisses2(line);
    BreakMisses3(line);
    AcceptedFirst(line, 9, 0, [While, For, Switch] + [If, ElseIf, Else] + [Do, Case, Default]);
  }

  lemma BreakMisses1(line: string)
    requires line == "break"
    ensures NoneOf(line, [While, For, Switch])
  {
    ShortMiss(line, While);
    LongMiss(line, For, 0);
    ShortMiss(line, Switch);
  }

  lemma BreakMisses2(line: string)
    requires line == "break"
    ensures NoneOf(line, [If, ElseIf, Else])
  {
    LongMiss(line, If, 0);
    ShortMiss(line, ElseIf);
    LongMiss(line, Else, 1);
  }

  lemma BreakMisses3(line: string)
    requires line == "break"
    ensures NoneOf(line, [Do, Case, Default])
  {
    LongMiss(line, Do, 0);
    LongMiss(line, Case, 0);
    ShortMiss(line, Default);
  }

  // The empty text holds no keyword.
  lemma EmptyNoKeyword()
    ensures MatchSpec("") == NoKeyword
  {
    MatchAmongSound("", Order);
    forall k: Keyword ensures MatchOne("", k) == None {
      assert |Text(k)| > 0;
    }
  }
}
