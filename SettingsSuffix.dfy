/**
 * findTemplatePathSettingAssignmentsStart: a backward scan that decides
 * whether a template path ends in "?settings(...)". From the end it skips
 * whitespace, requires ')', walks back to the matching '(' (tracking the
 * nesting depth, and ignoring parentheses inside '...' and "..." literals),
 * skips whitespace, reads an identifier, skips whitespace and requires '?'.
 * The result is -1 ("no clause") or the index of that '?'; an identifier
 * other than "settings" in that position is an error.
 */
module SettingsSuffix {
  import opened Wrappers
  import opened JavaText
  import opened ParseErrors

  /** TEMPLATE_PATH_SETTINGS_BI_NAME */
  const SettingsName: string := "settings"

  /** Where the backward scan is with respect to string literals. */
  datatype QuoteMode = Outside | InSingle | InDouble

  /** The last position at or before pos that is not whitespace, or -1. */
  function SkipWhitespaceBack(s: string, pos: int): (r: int)
    requires -1 <= pos < |s|
    ensures -1 <= r <= pos && (r >= 0 ==> !IsWhitespace(s[r]))
    decreases pos + 1
  {
    if pos >= 0 && IsWhitespace(s[pos]) then SkipWhitespaceBack(s, pos - 1) else pos
  }

  /** Everything SkipWhitespaceBack steps over is whitespace. */
  lemma {:induction false} SkippedWhitespace(s: string, pos: int)
    requires -1 <= pos < |s|
    ensures forall k :: SkipWhitespaceBack(s, pos) < k <= pos ==> IsWhitespace(s[k])
    decreases pos + 1
  {
    if pos >= 0 && IsWhitespace(s[pos]) {
      SkippedWhitespace(s, pos - 1);
    }
  }

  /** The last position at or before pos that is not an identifier part, or -1. */
  function SkipIdentifierBack(s: string, pos: int): (r: int)
    requires -1 <= pos < |s|
    ensures -1 <= r <= pos && (r >= 0 ==> !IsIdentifierPart(s[r]))
    decreases pos + 1
  {
    if pos >= 0 && IsIdentifierPart(s[pos]) then SkipIdentifierBack(s, pos - 1) else pos
  }

  /** Everything SkipIdentifierBack steps over is an identifier part. */
  lemma {:induction false} SkippedIdentifier(s: string, pos: int)
    requires -1 <= pos < |s|
    ensures forall k :: SkipIdentifierBack(s, pos) < k <= pos ==> IsIdentifierPart(s[k])
    decreases pos + 1
  {
    if pos >= 0 && IsIdentifierPart(s[pos]) {
      SkippedIdentifier(s, pos - 1);
    }
  }

  /** The backward parenthesis scan, from pos with the given depth and quote
      mode: the position just before the '(' that brings the depth to 0, or
      None when the start of the string comes first. A quote ends a literal
      unless the character before it is a backslash. */
  function MatchOpenParen(s: string, pos: int, level: nat, mode: QuoteMode): (r: Option<int>)
    requires -1 <= pos < |s|
    ensures r.Some? ==> -1 <= r.value <= pos
    decreases pos + 1
  {
    if level == 0 then Some(pos)
    else if pos < 0 then None
    else
      var c := s[pos];
      var escaped := pos > 0 && s[pos - 1] == '\\';
      match mode
      case Outside =>
        if c == '(' then MatchOpenParen(s, pos - 1, level - 1, Outside)
        else if c == ')' then MatchOpenParen(s, pos - 1, level + 1, Outside)
        else if c == '\'' then MatchOpenParen(s, pos - 1, level, InSingle)
        else if c == '"' then MatchOpenParen(s, pos - 1, level, InDouble)
        else MatchOpenParen(s, pos - 1, level, Outside)
      case InSingle =>
        MatchOpenParen(s, pos - 1, level, if c == '\'' && !escaped then Outside else InSingle)
      case InDouble =>
        MatchOpenParen(s, pos - 1, level, if c == '"' && !escaped then Outside else InDouble)
  }

  /** A region found by the parenthesis scan starts with the '(' that closed
      it, just after the returned position. */
  lemma {:induction false} MatchOpenParenFound(s: string, pos: int, level: nat, mode: QuoteMode)
    requires -1 <= pos < |s| && level > 0 && MatchOpenParen(s, pos, level, mode).Some?
    ensures MatchOpenParen(s, pos, level, mode).value < pos
    ensures s[MatchOpenParen(s, pos, level, mode).value + 1] == '('
    decreases pos + 1
  {
    var c := s[pos];
    var escaped := pos > 0 && s[pos - 1] == '\\';
    match mode
    case Outside =>
      if c == '(' {
        if level > 1 {
          MatchOpenParenFound(s, pos - 1, level - 1, Outside);
        }
      } else if c == ')' {
        MatchOpenParenFound(s, pos - 1, level + 1, Outside);
      } else if c == '\'' {
        MatchOpenParenFound(s, pos - 1, level, InSingle);
      } else if c == '"' {
        MatchOpenParenFound(s, pos - 1, level, InDouble);
      } else {
        MatchOpenParenFound(s, pos - 1, level, Outside);
      }
    case InSingle =>
      MatchOpenParenFound(s, pos - 1, level, if c == '\'' && !escaped then Outside else InSingle);
    case InDouble =>
      MatchOpenParenFound(s, pos - 1, level, if c == '"' && !escaped then Outside else InDouble);
  }

  /** The first half of the scan: trailing whitespace, the closing ')' and
      the parenthesised region before it. The result is the position just
      before the matching '(', or None when there is no clause. */
  function ClauseOpen(s: string): (r: Option<int>)
    ensures r.Some? ==> -1 <= r.value < |s|
  {
    var close := SkipWhitespaceBack(s, |s| - 1);
    if close < 0 || s[close] != ')' then None
    else MatchOpenParen(s, close - 1, 1, Outside)
  }

  /** The second half of the scan, from just before the '(': whitespace, the
      identifier, whitespace and the '?'. */
  function ClauseHead(s: string, beforeOpen: int): Result<int, ParseError>
    requires -1 <= beforeOpen < |s|
  {
    var nameLast := SkipWhitespaceBack(s, beforeOpen);
    var beforeName := SkipIdentifierBack(s, nameLast);
    if beforeName == nameLast then Ok(-1)
    else
      var question := SkipWhitespaceBack(s, beforeName);
      if question < 0 || s[question] != '?' then Ok(-1)
      else if s[beforeName + 1..nameLast + 1] != SettingsName then
        Err(UnexpectedClauseName(s[beforeName + 1..nameLast + 1]))
      else Ok(question)
  }

  /** What findTemplatePathSettingAssignmentsStart returns (-1 or the index
      of the '?') or throws. */
  function Locate(s: string): Result<int, ParseError> {
    match ClauseOpen(s)
    case None => Ok(-1)
    case Some(beforeOpen) => ClauseHead(s, beforeOpen)
  }

  /** findTemplatePathSettingAssignmentsStart. */
  method FindTemplatePathSettingAssignmentsStart(s: string) returns (r: Result<int, ParseError>)
    ensures r == Locate(s)
  {
    var beforeOpen := SkipParenthesized(s);
    if beforeOpen.None? {
      return Ok(-1);
    }
    r := ReadClauseHead(s, beforeOpen.value);
  }

  /** Skip whitespace, then `)`, then `(...`: the cursor moves back while a
      depth counter and the quote mode are kept up to date. */
  method SkipParenthesized(s: string) returns (r: Option<int>)
    ensures r == ClauseOpen(s)
  {
    var pos := StepOverWhitespace(s, |s| - 1);
    if pos < 0 || s[pos] != ')' {
      return None;
    }
    pos := pos - 1;

    ghost var scanStart := pos;
    var parLevel: nat := 1;
    var mode := Outside;
    while parLevel > 0
      invariant -1 <= pos < |s|
      invariant MatchOpenParen(s, pos, parLevel, mode) == MatchOpenParen(s, scanStart, 1, Outside)
      decreases pos + 1
    {
      if pos < 0 {
        return None;
      }
      var c := s[pos];
      match mode {
        case Outside =>
          if c == '(' {
            parLevel := parLevel - 1;
          } else if c == ')' {
            parLevel := parLevel + 1;
          } else if c == '\'' {
            mode := InSingle;
          } else if c == '"' {
            mode := InDouble;
          }
        case InSingle =>
          if c == '\'' && !(pos > 0 && s[pos - 1] == '\\') {
            mode := Outside;
          }
        case InDouble =>
          if c == '"' && !(pos > 0 && s[pos - 1] == '\\') {
            mode := Outside;
          }
      }
      pos := pos - 1;
    }
    return Some(pos);
  }

  /** Skip whitespace, the identifier and whitespace, then require `?`. */
  method ReadClauseHead(s: string, beforeOpen: int) returns (r: Result<int, ParseError>)
    requires -1 <= beforeOpen < |s|
    ensures r == ClauseHead(s, beforeOpen)
  {
    var pos := StepOverWhitespace(s, beforeOpen);
    var nameEnd := pos + 1;
    pos := StepOverIdentifier(s, pos);
    var nameStart := pos + 1;
    if nameStart == nameEnd {
      return Ok(-1);
    }
    var name := s[nameStart..nameEnd];
    pos := StepOverWhitespace(s, pos);
    if pos < 0 || s[pos] != '?' {
      return Ok(-1);
    }
    if name != SettingsName {
      return Err(UnexpectedClauseName(name));
    }
    return Ok(pos);
  }

  /** The cursor moves back over whitespace. */
  method StepOverWhitespace(s: string, from: int) returns (pos: int)
    requires -1 <= from < |s|
    ensures pos == SkipWhitespaceBack(s, from)
  {
    pos := from;
    while pos >= 0 && IsWhitespace(s[pos])
      invariant -1 <= pos < |s|
      invariant SkipWhitespaceBack(s, pos) == SkipWhitespaceBack(s, from)
    {
      pos := pos - 1;
    }
  }

  /** The cursor moves back over identifier characters. */
  method StepOverIdentifier(s: string, from: int) returns (pos: int)
    requires -1 <= from < |s|
    ensures pos == SkipIdentifierBack(s, from)
  {
    pos := from;
    while pos >= 0 && IsIdentifierPart(s[pos])
      invariant -1 <= pos < |s|
      invariant SkipIdentifierBack(s, pos) == SkipIdentifierBack(s, from)
    {
      pos := pos - 1;
    }
  }

  // ---------------------------------------------------------------------
  // Properties of the locator
  // ---------------------------------------------------------------------

  predicate AllWhitespace(w: string) {
    forall k :: 0 <= k < |w| ==> IsWhitespace(w[k])
  }

  predicate IsIdentifier(name: string) {
    forall k :: 0 <= k < |name| ==> IsIdentifierPart(name[k])
  }

  /** The two character classes the scan uses do not overlap. */
  lemma IdentifierPartNotWhitespace(c: char)
    ensures IsIdentifierPart(c) ==> !IsWhitespace(c)
  {
  }

  /** SkipWhitespaceBack lands on target when everything after target up to
      pos is whitespace and target itself is not. */
  lemma {:induction false} SkipWhitespaceBackTo(s: string, pos: int, target: int)
    requires -1 <= target <= pos < |s|
    requires target >= 0 ==> !IsWhitespace(s[target])
    requires forall k :: target < k <= pos ==> IsWhitespace(s[k])
    ensures SkipWhitespaceBack(s, pos) == target
    decreases pos + 1
  {
    if pos > target {
      SkipWhitespaceBackTo(s, pos - 1, target);
    }
  }

  /** The same for SkipIdentifierBack. */
  lemma {:induction false} SkipIdentifierBackTo(s: string, pos: int, target: int)
    requires -1 <= target <= pos < |s|
    requires target >= 0 ==> !IsIdentifierPart(s[target])
    requires forall k :: target < k <= pos ==> IsIdentifierPart(s[k])
    ensures SkipIdentifierBack(s, pos) == target
    decreases pos + 1
  {
    if pos > target {
      SkipIdentifierBackTo(s, pos - 1, target);
    }
  }

  /** A string that is only whitespace has no clause. */
  lemma WhitespaceOnlyHasNoClause(s: string)
    requires AllWhitespace(s)
    ensures Locate(s) == Ok(-1)
  {
    SkipWhitespaceBackTo(s, |s| - 1, -1);
  }

  /** When the last character that is not whitespace is not ')', there is no
      clause. */
  lemma NoClauseUnlessClosingParen(t: string, c: char, w: string)
    requires !IsWhitespace(c) && c != ')'
    requires AllWhitespace(w)
    ensures Locate(t + [c] + w) == Ok(-1)
  {
    var s := t + [c] + w;
    forall k | |t| < k <= |s| - 1 ensures IsWhitespace(s[k]) {
      assert s[k] == w[k - |t| - 1];
    }
    SkipWhitespaceBackTo(s, |s| - 1, |t|);
  }

  /** Without any '(' before the closing ')', the scan runs off the start of
      the string, and that is "no clause", not an error. */
  lemma UnmatchedParenHasNoClause(t: string, w: string)
    requires '(' !in t
    requires AllWhitespace(w)
    ensures Locate(t + ")" + w) == Ok(-1)
  {
    var s := t + ")" + w;
    forall k | |t| < k <= |s| - 1 ensures IsWhitespace(s[k]) {
      assert s[k] == w[k - |t| - 1];
    }
    SkipWhitespaceBackTo(s, |s| - 1, |t|);
    forall k | 0 <= k < |t| ensures s[k] != '(' {
      assert s[k] == t[k];
    }
    NoOpenParenNoMatch(s, |t| - 1, 1, Outside);
  }

  /** With no '(' at or before pos, the parenthesis scan finds nothing. */
  lemma {:induction false} NoOpenParenNoMatch(s: string, pos: int, level: nat, mode: QuoteMode)
    requires -1 <= pos < |s| && level > 0
    requires forall k :: 0 <= k <= pos ==> s[k] != '('
    ensures MatchOpenParen(s, pos, level, mode) == None
    decreases pos + 1
  {
    if pos >= 0 {
      var c := s[pos];
      var escaped := pos > 0 && s[pos - 1] == '\\';
      match mode
      case Outside =>
        if c == ')' {
          NoOpenParenNoMatch(s, pos - 1, level + 1, Outside);
        } else if c == '\'' {
          NoOpenParenNoMatch(s, pos - 1, level, InSingle);
        } else if c == '"' {
          NoOpenParenNoMatch(s, pos - 1, level, InDouble);
        } else {
          NoOpenParenNoMatch(s, pos - 1, level, Outside);
        }
      case InSingle =>
        NoOpenParenNoMatch(s, pos - 1, level, if c == '\'' && !escaped then Outside else InSingle);
      case InDouble =>
        NoOpenParenNoMatch(s, pos - 1, level, if c == '"' && !escaped then Outside else InDouble);
    }
  }

  // The argument list of a clause, as far as the backward scan is concerned:
  // plain text without parentheses, quotes or backslashes, quoted literals
  // whose own quote characters are all escaped, and nested groups.
  datatype ArgToken =
    | Plain(text: string)
    | Quoted(quote: char, body: string)
    | Group(inner: seq<ArgToken>)

  function RenderToken(t: ArgToken): string
    decreases t
  {
    match t
    case Plain(text) => text
    case Quoted(q, body) => [q] + body + [q]
    case Group(inner) => "(" + RenderArgs(inner) + ")"
  }

  function RenderArgs(ts: seq<ArgToken>): string
    decreases ts
  {
    if ts == [] then "" else RenderArgs(ts[..|ts| - 1]) + RenderToken(ts[|ts| - 1])
  }

  predicate IsPlainChar(c: char) {
    c != '(' && c != ')' && c != '\'' && c != '"' && c != '\\'
  }

  predicate WellFormedToken(t: ArgToken)
    decreases t
  {
    match t
    case Plain(text) => forall k :: 0 <= k < |text| ==> IsPlainChar(text[k])
    case Quoted(q, body) =>
      (q == '\'' || q == '"') &&
      forall k :: 0 <= k < |body| && body[k] == q ==> k > 0 && body[k - 1] == '\\'
    case Group(inner) => WellFormedArgs(inner)
  }

  predicate WellFormedArgs(ts: seq<ArgToken>)
    decreases ts
  {
    ts == [] || (WellFormedArgs(ts[..|ts| - 1]) && WellFormedToken(ts[|ts| - 1]))
  }

  /** A well-formed argument text never ends in a backslash. */
  lemma {:induction false} RenderedArgsEnd(ts: seq<ArgToken>)
    requires WellFormedArgs(ts) && |RenderArgs(ts)| > 0
    ensures RenderArgs(ts)[|RenderArgs(ts)| - 1] != '\\'
    decreases ts
  {
    var init := ts[..|ts| - 1];
    var t := ts[|ts| - 1];
    var ri, rt := RenderArgs(init), RenderToken(t);
    assert RenderArgs(ts) == ri + rt;
    if |rt| == 0 {
      RenderedArgsEnd(init);
    } else if t.Plain? {
      assert IsPlainChar(t.text[|t.text| - 1]);
    }
  }

  /** Scanning back over plain text changes neither depth nor mode. */
  lemma {:induction false} ScanPlain(s: string, a: int, b: int, level: nat)
    requires 0 <= a <= b <= |s| && level > 0
    requires forall k :: a <= k < b ==> IsPlainChar(s[k])
    ensures MatchOpenParen(s, b - 1, level, Outside) == MatchOpenParen(s, a - 1, level, Outside)
    decreases b - a
  {
    if a < b {
      ScanPlain(s, a, b - 1, level);
    }
  }

  /** Inside a literal, quote characters preceded by a backslash do not end it. */
  lemma {:induction false} ScanQuotedBody(s: string, a: int, b: int, q: char, mode: QuoteMode, level: nat)
    requires 1 <= a <= b <= |s| && level > 0
    requires (q == '\'' && mode == InSingle) || (q == '"' && mode == InDouble)
    requires forall k :: a <= k < b && s[k] == q ==> k > a && s[k - 1] == '\\'
    ensures MatchOpenParen(s, b - 1, level, mode) == MatchOpenParen(s, a - 1, level, mode)
    decreases b - a
  {
    if a < b {
      ScanQuotedBody(s, a, b - 1, q, mode, level);
    }
  }

  /** Scanning back over one well-formed token returns to the depth and the
      mode it started in. */
  lemma {:induction false} ScanToken(s: string, a: int, t: ArgToken, level: nat)
    requires WellFormedToken(t) && level > 0
    requires 1 <= a && a + |RenderToken(t)| <= |s|
    requires s[a..a + |RenderToken(t)|] == RenderToken(t)
    requires s[a - 1] != '\\'
    ensures MatchOpenParen(s, a + |RenderToken(t)| - 1, level, Outside)
         == MatchOpenParen(s, a - 1, level, Outside)
    decreases t, 1
  {
    match t
    case Plain(text) =>
      forall k | a <= k < a + |text| ensures IsPlainChar(s[k]) {
        assert s[k] == s[a..a + |text|][k - a];
      }
      ScanPlain(s, a, a + |text|, level);
    case Quoted(q, body) =>
      ScanQuoted(s, a, q, body, level);
    case Group(inner) =>
      ScanGroup(s, a, inner, level);
  }

  /** The parts of a text wrapped between two delimiters. */
  lemma Wrapped(x: char, m: string, y: char)
    ensures var g := [x] + m + [y];
      |g| == |m| + 2 && g[0] == x && g[|m| + 1] == y && g[1..|m| + 1] == m
  {
  }

  /** The characters of a slice, one by one. */
  lemma SliceChars(s: string, a: int, g: string)
    requires 0 <= a && a + |g| <= |s| && s[a..a + |g|] == g
    ensures forall k :: 0 <= k < |g| ==> s[a + k] == g[k]
  {
    forall k | 0 <= k < |g| ensures s[a + k] == g[k] {
      assert s[a..a + |g|][k] == s[a + k];
    }
  }

  /** A slice of a slice. */
  lemma SubSlice(s: string, a: int, g: string, i: int, j: int)
    requires 0 <= a && a + |g| <= |s| && s[a..a + |g|] == g
    requires 0 <= i <= j <= |g|
    ensures s[a + i..a + j] == g[i..j]
  {
    SliceChars(s, a, g);
  }

  lemma {:induction false} ScanQuoted(s: string, a: int, q: char, body: string, level: nat)
    requires WellFormedToken(Quoted(q, body)) && level > 0
    requires 1 <= a && a + |body| + 2 <= |s|
    requires s[a..a + |body| + 2] == [q] + body + [q]
    requires s[a - 1] != '\\'
    ensures MatchOpenParen(s, a + |body| + 1, level, Outside) == MatchOpenParen(s, a - 1, level, Outside)
  {
    var b := a + |body| + 2;
    var mode := if q == '\'' then InSingle else InDouble;
    QuotedLayout(s, a, q, body);
    ScanQuotedBody(s, a + 1, b - 1, q, mode, level);
    QuoteSteps(s, a, b - 1, q, mode, level);
  }

  /** A literal in the text: its quotes, and every quote character of its
      body preceded by a backslash of the body. */
  lemma QuotedLayout(s: string, a: int, q: char, body: string)
    requires WellFormedToken(Quoted(q, body))
    requires 1 <= a && a + |body| + 2 <= |s|
    requires s[a..a + |body| + 2] == [q] + body + [q]
    ensures s[a] == q && s[a + |body| + 1] == q
    ensures forall k :: a + 1 <= k < a + |body| + 1 && s[k] == q ==> k > a + 1 && s[k - 1] == '\\'
  {
    var b := a + |body| + 2;
    Wrapped(q, body, q);
    SubSlice(s, a, [q] + body + [q], 1, |body| + 1);
    SliceChars(s, a, [q] + body + [q]);
    assert s[a] == q && s[b - 1] == q;
    SliceChars(s, a + 1, body);
    forall k | a + 1 <= k < b - 1 && s[k] == q ensures k > a + 1 && s[k - 1] == '\\' {
      var i := k - (a + 1);
      assert s[a + 1 + i] == body[i] == q;
      assert i > 0 && body[i - 1] == '\\';
      assert s[a + 1 + (i - 1)] == body[i - 1];
    }
  }

  /** The two quote characters of a literal: scanning back over the closing
      one enters the literal's mode, and over the opening one (not escaped)
      leaves it; so the whole literal is crossed when its body is. */
  lemma QuoteSteps(s: string, a: int, c: int, q: char, mode: QuoteMode, level: nat)
    requires 1 <= a < c < |s| && level > 0
    requires (q == '\'' && mode == InSingle) || (q == '"' && mode == InDouble)
    requires s[a] == q && s[c] == q && s[a - 1] != '\\'
    requires MatchOpenParen(s, c - 1, level, mode) == MatchOpenParen(s, a, level, mode)
    ensures MatchOpenParen(s, c, level, Outside) == MatchOpenParen(s, a - 1, level, Outside)
  {
    assert MatchOpenParen(s, c, level, Outside) == MatchOpenParen(s, c - 1, level, mode);
    assert MatchOpenParen(s, a, level, mode) == MatchOpenParen(s, a - 1, level, Outside);
  }

  lemma {:induction false} ScanGroup(s: string, a: int, inner: seq<ArgToken>, level: nat)
    requires WellFormedArgs(inner) && level > 0
    requires 1 <= a && a + |RenderArgs(inner)| + 2 <= |s|
    requires s[a..a + |RenderArgs(inner)| + 2] == "(" + RenderArgs(inner) + ")"
    ensures MatchOpenParen(s, a + |RenderArgs(inner)| + 1, level, Outside)
         == MatchOpenParen(s, a - 1, level, Outside)
    decreases inner, 2
  {
    var ri := RenderArgs(inner);
    var b := a + |ri| + 2;
    Wrapped('(', ri, ')');
    SubSlice(s, a, "(" + ri + ")", 1, |ri| + 1);
    SliceChars(s, a, "(" + ri + ")");
    assert s[a] == '(' && s[b - 1] == ')';
    ScanArgs(s, a + 1, inner, level + 1);
  }

  /** Scanning back over a well-formed argument text returns to the depth and
      the mode it started in. */
  lemma {:induction false} ScanArgs(s: string, a: int, ts: seq<ArgToken>, level: nat)
    requires WellFormedArgs(ts) && level > 0
    requires 1 <= a && a + |RenderArgs(ts)| <= |s|
    requires s[a..a + |RenderArgs(ts)|] == RenderArgs(ts)
    requires s[a - 1] != '\\'
    ensures MatchOpenParen(s, a + |RenderArgs(ts)| - 1, level, Outside)
         == MatchOpenParen(s, a - 1, level, Outside)
    decreases ts, 0
  {
    if ts != [] {
      var init := ts[..|ts| - 1];
      var t := ts[|ts| - 1];
      ArgsLayout(s, a, ts);
      ScanToken(s, a + |RenderArgs(init)|, t, level);
      ScanArgs(s, a, init, level);
    }
  }

  /** A slice holding a concatenation holds its two parts side by side. */
  lemma ConcatSlices(s: string, a: int, x: string, y: string)
    requires 0 <= a && a + |x| + |y| <= |s| && s[a..a + |x| + |y|] == x + y
    ensures s[a..a + |x|] == x && s[a + |x|..a + |x| + |y|] == y
  {
    SubSlice(s, a, x + y, 0, |x|);
    SubSlice(s, a, x + y, |x|, |x| + |y|);
    assert (x + y)[..|x|] == x && (x + y)[|x|..|x| + |y|] == y;
  }

  /** A rendered argument list in the text: where its last token and the
      tokens before it sit. */
  lemma ArgsLayout(s: string, a: int, ts: seq<ArgToken>)
    requires WellFormedArgs(ts) && ts != []
    requires 1 <= a && a + |RenderArgs(ts)| <= |s|
    requires s[a..a + |RenderArgs(ts)|] == RenderArgs(ts)
    requires s[a - 1] != '\\'
    ensures var ri := RenderArgs(ts[..|ts| - 1]); var rt := RenderToken(ts[|ts| - 1]);
      var m := a + |ri|;
      && |RenderArgs(ts)| == |ri| + |rt|
      && s[a..m] == ri && s[m..m + |rt|] == rt && s[m - 1] != '\\'
  {
    var init := ts[..|ts| - 1];
    var ri, rt := RenderArgs(init), RenderToken(ts[|ts| - 1]);
    assert RenderArgs(ts) == ri + rt;
    ConcatSlices(s, a, ri, rt);
    ArgsBoundary(s, a, init);
  }

  /** Just before where a well-formed argument text ends there is no backslash. */
  lemma ArgsBoundary(s: string, a: int, init: seq<ArgToken>)
    requires WellFormedArgs(init)
    requires 1 <= a && a + |RenderArgs(init)| <= |s|
    requires s[a..a + |RenderArgs(init)|] == RenderArgs(init)
    requires s[a - 1] != '\\'
    ensures s[a + |RenderArgs(init)| - 1] != '\\'
  {
    var ri := RenderArgs(init);
    if |ri| > 0 {
      RenderedArgsEnd(init);
      LastOfSlice(s, a, ri);
    }
  }

  /** The last character of a non-empty slice. */
  lemma LastOfSlice(s: string, a: int, x: string)
    requires 0 <= a && a + |x| <= |s| && |x| > 0 && s[a..a + |x|] == x
    ensures s[a + |x| - 1] == x[|x| - 1]
  {
    assert s[a..a + |x|][|x| - 1] == s[a + |x| - 1];
  }

  /** The end of a clause: '(' at o, the rendered arguments r, ')' and only
      whitespace after it. */
  predicate ClauseTail(s: string, o: int, r: string) {
    && 0 <= o && o + 1 + |r| < |s|
    && s[o] == '(' && s[o + 1 + |r|] == ')'
    && s[o + 1..o + 1 + |r|] == r
    && (forall k :: o + 1 + |r| < k < |s| ==> IsWhitespace(s[k]))
  }

  /** The start of a clause: '?' at q, whitespace, the identifier name at n0
      and whitespace up to o. */
  predicate ClauseName(s: string, q: int, n0: int, name: string, o: int) {
    && 0 <= q < n0 && n0 + |name| <= o < |s|
    && s[q] == '?'
    && (forall k :: q < k < n0 ==> IsWhitespace(s[k]))
    && s[n0..n0 + |name|] == name && IsIdentifier(name)
    && (forall k :: n0 + |name| <= k < o ==> IsWhitespace(s[k]))
  }

  /** A whole clause laid out on positions. */
  predicate ClauseAt(s: string, q: int, n0: int, name: string, o: int, r: string) {
    ClauseName(s, q, n0, name, o) && ClauseTail(s, o, r)
  }

  /** The first half of the scan stops just before the '(' at o. */
  lemma ClauseOpenAt(s: string, o: int, args: seq<ArgToken>)
    requires WellFormedArgs(args) && ClauseTail(s, o, RenderArgs(args))
    ensures ClauseOpen(s) == Some(o - 1)
  {
    var c := o + 1 + |RenderArgs(args)|;
    SkipWhitespaceBackTo(s, |s| - 1, c);
    ScanArgs(s, o + 1, args, 1);
    assert MatchOpenParen(s, o, 1, Outside) == MatchOpenParen(s, o - 1, 0, Outside);
  }

  /** An identifier found in a slice makes every character there an
      identifier part. */
  lemma IdentifierSlice(s: string, n0: int, name: string)
    requires 0 <= n0 && n0 + |name| <= |s| && s[n0..n0 + |name|] == name && IsIdentifier(name)
    ensures forall k :: n0 <= k < n0 + |name| ==> IsIdentifierPart(s[k])
  {
    SliceChars(s, n0, name);
    forall k | n0 <= k < n0 + |name| ensures IsIdentifierPart(s[k]) {
      assert s[n0 + (k - n0)] == name[k - n0];
    }
  }

  /** With a non-empty identifier, where the three backward scans of the
      second half stop. */
  lemma HeadScansAt(s: string, q: int, n0: int, name: string, o: int)
    requires ClauseName(s, q, n0, name, o) && name != []
    ensures SkipWhitespaceBack(s, o - 1) == n0 + |name| - 1
    ensures SkipIdentifierBack(s, n0 + |name| - 1) == n0 - 1
    ensures SkipWhitespaceBack(s, n0 - 1) == q
  {
    var n1 := n0 + |name|;
    IdentifierSlice(s, n0, name);
    IdentifierPartNotWhitespace(s[n1 - 1]);
    SkipWhitespaceBackTo(s, o - 1, n1 - 1);
    IdentifierPartNotWhitespace(s[n0 - 1]);
    SkipIdentifierBackTo(s, n1 - 1, n0 - 1);
    SkipWhitespaceBackTo(s, n0 - 1, q);
  }

  /** With an empty identifier the second half finds no clause. */
  lemma HeadWithoutName(s: string, q: int, n0: int, o: int)
    requires ClauseName(s, q, n0, [], o)
    ensures ClauseHead(s, o - 1) == Ok(-1)
  {
    SkipWhitespaceBackTo(s, o - 1, q);
    assert SkipIdentifierBack(s, q) == q;
  }

  /** With a non-empty identifier the second half reports the '?' or the
      unexpected name. */
  lemma ClauseHeadAt(s: string, q: int, n0: int, name: string, o: int)
    requires ClauseName(s, q, n0, name, o) && name != []
    ensures ClauseHead(s, o - 1)
         == if name == SettingsName then Ok(q) else Err(UnexpectedClauseName(name))
  {
    HeadScansAt(s, q, n0, name, o);
    var n1 := n0 + |name|;
    assert 0 < n0 < n1 < |s| && s[n0..n1] == name;
    var nameLast, beforeName := n1 - 1, n0 - 1;
    assert beforeName + 1 == n0 && nameLast + 1 == n1;
    assert s[beforeName + 1..nameLast + 1] == name;
    ClauseHeadFrom(s, o - 1, nameLast, beforeName, q, name);
  }

  /** The second half of the scan, once the positions it finds are known. */
  lemma ClauseHeadFrom(s: string, beforeOpen: int, nameLast: int, beforeName: int, question: int, name: string)
    requires -1 <= beforeName < nameLast <= beforeOpen < |s|
    requires SkipWhitespaceBack(s, beforeOpen) == nameLast && SkipIdentifierBack(s, nameLast) == beforeName
    requires SkipWhitespaceBack(s, beforeName) == question && question >= 0 && s[question] == '?'
    requires name == s[beforeName + 1..nameLast + 1]
    ensures ClauseHead(s, beforeOpen)
         == if name == SettingsName then Ok(question) else Err(UnexpectedClauseName(name))
  {
  }

  /** The two halves together. */
  lemma LocateAt(s: string, q: int, n0: int, name: string, o: int, args: seq<ArgToken>)
    requires WellFormedArgs(args) && ClauseAt(s, q, n0, name, o, RenderArgs(args))
    ensures Locate(s)
         == if name == [] then Ok(-1)
            else if name == SettingsName then Ok(q)
            else Err(UnexpectedClauseName(name))
  {
    ClauseOpenAt(s, o, args);
    if name == [] {
      HeadWithoutName(s, q, n0, o);
    } else {
      ClauseHeadAt(s, q, n0, name, o);
    }
  }

  /** Where the parts of the text before the '(' sit. */
  lemma NameLayout(h: string, prefix: string, w1: string, name: string, w2: string)
    requires AllWhitespace(w1) && AllWhitespace(w2)
    requires h == prefix + "?" + w1 + name + w2
    ensures var q := |prefix|; var n0 := q + 1 + |w1|;
      && |h| == n0 + |name| + |w2| && h[q] == '?'
      && (forall k :: q < k < n0 ==> IsWhitespace(h[k]))
      && h[n0..n0 + |name|] == name
      && (forall k :: n0 + |name| <= k < |h| ==> IsWhitespace(h[k]))
  {
    var q := |prefix|;
    var n0 := q + 1 + |w1|;
    var n1 := n0 + |name|;
    forall k | q < k < n0 ensures IsWhitespace(h[k]) {
      assert h[k] == w1[k - q - 1];
    }
    forall k | n1 <= k < |h| ensures IsWhitespace(h[k]) {
      assert h[k] == w2[k - n1];
    }
    assert h[n0..n1] == name;
  }

  /** Where the parts of the text from the '(' on sit. */
  lemma TailLayout(t: string, r: string, w3: string)
    requires AllWhitespace(w3)
    requires t == "(" + r + ")" + w3
    ensures ClauseTail(t, 0, r)
  {
    var c := 1 + |r|;
    assert t[0] == '(' && t[c] == ')';
    assert t[1..c] == r;
    forall k | c < k < |t| ensures IsWhitespace(t[k]) {
      assert t[k] == w3[k - c - 1];
    }
  }

  /** The clause start survives appending text after it. */
  lemma ExtendName(h: string, t: string, q: int, n0: int, name: string)
    requires 0 <= q < n0 && n0 + |name| <= |h| && |t| > 0 && IsIdentifier(name)
    requires h[q] == '?' && h[n0..n0 + |name|] == name
    requires forall k :: q < k < n0 ==> IsWhitespace(h[k])
    requires forall k :: n0 + |name| <= k < |h| ==> IsWhitespace(h[k])
    ensures ClauseName(h + t, q, n0, name, |h|)
  {
    var s := h + t;
    forall k | 0 <= k < |h| ensures s[k] == h[k] { }
    assert s[n0..n0 + |name|] == h[n0..n0 + |name|];
  }

  /** The clause end survives prepending text before it. */
  lemma ShiftTail(h: string, t: string, r: string)
    requires ClauseTail(t, 0, r)
    ensures ClauseTail(h + t, |h|, r)
  {
    var s := h + t;
    var o := |h|;
    forall k | o <= k < |s| ensures s[k] == t[k - o] { }
    assert s[o + 1..o + 1 + |r|] == t[1..1 + |r|];
  }

  /** The whole clause text, from its two parts. */
  lemma ClauseLayout(s: string, prefix: string, w1: string, name: string, w2: string, r: string, w3: string)
    requires AllWhitespace(w1) && AllWhitespace(w2) && AllWhitespace(w3) && IsIdentifier(name)
    requires s == prefix + "?" + w1 + name + w2 + "(" + r + ")" + w3
    ensures ClauseAt(s, |prefix|, |prefix| + 1 + |w1|, name, |prefix| + 1 + |w1| + |name| + |w2|, r)
  {
    var h := prefix + "?" + w1 + name + w2;
    var t := "(" + r + ")" + w3;
    HeadAndTail(prefix, w1, name, w2, r, w3);
    NameLayout(h, prefix, w1, name, w2);
    TailLayout(t, r, w3);
    ExtendName(h, t, |prefix|, |prefix| + 1 + |w1|, name);
    ShiftTail(h, t, r);
    var o := |prefix| + 1 + |w1| + |name| + |w2|;
    assert |h| == o;
    assert ClauseName(s, |prefix|, |prefix| + 1 + |w1|, name, o) && ClauseTail(s, o, r);
  }

  lemma HeadAndTail(prefix: string, w1: string, name: string, w2: string, r: string, w3: string)
    ensures prefix + "?" + w1 + name + w2 + "(" + r + ")" + w3
         == (prefix + "?" + w1 + name + w2) + ("(" + r + ")" + w3)
  {
  }

  /** A path ending in "?", a name and a parenthesised well-formed argument
      list (whitespace allowed around the name and at the end) is recognised:
      with the name "settings" the result is the index of the '?', with
      another name it is an error naming it, and with no name at all there is
      no clause. Whatever comes before the '?' does not matter. */
  lemma ClauseRecognised(s: string, prefix: string, w1: string, name: string, w2: string,
                         args: seq<ArgToken>, w3: string)
    requires AllWhitespace(w1) && AllWhitespace(w2) && AllWhitespace(w3)
    requires IsIdentifier(name) && WellFormedArgs(args)
    requires s == prefix + "?" + w1 + name + w2 + "(" + RenderArgs(args) + ")" + w3
    ensures Locate(s)
         == if name == [] then Ok(-1)
            else if name == SettingsName then Ok(|prefix|)
            else Err(UnexpectedClauseName(name))
  {
    var r := RenderArgs(args);
    ClauseLayout(s, prefix, w1, name, w2, r, w3);
    LocateAt(s, |prefix|, |prefix| + 1 + |w1|, name, |prefix| + 1 + |w1| + |name| + |w2|, args);
  }

  /** When the first half of the scan finds a region, it ends in ')'
      followed only by whitespace and starts with '(' just after the
      returned position. */
  lemma ClauseOpenShape(s: string) returns (close: nat)
    requires ClauseOpen(s).Some?
    ensures var open := ClauseOpen(s).value + 1;
      0 <= open < close < |s| && s[open] == '(' && s[close] == ')'
    ensures forall k :: close < k < |s| ==> IsWhitespace(s[k])
  {
    close := SkipWhitespaceBack(s, |s| - 1);
    SkippedWhitespace(s, |s| - 1);
    MatchOpenParenFound(s, close - 1, 1, Outside);
  }

  /** The locator returns -1 or the index of a '?'. */
  lemma LocatedQuestion(s: string)
    ensures Locate(s).Ok? ==> -1 <= Locate(s).value < |s| && (Locate(s).value >= 0 ==> s[Locate(s).value] == '?')
  {
    match ClauseOpen(s)
    case None =>
    case Some(beforeOpen) =>
      var nameLast := SkipWhitespaceBack(s, beforeOpen);
      var beforeName := SkipIdentifierBack(s, nameLast);
      var question := SkipWhitespaceBack(s, beforeName);
  }

  /** When the second half of the scan reports something, what it read
      before the '(' at o is a '?', whitespace, a non-empty identifier and
      whitespace; the report is the '?' for "settings" and an error naming
      the identifier otherwise. */
  lemma ClauseHeadShape(s: string, o: int) returns (question: nat, nameStart: nat, name: string)
    requires 0 <= o < |s| && ClauseHead(s, o - 1) != Ok(-1)
    ensures ClauseName(s, question, nameStart, name, o) && name != []
    ensures ClauseHead(s, o - 1) == if name == SettingsName then Ok(question) else Err(UnexpectedClauseName(name))
  {
    var nameLast, beforeName;
    nameLast, beforeName, question := HeadPositions(s, o - 1);
    NameFromSkips(s, o, nameLast, beforeName, question);
    nameStart := beforeName + 1;
    name := s[beforeName + 1..nameLast + 1];
    ClauseHeadFrom(s, o - 1, nameLast, beforeName, question, name);
  }

  /** The stretches the three backward skips pass over make up a clause name. */
  lemma NameFromSkips(s: string, o: int, nameLast: int, beforeName: int, question: nat)
    requires 0 <= o < |s| && -1 <= beforeName < nameLast <= o - 1
    requires SkipWhitespaceBack(s, o - 1) == nameLast && SkipIdentifierBack(s, nameLast) == beforeName
    requires SkipWhitespaceBack(s, beforeName) == question && question < |s| && s[question] == '?'
    ensures ClauseName(s, question, beforeName + 1, s[beforeName + 1..nameLast + 1], o)
    ensures s[beforeName + 1..nameLast + 1] != []
  {
    SkippedWhitespace(s, o - 1);
    SkippedIdentifier(s, nameLast);
    SkippedWhitespace(s, beforeName);
    var nameStart := beforeName + 1;
    var name := s[nameStart..nameLast + 1];
    assert |name| == nameLast + 1 - nameStart && nameStart + |name| == nameLast + 1;
    IdentifierFromChars(s, nameStart, nameLast + 1);
  }

  /** Where the three backward skips of a successful clause head stop. */
  lemma HeadPositions(s: string, beforeOpen: int) returns (nameLast: int, beforeName: int, question: nat)
    requires -1 <= beforeOpen < |s| && ClauseHead(s, beforeOpen) != Ok(-1)
    ensures -1 <= beforeName < nameLast <= beforeOpen
    ensures SkipWhitespaceBack(s, beforeOpen) == nameLast && SkipIdentifierBack(s, nameLast) == beforeName
    ensures SkipWhitespaceBack(s, beforeName) == question && question < |s| && s[question] == '?'
  {
    nameLast := SkipWhitespaceBack(s, beforeOpen);
    beforeName := SkipIdentifierBack(s, nameLast);
    question := SkipWhitespaceBack(s, beforeName);
  }

  /** A stretch of identifier characters is an identifier. */
  lemma IdentifierFromChars(s: string, lo: int, hi: int)
    requires 0 <= lo <= hi <= |s|
    requires forall k :: lo <= k < hi ==> IsIdentifierPart(s[k])
    ensures IsIdentifier(s[lo..hi])
  {
    forall k | 0 <= k < hi - lo ensures IsIdentifierPart(s[lo..hi][k]) {
      assert s[lo..hi][k] == s[lo + k];
    }
  }

  /** Whenever the locator does not answer "no clause", the path really has
      the clause shape: a '?', whitespace, a non-empty identifier,
      whitespace, '(' and, after the balanced region, ')' followed only by
      whitespace. The answer is the index of the '?' when the identifier is
      "settings", and an error naming the identifier otherwise. The '(' is
      the first one after the '?', which is where the settings evaluator is
      started. */
  lemma LocatedClauseShape(s: string) returns (question: nat, nameStart: nat, name: string, open: nat, close: nat)
    requires Locate(s) != Ok(-1)
    ensures ClauseName(s, question, nameStart, name, open) && name != []
    ensures open < close < |s| && s[open] == '(' && s[close] == ')'
    ensures forall k :: close < k < |s| ==> IsWhitespace(s[k])
    ensures IndexOf(s, '(', question) == open
    ensures Locate(s) == if name == SettingsName then Ok(question) else Err(UnexpectedClauseName(name))
  {
    close := ClauseOpenShape(s);
    open := ClauseOpen(s).value + 1;
    question, nameStart, name := ClauseHeadShape(s, open);
    FirstParenAfterQuestion(s, question, nameStart, name, open);
  }

  /** In the clause start the '(' at o is the first one after the '?'. */
  lemma FirstParenAfterQuestion(s: string, q: int, n0: int, name: string, o: int)
    requires ClauseName(s, q, n0, name, o) && s[o] == '('
    ensures IndexOf(s, '(', q) == o
  {
    IdentifierSlice(s, n0, name);
    forall k | q <= k < o ensures s[k] != '(' {
      if n0 <= k < n0 + |name| {
        assert IsIdentifierPart(s[k]);
      }
    }
  }

  lemma SettingsNameIsIdentifier()
    ensures IsIdentifier(SettingsName)
  {
    assert forall k :: 0 <= k < |SettingsName| ==> IsIdentifierPart(SettingsName[k]);
  }

  /** The clause of the form "?settings(x=")")": the ')' inside the string
      literal does not end the argument list. */
  /** An ideographic space (U+3000) after the clause is skipped like any
      other whitespace: the clause is still found. */
  lemma TrailingIdeographicSpaceSkipped()
    ensures Locate("x?settings(a=1)\U{3000}") == Ok(1)
  {
    IdeographicText();
    SinglePlain("a=1");
    SettingsNameIsIdentifier();
    ClauseRecognised("x?settings(a=1)\U{3000}", "x", "", SettingsName, "", [Plain("a=1")], "\U{3000}");
  }

  /** A name character outside the modelled identifier set (here U+00E9) ends
      the name scan early: the character before the shortened name is not
      '?', so no clause is reported. */
  lemma NonAsciiNameCutShort()
    ensures Locate("x?\U{00E9}a(b)") == Ok(-1)
  {
    NonAsciiOpen();
    NonAsciiHead();
  }

  lemma NonAsciiOpen()
    ensures ClauseOpen("x?\U{00E9}a(b)") == Some(3)
  {
    var s := "x?\U{00E9}a(b)";
    SinglePlain("b");
    assert ClauseTail(s, 4, RenderArgs([Plain("b")]));
    ClauseOpenAt(s, 4, [Plain("b")]);
  }

  lemma NonAsciiHead()
    ensures ClauseHead("x?\U{00E9}a(b)", 3) == Ok(-1)
  {
    var s := "x?\U{00E9}a(b)";
    assert SkipWhitespaceBack(s, 3) == 3;
    assert SkipIdentifierBack(s, 3) == 2;
    assert SkipWhitespaceBack(s, 2) == 2;
  }

  lemma IdeographicText()
    ensures "x?settings(a=1)\U{3000}" == "x" + "?" + "" + SettingsName + "" + "(" + "a=1" + ")" + "\U{3000}"
  {
  }

  lemma QuotedParenthesisIsSkipped()
    ensures Locate("foo?settings(x=\")\")") == Ok(3)
  {
    var s := "foo?settings(x=\")\")";
    var args := [Plain("x="), Quoted('"', ")")];
    assert RenderArgs(args) == "x=\")\"" by {
      assert args[..1] == [Plain("x=")];
      assert RenderArgs(args[..1]) == "x=";
    }
    assert WellFormedArgs(args) by {
      assert args[..1] == [Plain("x=")];
      assert args[..1][..0] == [];
      assert WellFormedToken(Plain("x="));
      assert WellFormedToken(Quoted('"', ")"));
    }
    QuotedClauseLayout();
    LocateAt(s, 3, 4, SettingsName, 12, args);
  }

  lemma QuotedClauseLayout()
    ensures ClauseAt("foo?settings(x=\")\")", 3, 4, SettingsName, 12, "x=\")\"")
  {
    var s := "foo?settings(x=\")\")";
    SettingsNameIsIdentifier();
    assert s == "foo" + "?" + "" + SettingsName + "" + "(" + "x=\")\"" + ")" + "";
    ClauseLayout(s, "foo", "", SettingsName, "", "x=\")\"", "");
    assert |"foo"| == 3 && |SettingsName| + 4 == |"foo"| + 1 + |""| + |SettingsName| + |""|;
  }

  /** "foo?bogus(a=1)" is refused, naming "bogus". */
  lemma UnknownClauseNameIsRefused()
    ensures Locate("foo?bogus(a=1)") == Err(UnexpectedClauseName("bogus"))
  {
    SinglePlain("a=1");
    BogusClauseLayout();
    LocateAt("foo?bogus(a=1)", 3, 4, "bogus", 9, [Plain("a=1")]);
    assert "bogus" != [] && "bogus" != SettingsName;
  }

  /** An argument list of one plain token. */
  lemma SinglePlain(text: string)
    requires forall k :: 0 <= k < |text| ==> IsPlainChar(text[k])
    ensures WellFormedArgs([Plain(text)]) && RenderArgs([Plain(text)]) == text
  {
    var ts := [Plain(text)];
    assert ts[..|ts| - 1] == [] && ts[|ts| - 1] == Plain(text);
    assert WellFormedToken(Plain(text));
    assert RenderArgs(ts) == RenderArgs([]) + RenderToken(Plain(text));
  }

  lemma BogusClauseLayout()
    ensures ClauseAt("foo?bogus(a=1)", 3, 4, "bogus", 9, "a=1")
  {
    var s := "foo?bogus(a=1)";
    var name := "bogus";
    assert IsIdentifier(name) by {
      assert forall k :: 0 <= k < |name| ==> IsIdentifierPart(name[k]);
    }
    assert s == "foo" + "?" + "" + name + "" + "(" + "a=1" + ")" + "";
    ClauseLayout(s, "foo", "", name, "", "a=1", "");
    assert |"foo"| == 3 && |name| + 4 == |"foo"| + 1 + |""| + |name| + |""|;
  }
}
