/**
 * The Java library string operations the parser relies on: String.trim,
 * String.indexOf(char, from), Character.isWhitespace,
 * Character.isJavaIdentifierPart (below U+00A0 only) and the
 * StringUtil.split(String, char) helper (split at every separator, keeping
 * empty pieces). Strings are sequences of Unicode characters, so a position
 * counts characters where Java counts UTF-16 code units.
 */
module JavaText {

  /** Character.isWhitespace: U+0009..U+000D, U+001C..U+001F, and the space,
      line and paragraph separators other than the no-break spaces U+00A0,
      U+2007 and U+202F, as of Unicode 6.3. */
  predicate IsWhitespace(c: char) {
    || ('\t' <= c <= '\r') || ('\U{001C}' <= c <= ' ')
    || c == '\U{1680}' || ('\U{2000}' <= c <= '\U{2006}') || ('\U{2008}' <= c <= '\U{200A}')
    || c == '\U{2028}' || c == '\U{2029}' || c == '\U{205F}' || c == '\U{3000}'
  }

  /** Character.isJavaIdentifierPart, restricted to the characters below
      U+00A0, where it holds for the ASCII letters and digits,
      '_' and '$', and the identifier-ignorable control characters
      U+0000..U+0008, U+000E..U+001B and U+007F..U+009F. */
  predicate IsIdentifierPart(c: char) {
    || ('a' <= c <= 'z') || ('A' <= c <= 'Z') || ('0' <= c <= '9')
    || c == '_' || c == '$'
    || ('\U{0000}' <= c <= '\U{0008}') || ('\U{000E}' <= c <= '\U{001B}')
    || ('\U{007F}' <= c <= '\U{009F}')
  }

  /** String.trim removes every leading and trailing character whose code is
      at most U+0020. */
  predicate IsBlank(c: char) {
    c <= ' '
  }

  predicate IsTrimmed(s: string) {
    s == [] || (!IsBlank(s[0]) && !IsBlank(s[|s| - 1]))
  }

  predicate AllBlank(s: string) {
    forall k :: 0 <= k < |s| ==> IsBlank(s[k])
  }

  /** The first position at or after i that is not blank (or |s|). */
  function SkipBlanks(s: string, i: nat): (b: nat)
    requires i <= |s|
    ensures i <= b <= |s| && (b < |s| ==> !IsBlank(s[b]))
    decreases |s| - i
  {
    if i < |s| && IsBlank(s[i]) then SkipBlanks(s, i + 1) else i
  }

  /** The end of s[lo..j] once its trailing blanks are dropped. */
  function SkipBlanksBack(s: string, lo: nat, j: nat): (e: nat)
    requires lo <= j <= |s|
    ensures lo <= e <= j && (e > lo ==> !IsBlank(s[e - 1]))
    decreases j
  {
    if j > lo && IsBlank(s[j - 1]) then SkipBlanksBack(s, lo, j - 1) else j
  }

  /** String.trim: drop the blanks at the front, then the blanks at the back. */
  function Trim(s: string): (r: string)
    ensures IsTrimmed(r)
    ensures |r| <= |s|
  {
    var b := SkipBlanks(s, 0);
    s[b..SkipBlanksBack(s, b, |s|)]
  }

  lemma {:induction false} SkipBlanksSkipsBlanks(s: string, i: nat)
    requires i <= |s|
    ensures forall k :: i <= k < SkipBlanks(s, i) ==> IsBlank(s[k])
    decreases |s| - i
  {
    if i < |s| && IsBlank(s[i]) {
      SkipBlanksSkipsBlanks(s, i + 1);
    }
  }

  lemma {:induction false} SkipBlanksBackSkipsBlanks(s: string, lo: nat, j: nat)
    requires lo <= j <= |s|
    ensures forall k :: SkipBlanksBack(s, lo, j) <= k < j ==> IsBlank(s[k])
    decreases j
  {
    if j > lo && IsBlank(s[j - 1]) {
      SkipBlanksBackSkipsBlanks(s, lo, j - 1);
    }
  }

  /** The trimmed string is the slice s[i..j] and everything around it is blank. */
  lemma TrimSlice(s: string) returns (i: nat, j: nat)
    ensures i <= j <= |s| && Trim(s) == s[i..j]
    ensures AllBlank(s[..i]) && AllBlank(s[j..])
  {
    i := SkipBlanks(s, 0);
    j := SkipBlanksBack(s, i, |s|);
    SkipBlanksSkipsBlanks(s, 0);
    SkipBlanksBackSkipsBlanks(s, i, |s|);
    assert forall k :: 0 <= k < |s[j..]| ==> s[j..][k] == s[j + k];
  }

  /** Trimming leaves a string unchanged exactly when it is already trimmed. */
  lemma TrimFixpoint(s: string)
    ensures Trim(s) == s <==> IsTrimmed(s)
  {
    if IsTrimmed(s) && s != [] {
      assert SkipBlanks(s, 0) == 0;
      assert SkipBlanksBack(s, 0, |s|) == |s|;
    }
  }

  /** A string trims to nothing exactly when all its characters are blank. */
  lemma TrimEmpty(s: string)
    ensures Trim(s) == [] <==> AllBlank(s)
  {
    var i, j := TrimSlice(s);
    if Trim(s) == [] {
      forall k | 0 <= k < |s| ensures IsBlank(s[k]) {
        if k < i { assert s[..i][k] == s[k]; } else { assert s[j..][k - j] == s[k]; }
      }
    }
  }

  /** String.startsWith. */
  predicate StartsWith(s: string, prefix: string) {
    |prefix| <= |s| && s[..|prefix|] == prefix
  }

  /** String.endsWith. */
  predicate EndsWith(s: string, suffix: string) {
    |suffix| <= |s| && s[|s| - |suffix|..] == suffix
  }

  /** A string that differs from a prefix at some position does not start with it. */
  lemma DiffersFromPrefix(s: string, prefix: string, k: nat)
    requires k < |s| && k < |prefix| && s[k] != prefix[k]
    ensures !StartsWith(s, prefix)
  {
    if |prefix| <= |s| {
      assert s[..|prefix|][k] == s[k];
    }
  }

  /** String.indexOf(c, from) for a non-negative from: the first position at or
      after from holding c, or -1. */
  function IndexOf(s: string, c: char, from: nat): (r: int)
    ensures -1 <= r < |s|
    ensures r >= 0 ==> from <= r && s[r] == c && forall k :: from <= k < r ==> s[k] != c
    ensures r == -1 ==> forall k :: from <= k < |s| ==> s[k] != c
    decreases |s| - from
  {
    if from >= |s| then -1
    else if s[from] == c then from
    else IndexOf(s, c, from + 1)
  }

  /** StringUtil.split(s, sep): the pieces between separators, empty ones
      included; there is always one piece more than there are separators. */
  function Split(s: string, sep: char): (pieces: seq<string>)
    ensures |pieces| >= 1
  {
    if |s| == 0 then [""]
    else
      var rest := Split(s[1..], sep);
      if s[0] == sep then [""] + rest
      else [[s[0]] + rest[0]] + rest[1..]
  }

  /** No piece holds the separator, and no piece is longer than the string. */
  lemma {:induction false} SplitPieces(s: string, sep: char)
    ensures forall i :: 0 <= i < |Split(s, sep)| ==> sep !in Split(s, sep)[i] && |Split(s, sep)[i]| <= |s|
    decreases |s|
  {
    if |s| > 0 {
      SplitPieces(s[1..], sep);
    }
  }

  /** The pieces glued back together with the separator between them. */
  function Join(pieces: seq<string>, sep: char): string
  {
    if |pieces| == 0 then ""
    else if |pieces| == 1 then pieces[0]
    else pieces[0] + [sep] + Join(pieces[1..], sep)
  }

  /** Joining the pieces of a split restores the original string. */
  lemma {:induction false} JoinSplit(s: string, sep: char)
    ensures Join(Split(s, sep), sep) == s
    decreases |s|
  {
    if |s| > 0 {
      JoinSplit(s[1..], sep);
      var rest := Split(s[1..], sep);
      if s[0] != sep {
        if |rest| == 1 {
          assert Split(s, sep) == [[s[0]] + rest[0]];
        } else {
          assert Split(s, sep)[1..] == rest[1..];
        }
      }
    }
  }

  /** A string without separators is a single piece. */
  lemma {:induction false} SplitNoSeparator(s: string, sep: char)
    requires sep !in s
    ensures Split(s, sep) == [s]
    decreases |s|
  {
    if |s| > 0 {
      SplitNoSeparator(s[1..], sep);
      assert [s[0]] + s[1..] == s;
    }
  }

  /** Splitting distributes over a separator: the pieces of a + sep + b are
      the pieces of a followed by those of b. */
  lemma {:induction false} SplitConcat(a: string, sep: char, b: string)
    ensures Split(a + [sep] + b, sep) == Split(a, sep) + Split(b, sep)
    decreases |a|
  {
    var s := a + [sep] + b;
    if |a| == 0 {
      assert s[1..] == b;
    } else {
      assert s[1..] == a[1..] + [sep] + b;
      SplitConcat(a[1..], sep, b);
    }
  }

  /** Splitting the join of separator-free pieces gives back the pieces. */
  lemma {:induction false} SplitJoin(pieces: seq<string>, sep: char)
    requires |pieces| >= 1
    requires forall i :: 0 <= i < |pieces| ==> sep !in pieces[i]
    ensures Split(Join(pieces, sep), sep) == pieces
    decreases |pieces|
  {
    if |pieces| == 1 {
      SplitNoSeparator(pieces[0], sep);
    } else {
      SplitJoin(pieces[1..], sep);
      SplitNoSeparator(pieces[0], sep);
      SplitConcat(pieces[0], sep, Join(pieces[1..], sep));
      assert [pieces[0]] + pieces[1..] == pieces;
    }
  }
}
