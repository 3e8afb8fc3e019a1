/** The regular expressions the sign-up and sign-in forms test values
    against, each written as the set of strings it accepts together with a
    decision procedure proved to agree with it. */
module Patterns {
  import opened Text

  // ---------------------------------------------------------------------------
  // /^[^\s@]+@[^\s@]+\.[^\s@]+$/

  /** The class `[^\s@]`. */
  predicate IsEmailChar(c: char) {
    !IsSpace(c) && c != '@'
  }

  predicate AllEmailChars(s: string) {
    forall k :: 0 <= k < |s| ==> IsEmailChar(s[k])
  }

  /** The strings the e-mail pattern accepts: a non-empty local part, `@`,
      a non-empty domain head, `.`, and a non-empty tail, no part holding
      white space or `@` (the head and the tail may themselves hold dots). */
  ghost predicate EmailPattern(s: string) {
    exists i, j :: 0 < i && i + 1 < j && j + 1 < |s| && s[i] == '@' && s[j] == '.'
      && AllEmailChars(s[..i]) && AllEmailChars(s[i + 1..j]) && AllEmailChars(s[j + 1..])
  }

  /** The index of the first `c` in `s`, or `|s|` when there is none. */
  function FirstIndex(s: string, c: char): (i: nat)
    ensures i <= |s|
    ensures i < |s| ==> s[i] == c
    ensures forall k :: 0 <= k < i ==> s[k] != c
  {
    if s == [] then 0
    else if s[0] == c then 0
    else 1 + FirstIndex(s[1..], c)
  }

  /** The e-mail test: one `@` after at least one character, no white
      space, and a dot with a character on each side after the `@`. */
  function IsEmail(s: string): (b: bool)
    ensures b <==> EmailPattern(s)
  {
    var i := FirstIndex(s, '@');
    var b := 1 <= i && i + 3 < |s| && AllEmailChars(s[..i]) && AllEmailChars(s[i + 1..])
      && '.' in s[i + 2..|s| - 1];
    EmailDecision(s, i, b);
    b
  }

  lemma EmailCharsSlice(u: string, a: nat, b: nat)
    requires AllEmailChars(u) && a <= b <= |u|
    ensures AllEmailChars(u[a..b])
  {
    assert forall k :: 0 <= k < b - a ==> u[a..b][k] == u[a + k];
  }

  /** An `@` with no `@` before it is the first one. */
  lemma FirstAtSign(s: string, i: nat)
    requires i < |s| && s[i] == '@' && AllEmailChars(s[..i])
    ensures FirstIndex(s, '@') == i
  {
  }

  /** The text after the `@` of a match, dot included, is free of white
      space and `@`. */
  lemma AfterAtSign(s: string, i: nat, j: nat)
    requires i < j < |s| && s[j] == '.'
    requires AllEmailChars(s[i + 1..j]) && AllEmailChars(s[j + 1..])
    ensures AllEmailChars(s[i + 1..])
  {
    var rest := s[i + 1..];
    forall k | 0 <= k < |rest| ensures IsEmailChar(rest[k]) {
      var p := i + 1 + k;
      assert rest[k] == s[p];
      if p < j {
        assert s[i + 1..j][p - i - 1] == s[p];
      } else if p > j {
        assert s[j + 1..][p - j - 1] == s[p];
      }
    }
  }

  /** The parts around an `@` and a later dot match the pattern's parts. */
  lemma EmailSound(s: string, i: nat, j: nat)
    requires 0 < i && i + 1 < j && j + 1 < |s| && s[i] == '@' && s[j] == '.'
    requires AllEmailChars(s[..i]) && AllEmailChars(s[i + 1..])
    ensures EmailPattern(s)
  {
    var rest := s[i + 1..];
    EmailCharsSlice(rest, 0, j - i - 1);
    assert rest[0..j - i - 1] == s[i + 1..j];
    EmailCharsSlice(rest, j - i, |rest|);
    assert rest[j - i..|rest|] == s[j + 1..];
  }

  /** In a match, the `@` is the first one and everything after it is free
      of white space and `@`. */
  lemma EmailComplete(s: string, i: nat, j: nat)
    requires 0 < i && i + 1 < j && j + 1 < |s| && s[i] == '@' && s[j] == '.'
    requires AllEmailChars(s[..i]) && AllEmailChars(s[i + 1..j]) && AllEmailChars(s[j + 1..])
    ensures FirstIndex(s, '@') == i && AllEmailChars(s[i + 1..])
  {
    FirstAtSign(s, i);
    AfterAtSign(s, i, j);
  }

  /** A dot found after the first `@` yields a match. */
  lemma EmailDecisionSound(s: string, i: nat)
    requires i < |s| && s[i] == '@'
    requires 1 <= i && i + 3 < |s| && AllEmailChars(s[..i]) && AllEmailChars(s[i + 1..])
    requires '.' in s[i + 2..|s| - 1]
    ensures EmailPattern(s)
  {
    var t := s[i + 2..|s| - 1];
    var k :| 0 <= k < |t| && t[k] == '.';
    assert s[i + 2 + k] == '.';
    EmailSound(s, i, i + 2 + k);
  }

  /** A match has its `@` first and its dot where the search after the
      `@` looks. */
  lemma EmailDecisionComplete(s: string, i: nat, j: nat)
    requires 0 < i && i + 1 < j && j + 1 < |s| && s[i] == '@' && s[j] == '.'
    requires AllEmailChars(s[..i]) && AllEmailChars(s[i + 1..j]) && AllEmailChars(s[j + 1..])
    ensures FirstIndex(s, '@') == i && i + 3 < |s| && AllEmailChars(s[i + 1..])
    ensures '.' in s[i + 2..|s| - 1]
  {
    EmailComplete(s, i, j);
    assert s[i + 2..|s| - 1][j - i - 2] == '.';
  }

  lemma EmailDecision(s: string, i: nat, b: bool)
    requires i == FirstIndex(s, '@')
    requires b == (1 <= i && i + 3 < |s| && AllEmailChars(s[..i]) && AllEmailChars(s[i + 1..])
      && '.' in s[i + 2..|s| - 1])
    ensures b <==> EmailPattern(s)
  {
    if b {
      EmailDecisionSound(s, i);
    }
    if EmailPattern(s) {
      var i', j :| 0 < i' && i' + 1 < j && j + 1 < |s| && s[i'] == '@' && s[j] == '.'
        && AllEmailChars(s[..i']) && AllEmailChars(s[i' + 1..j]) && AllEmailChars(s[j + 1..]);
      EmailDecisionComplete(s, i', j);
    }
  }

  /** The address the order form fills in is one the pattern accepts. */
  lemma OrderFormEmailAccepted()
    ensures IsEmail("customer@example.com")
  {
    var s := "customer@example.com";
    EmailSound(s, 8, 16);
  }

  /** An address with no dot after its `@` is refused. */
  lemma EmailWithoutDotRefused()
    ensures !IsEmail("me@example")
  {
    var s := "me@example";
    assert FirstIndex(s, '@') == 2 by {
      assert s[0] != '@' && s[1] != '@' && s[2] == '@';
    }
    assert '.' !in s[4..9];
  }

  // ---------------------------------------------------------------------------
  // /^[a-zA-Z0-9_]+$/ and /^[0-9]{10}$/

  /** The class `[a-zA-Z0-9_]`. */
  predicate IsWordChar(c: char) {
    IsAsciiLower(c) || IsAsciiUpper(c) || IsDigit(c) || c == '_'
  }

  /** `/^[a-zA-Z0-9_]+$/`. */
  predicate IsUsernameText(s: string) {
    |s| >= 1 && forall k :: 0 <= k < |s| ==> IsWordChar(s[k])
  }

  /** `/^[0-9]{10}$/`. */
  predicate IsTenDigits(s: string) {
    |s| == 10 && AllDigits(s)
  }

  // ---------------------------------------------------------------------------
  // /(?=.*[a-z])(?=.*[A-Z])(?=.*\d)/

  /** The characters `.` does not match: the line terminators. */
  predicate IsLineTerminator(c: char) {
    c == '\n' || c == '\r' || c == '\U{2028}' || c == '\U{2029}'
  }

  datatype CharClass = LowerLetter | UpperLetter | Digit

  predicate InClass(c: char, k: CharClass) {
    match k
    case LowerLetter => IsAsciiLower(c)
    case UpperLetter => IsAsciiUpper(c)
    case Digit => IsDigit(c)
  }

  /** `(?=.*[class])` at position `p`: a character of the class at or after
      `p` with no line terminator in between. */
  predicate AheadInLine(s: string, p: nat, k: CharClass) {
    exists q :: p <= q < |s| && InClass(s[q], k) && forall m :: p <= m < q ==> !IsLineTerminator(s[m])
  }

  /** The unanchored pattern matches: at some position all three
      lookaheads succeed. */
  predicate PasswordPattern(s: string) {
    exists p :: 0 <= p <= |s| && AheadInLine(s, p, LowerLetter) && AheadInLine(s, p, UpperLetter)
      && AheadInLine(s, p, Digit)
  }

  predicate Contains(s: string, k: CharClass) {
    exists q :: 0 <= q < |s| && InClass(s[q], k)
  }

  /** On a single line the pattern means what its message says: some
      lowercase letter, some uppercase letter and some digit. */
  lemma PasswordPatternOnOneLine(s: string)
    requires forall m :: 0 <= m < |s| ==> !IsLineTerminator(s[m])
    ensures PasswordPattern(s) <==> Contains(s, LowerLetter) && Contains(s, UpperLetter) && Contains(s, Digit)
  {
    if Contains(s, LowerLetter) && Contains(s, UpperLetter) && Contains(s, Digit) {
      assert AheadInLine(s, 0, LowerLetter) && AheadInLine(s, 0, UpperLetter) && AheadInLine(s, 0, Digit);
    }
  }

  /** Across a line break the three need not be found together. */
  lemma PasswordPatternSplitByNewline()
    ensures var s := "aB\n1";
      Contains(s, LowerLetter) && Contains(s, UpperLetter) && Contains(s, Digit) && !PasswordPattern(s)
  {
    var s := "aB\n1";
    assert InClass(s[0], LowerLetter) && InClass(s[1], UpperLetter) && InClass(s[3], Digit);
    forall p | 0 <= p <= |s| && AheadInLine(s, p, LowerLetter) && AheadInLine(s, p, UpperLetter)
      ensures !AheadInLine(s, p, Digit)
    {
      var q :| p <= q < |s| && InClass(s[q], LowerLetter) && forall m :: p <= m < q ==> !IsLineTerminator(s[m]);
      assert q == 0;
      forall d | p <= d < |s| && InClass(s[d], Digit)
        ensures IsLineTerminator(s[2]) && p <= 2 < d
      {
        assert d == 3;
      }
    }
  }
}
