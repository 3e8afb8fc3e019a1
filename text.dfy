/** The string operations the application leans on, with JavaScript's meaning:
    `trim`, `toLowerCase` (on ASCII letters), `includes`, the regex classes
    `\s` and `\d`, `toString` of a non-negative integer, `padStart` and
    `slice(-k)`. */
module Text {

  /** The characters JavaScript's `trim` removes and the regex class `\s`
      matches: the white-space and line-terminator code points. */
  predicate IsSpace(c: char) {
    || c == ' ' || c == '\t' || c == '\n' || c == '\r'
    || c == '\U{000B}' || c == '\U{000C}' || c == '\U{00A0}' || c == '\U{1680}'
    || ('\U{2000}' <= c <= '\U{200A}')
    || c == '\U{2028}' || c == '\U{2029}' || c == '\U{202F}' || c == '\U{205F}'
    || c == '\U{3000}' || c == '\U{FEFF}'
  }

  /** Every character is white space (the empty string included). */
  ghost predicate AllSpace(s: string) {
    forall i :: 0 <= i < |s| ==> IsSpace(s[i])
  }

  /** `s` with its leading white space removed. */
  function TrimStart(s: string): (r: string)
    ensures |r| <= |s|
  {
    if s != [] && IsSpace(s[0]) then TrimStart(s[1..]) else s
  }

  /** What `TrimStart` removes is white space, and what it keeps is a suffix
      that does not start with white space. */
  lemma {:induction false} TrimStartShape(s: string)
    ensures var r := TrimStart(s);
      && r == s[|s| - |r|..]
      && (r == [] || !IsSpace(r[0]))
      && AllSpace(s[..|s| - |r|])
  {
    if s != [] && IsSpace(s[0]) {
      TrimStartShape(s[1..]);
      var r := TrimStart(s[1..]);
      assert s[1..][..|s| - 1 - |r|] == s[1..|s| - |r|];
    }
  }

  /** `s` with its trailing white space removed. */
  function TrimEnd(s: string): (r: string)
    ensures |r| <= |s|
  {
    if s != [] && IsSpace(s[|s| - 1]) then TrimEnd(s[..|s| - 1]) else s
  }

  /** What `TrimEnd` removes is white space, and what it keeps is a prefix
      that does not end with white space. */
  lemma {:induction false} TrimEndShape(s: string)
    ensures var r := TrimEnd(s);
      && r == s[..|r|]
      && (r == [] || !IsSpace(r[|r| - 1]))
      && AllSpace(s[|r|..])
  {
    if s != [] && IsSpace(s[|s| - 1]) {
      TrimEndShape(s[..|s| - 1]);
      var r := TrimEnd(s[..|s| - 1]);
      assert s[..|s| - 1][|r|..] + [s[|s| - 1]] == s[|r|..];
    }
  }

  /** JavaScript's `s.trim()`. */
  function Trim(s: string): string {
    TrimEnd(TrimStart(s))
  }

  /** `s.trim() === ''`: the form fields' "is it blank" test. */
  predicate IsBlank(s: string) {
    Trim(s) == []
  }

  /** A string is blank exactly when it consists of white space only. */
  lemma BlankIffAllSpace(s: string)
    ensures IsBlank(s) <==> AllSpace(s)
  {
    var a := TrimStart(s);
    var k := |s| - |a|;
    TrimStartShape(s);
    TrimEndShape(a);
    if IsBlank(s) {
      assert a[|TrimEnd(a)|..] == a;
      assert s[..k] + a == s;
    }
  }

  /** A trimmed string is a piece of the original with no white space at
      either end. */
  lemma TrimmedPiece(s: string)
    ensures var k := |s| - |TrimStart(s)|;
      k + |Trim(s)| <= |s| && Trim(s) == s[k..k + |Trim(s)|]
    ensures Trim(s) != [] ==> !IsSpace(Trim(s)[0]) && !IsSpace(Trim(s)[|Trim(s)| - 1])
  {
    var a := TrimStart(s);
    var b := TrimEnd(a);
    var k := |s| - |a|;
    TrimStartShape(s);
    TrimEndShape(a);
    assert b == a[..|b|];
    if b != [] {
      assert b[0] == a[0];
    }
  }

  /** A string with a non-space character is not blank. */
  lemma NotBlankWhenSomeNonSpace(s: string, i: int)
    requires 0 <= i < |s| && !IsSpace(s[i])
    ensures !IsBlank(s)
  {
    BlankIffAllSpace(s);
  }

  // ---------------------------------------------------------------------------
  // Letters and case

  predicate IsAsciiUpper(c: char) { 'A' <= c <= 'Z' }
  predicate IsAsciiLower(c: char) { 'a' <= c <= 'z' }

  /** `toLowerCase` on one character, for the ASCII letters. */
  function LowerChar(c: char): (r: char)
    ensures !IsAsciiUpper(r)
    ensures IsAsciiUpper(c) ==> r as int == c as int + 32
    ensures !IsAsciiUpper(c) ==> r == c
  {
    if IsAsciiUpper(c) then (c as int + 32) as char else c
  }

  /** `s.toLowerCase()` on ASCII letters. */
  function Lower(s: string): (r: string)
    ensures |r| == |s|
    ensures forall i :: 0 <= i < |s| ==> r[i] == LowerChar(s[i])
  {
    if s == [] then [] else [LowerChar(s[0])] + Lower(s[1..])
  }

  // ---------------------------------------------------------------------------
  // Substrings

  /** The reference meaning of "`needle` occurs in `hay`". */
  ghost predicate OccursAt(hay: string, needle: string, i: int) {
    0 <= i && i + |needle| <= |hay| && hay[i..i + |needle|] == needle
  }

  ghost predicate Occurs(hay: string, needle: string) {
    exists i :: OccursAt(hay, needle, i)
  }

  /** JavaScript's `hay.includes(needle)`, scanning from the left. */
  function Includes(hay: string, needle: string): (b: bool)
    ensures b <==> Occurs(hay, needle)
    decreases |hay|
  {
    if needle <= hay then
      assert OccursAt(hay, needle, 0);
      true
    else if |hay| <= |needle| then
      assert forall i :: !OccursAt(hay, needle, i) by {
        forall i | 0 <= i && i + |needle| <= |hay| ensures !OccursAt(hay, needle, i) {
          assert i == 0 && |hay| == |needle|;
          assert hay[0..|needle|] == hay;
        }
      }
      false
    else
      var rest := Includes(hay[1..], needle);
      assert rest ==> Occurs(hay, needle) by {
        if rest {
          var j :| OccursAt(hay[1..], needle, j);
          assert hay[1..][j..j + |needle|] == hay[j + 1..j + 1 + |needle|];
          assert OccursAt(hay, needle, j + 1);
        }
      }
      assert Occurs(hay, needle) ==> rest by {
        if Occurs(hay, needle) {
          var j :| OccursAt(hay, needle, j);
          assert hay[0..|needle|] == hay[..|needle|];
          assert j != 0;
          assert hay[1..][j - 1..j - 1 + |needle|] == hay[j..j + |needle|];
          assert OccursAt(hay[1..], needle, j - 1);
        }
      }
      rest
  }

  /** The empty string occurs in every string: an empty search matches all. */
  lemma EmptyIncluded(hay: string)
    ensures Includes(hay, "")
  {
    assert OccursAt(hay, "", 0);
  }

  /** `prefix` is a prefix of `s`: `s.startsWith(prefix)`. */
  predicate StartsWith(s: string, prefix: string) {
    prefix <= s
  }

  // ---------------------------------------------------------------------------
  // Digits and decimal numbers

  /** The regex class `\d` and `[0-9]`: the ASCII digits. */
  predicate IsDigit(c: char) { '0' <= c <= '9' }

  predicate AllDigits(s: string) {
    forall i :: 0 <= i < |s| ==> IsDigit(s[i])
  }

  /** `s.replace(/\D/g, '')`: the digits of `s`, in order. */
  function DigitsOf(s: string): (r: string)
    ensures AllDigits(r) && |r| <= |s|
    ensures AllDigits(s) ==> r == s
  {
    if s == [] then []
    else (if IsDigit(s[0]) then [s[0]] else []) + DigitsOf(s[1..])
  }

  function DigitChar(d: nat): (c: char)
    requires d < 10
    ensures IsDigit(c)
  {
    ('0' as int + d) as char
  }

  function DigitValue(c: char): (d: nat)
    requires IsDigit(c)
    ensures d < 10 && DigitChar(d) == c
  {
    c as int - '0' as int
  }

  function Pow10(k: nat): (p: nat)
    ensures p >= 1
  {
    if k == 0 then 1 else 10 * Pow10(k - 1)
  }

  /** `n.toString()` for a non-negative integer: decimal, no leading zero. */
  function NatToString(n: nat): (r: string)
    ensures |r| >= 1 && AllDigits(r)
    ensures r[0] == '0' ==> n == 0
  {
    if n < 10 then [DigitChar(n)] else NatToString(n / 10) + [DigitChar(n % 10)]
  }

  /** Appending a digit to a positive number appends it to its text. */
  lemma NatToStringSnoc(n: nat, d: nat)
    requires n >= 1 && d < 10
    ensures NatToString(10 * n + d) == NatToString(n) + [DigitChar(d)]
  {
    ModUnique(10 * n + d, 10, n, d);
  }

  /** `n.toString()` for any integer. */
  function IntToString(n: int): (r: string)
    ensures |r| >= 1
    ensures r[0] == '-' || IsDigit(r[0])
  {
    if n < 0 then "-" + NatToString(-n) else NatToString(n)
  }

  /** The value of a string of decimal digits (most significant first). */
  function ParseDigits(s: string): nat
    requires AllDigits(s)
  {
    if s == [] then 0 else 10 * ParseDigits(s[..|s| - 1]) + DigitValue(s[|s| - 1])
  }

  /** Reading back a rendered number gives the number. */
  lemma {:induction false} ParseNatToString(n: nat)
    ensures ParseDigits(NatToString(n)) == n
  {
    if n >= 10 {
      var s := NatToString(n);
      assert s[..|s| - 1] == NatToString(n / 10);
      ParseNatToString(n / 10);
    }
  }

  /** `s` is the decimal text of the integer `n`: its digits, after a '-'
      when `n` is negative. */
  predicate ReadsAs(s: string, n: int) {
    if n < 0 then |s| >= 2 && s[0] == '-' && AllDigits(s[1..]) && ParseDigits(s[1..]) == -n
    else AllDigits(s) && ParseDigits(s) == n
  }

  /** Every rendered integer reads back to itself. */
  lemma IntToStringReadsAs(n: int)
    ensures ReadsAs(IntToString(n), n)
  {
    if n < 0 {
      ParseNatToString(-n);
      assert IntToString(n)[1..] == NatToString(-n);
    } else {
      ParseNatToString(n);
    }
  }

  /** `n` has more than `k` decimal digits exactly when `n >= 10^k` (every
      number has at least one digit). */
  lemma {:induction false} LengthOfNatToString(n: nat, k: nat)
    ensures |NatToString(n)| > k <==> (k == 0 || n >= Pow10(k))
  {
    if n >= 10 && k > 0 {
      LengthOfNatToString(n / 10, k - 1);
      DivTenBound(n, Pow10(k - 1));
    }
  }

  /** `n >= 10 * p` exactly when `n / 10 >= p`. */
  lemma DivTenBound(n: nat, p: nat)
    ensures n >= 10 * p <==> n / 10 >= p
  {
  }

  /** If `n = m * t + x` with `0 <= x < m`, then `x` is `n % m`. */
  lemma ModUnique(n: int, m: int, t: int, x: int)
    requires m > 0 && n == m * t + x && 0 <= x < m
    ensures n % m == x && n / m == t
  {
    var q, r := n / m, n % m;
    assert m * (q - t) == x - r;
    assert q - t >= 1 ==> m * (q - t) >= m;
    assert q - t <= -1 ==> m * (q - t) <= -m;
  }

  /** Splitting off the last decimal digit: `n % (10 p)` is ten times
      `(n / 10) % p` plus the last digit. */
  lemma ModTenTimes(n: nat, p: nat)
    requires p >= 1
    ensures n % (10 * p) == 10 * ((n / 10) % p) + n % 10
  {
    var q := (n / 10) / p;
    var b := (n / 10) % p;
    assert n / 10 == p * q + b;
    assert n == 10 * (n / 10) + n % 10;
    assert n == (10 * p) * q + (10 * b + n % 10);
    ModUnique(n, 10 * p, q, 10 * b + n % 10);
  }

  /** Appending a digit multiplies the value by ten and adds the digit. */
  lemma ParseSnoc(t: string, c: char)
    requires AllDigits(t) && IsDigit(c)
    ensures AllDigits(t + [c]) && ParseDigits(t + [c]) == 10 * ParseDigits(t) + DigitValue(c)
  {
    assert (t + [c])[..|t|] == t;
  }

  /** The last `k` characters of `n.toString()` spell `n % 10^k`: what
      `toString().slice(-k)` keeps of a number. */
  lemma {:induction false} ParseSuffix(n: nat, k: nat)
    requires k <= |NatToString(n)|
    ensures ParseDigits(NatToString(n)[|NatToString(n)| - k..]) == n % Pow10(k)
  {
    var s := NatToString(n);
    if k == 0 {
      assert s[|s| - k..] == [];
    } else if n < 10 {
      assert s == [DigitChar(n)];
      assert s[|s| - k..] == [] + [DigitChar(n)];
      ParseSnoc([], DigitChar(n));
    } else {
      assert |s| == |NatToString(n / 10)| + 1;
      ParseSuffix(n / 10, k - 1);
      ParseSuffixStep(n, k);
    }
  }

  /** The step of `ParseSuffix`: the last `k` digits of `n` are the last
      `k - 1` digits of `n / 10` followed by the last digit of `n`. */
  lemma ParseSuffixStep(n: nat, k: nat)
    requires n >= 10 && 1 <= k <= |NatToString(n)|
    requires var a := NatToString(n / 10); ParseDigits(a[|a| - (k - 1)..]) == (n / 10) % Pow10(k - 1)
    ensures ParseDigits(NatToString(n)[|NatToString(n)| - k..]) == n % Pow10(k)
  {
    var s := NatToString(n);
    var a := NatToString(n / 10);
    var c := DigitChar(n % 10);
    var atail := a[|a| - (k - 1)..];
    assert s == a + [c];
    assert s[|s| - k..] == atail + [c];
    assert DigitValue(c) == n % 10;
    ParseSnoc(atail, c);
    ModTenTimes(n, Pow10(k - 1));
    assert Pow10(k) == 10 * Pow10(k - 1);
  }

  /** `c` repeated `n` times. */
  function Repeat(c: char, n: nat): (r: string)
    ensures |r| == n && forall i :: 0 <= i < n ==> r[i] == c
  {
    if n == 0 then [] else [c] + Repeat(c, n - 1)
  }

  /** JavaScript's `s.padStart(width, fill)` with a one-character fill. */
  function PadStart(s: string, width: nat, fill: char): (r: string)
    ensures |s| >= width ==> r == s
    ensures |s| < width ==>
      (|r| == width && r[width - |s|..] == s && forall i :: 0 <= i < width - |s| ==> r[i] == fill)
  {
    if |s| >= width then s else Repeat(fill, width - |s|) + s
  }

  /** JavaScript's `s.slice(-k)`: the last `k` characters, or all of `s`
      when it is shorter; `-0` is `0`, so `k == 0` keeps the whole text. */
  function SliceLast(s: string, k: nat): (r: string)
    ensures |r| == if k == 0 || |s| < k then |s| else k
    ensures r == s[|s| - |r|..]
  {
    if k == 0 || |s| <= k then s else s[|s| - k..]
  }
}
