/** String helpers the supervisor gets from JavaScript: number formatting
    in template strings, Number() on a digit string, String.prototype.padEnd
    and String.prototype.trim. */
module Text {

  predicate IsDigit(c: char) {
    '0' <= c <= '9'
  }

  predicate IsDigits(s: string) {
    forall i :: 0 <= i < |s| ==> IsDigit(s[i])
  }

  function DigitChar(d: nat): (c: char)
    requires d < 10
    ensures IsDigit(c)
  {
    (d + '0' as int) as char
  }

  function DigitValue(c: char): (d: nat)
    requires IsDigit(c)
    ensures d < 10
  {
    c as int - '0' as int
  }

  /** Decimal rendering of a natural number, as `${n}` produces it. */
  function NatToString(n: nat): (s: string)
    ensures |s| >= 1 && IsDigits(s)
    ensures s[0] == '0' ==> n == 0
    decreases n
  {
    if n < 10 then [DigitChar(n)] else NatToString(n / 10) + [DigitChar(n % 10)]
  }

  /** Decimal rendering of an integer, as `${i}` produces it. */
  function IntToString(i: int): (s: string)
    ensures |s| >= 1
    ensures i >= 0 <==> s[0] != '-'
  {
    if i < 0 then "-" + NatToString(-i) else NatToString(i)
  }

  /** Number() applied to a non-empty string of decimal digits. */
  function ParseNat(s: string): nat
    requires IsDigits(s)
    decreases |s|
  {
    if s == [] then 0 else ParseNat(s[..|s| - 1]) * 10 + DigitValue(s[|s| - 1])
  }

  lemma {:induction false} ParseNatOfNatToString(n: nat)
    ensures ParseNat(NatToString(n)) == n
    decreases n
  {
    if n >= 10 {
      var front := NatToString(n / 10);
      var s := front + [DigitChar(n % 10)];
      assert s[..|s| - 1] == front;
      ParseNatOfNatToString(n / 10);
    }
  }

  lemma {:induction false} NatToStringInjective(m: nat, n: nat)
    requires NatToString(m) == NatToString(n)
    ensures m == n
  {
    ParseNatOfNatToString(m);
    ParseNatOfNatToString(n);
  }

  /** String.prototype.padEnd with spaces. */
  function PadEnd(s: string, width: nat): (r: string)
    ensures |r| == if |s| >= width then |s| else width
    ensures r[..|s|] == s
    ensures forall i :: |s| <= i < |r| ==> r[i] == ' '
  {
    if |s| >= width then s else s + seq(width - |s|, _ => ' ')
  }

  /** The characters String.prototype.trim removes: ECMAScript WhiteSpace
      and LineTerminator. */
  predicate IsWhitespace(c: char) {
    || c == '\t' || c == '\n' || c == '\U{000B}' || c == '\U{000C}' || c == '\r'
    || c == ' ' || c == '\U{00A0}' || c == '\U{1680}'
    || ('\U{2000}' <= c <= '\U{200A}')
    || c == '\U{2028}' || c == '\U{2029}' || c == '\U{202F}' || c == '\U{205F}'
    || c == '\U{3000}' || c == '\U{FEFF}'
  }

  predicate AllWhitespace(s: string) {
    forall i :: 0 <= i < |s| ==> IsWhitespace(s[i])
  }

  /** s with no whitespace at either end. */
  predicate IsTrimmed(s: string) {
    s == [] || (!IsWhitespace(s[0]) && !IsWhitespace(s[|s| - 1]))
  }

  function TrimStart(s: string): (r: string)
    ensures r == [] || !IsWhitespace(r[0])
    ensures r == [] <==> AllWhitespace(s)
    ensures |r| <= |s| && r == s[|s| - |r|..]
    ensures forall k | 0 <= k < |s| - |r| :: IsWhitespace(s[k])
    decreases |s|
  {
    if s != [] && IsWhitespace(s[0]) then TrimStart(s[1..]) else s
  }

  function TrimEnd(s: string): (r: string)
    ensures r == [] || !IsWhitespace(r[|r| - 1])
    ensures r == [] <==> AllWhitespace(s)
    ensures |r| <= |s| && r == s[..|r|]
    ensures forall k | |r| <= k < |s| :: IsWhitespace(s[k])
    decreases |s|
  {
    if s != [] && IsWhitespace(s[|s| - 1]) then TrimEnd(s[..|s| - 1]) else s
  }

  /** String.prototype.trim. */
  function Trim(s: string): (r: string)
    ensures IsTrimmed(r)
    ensures r == [] <==> AllWhitespace(s)
    ensures IsTrimmed(s) ==> r == s
  {
    TrimEnd(TrimStart(s))
  }

  /** A non-empty digit string has nothing to trim. */
  lemma DigitsAreTrimmed(s: string)
    ensures IsDigits(s) && s != [] ==> Trim(s) == s
  {
    if IsDigits(s) && s != [] {
      assert IsDigit(s[0]) && IsDigit(s[|s| - 1]);
      assert IsTrimmed(s);
    }
  }

  /** The piece s[i..j] cut out between two blank ends: t is the suffix of s
      after the blanks s[..i], and e the prefix of t before blank characters. */
  lemma BlankAround(s: string, t: string, e: string, i: nat, j: nat)
    requires |t| <= |s| && t == s[|s| - |t|..] && i == |s| - |t|
    requires forall k | 0 <= k < i :: IsWhitespace(s[k])
    requires |e| <= |t| && e == t[..|e|] && j == i + |e|
    requires forall k | |e| <= k < |t| :: IsWhitespace(t[k])
    ensures j <= |s| && e == s[i..j] && AllWhitespace(s[..i]) && AllWhitespace(s[j..])
  {
    forall k | 0 <= k < |e| ensures e[k] == s[i..j][k] {
      assert e[k] == t[k] == s[i + k];
    }
    forall k | 0 <= k < i ensures IsWhitespace(s[..i][k]) {
      assert s[..i][k] == s[k];
    }
    forall k | 0 <= k < |s| - j ensures IsWhitespace(s[j..][k]) {
      assert s[j..][k] == t[|e| + k];
    }
  }

  /** Trim removes whitespace and only whitespace: its result is a slice of
      the input, and what lies before and after that slice is blank. */
  lemma TrimRemovesOnlyWhitespace(s: string)
    ensures exists i, j | 0 <= i <= j <= |s| ::
      Trim(s) == s[i..j] && AllWhitespace(s[..i]) && AllWhitespace(s[j..])
  {
    var t := TrimStart(s);
    var e := TrimEnd(t);
    var i := |s| - |t|;
    var j := i + |e|;
    assert Trim(s) == e;
    BlankAround(s, t, e, i, j);
  }

  /** A string that starts with a non-empty piece having no whitespace at
      either end keeps that piece when trimmed. */
  lemma TrimKeepsTrimmedPrefix(s: string, p: string)
    requires p != [] && IsTrimmed(p) && |p| <= |s| && s[..|p|] == p
    ensures |p| <= |Trim(s)| && Trim(s)[..|p|] == p
  {
    assert TrimStart(s) == s by {
      assert s[0] == p[0];
    }
    assert s[|p| - 1] == p[|p| - 1];
  }

  /** Whitespace appended to a string is dropped by TrimEnd. */
  lemma {:induction false} TrimEndDropsWhitespaceSuffix(a: string, w: string)
    requires AllWhitespace(w)
    ensures TrimEnd(a + w) == TrimEnd(a)
    decreases |w|
  {
    if w != [] {
      var w' := w[..|w| - 1];
      assert (a + w)[..|a + w| - 1] == a + w';
      TrimEndDropsWhitespaceSuffix(a, w');
    } else {
      assert a + w == a;
    }
  }
}
