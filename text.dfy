/** The few pieces of the Kotlin and Java standard libraries that the app's
    string handling relies on: `Char.isWhitespace`, `trim`, `isBlank`,
    `contains`, `substringBefore`/`substringAfter` on a one-character
    delimiter, decimal rendering of integers (string templates and
    `String.format("%02d")`), and the truncating `/` and `%` of `Long`. */
module Text {

  import opened Common

  // ---------------------------------------------------------------------
  // Whitespace, trim and blank
  // ---------------------------------------------------------------------

  /** Kotlin's `Char.isWhitespace()`: Java whitespace or a Unicode space,
      line or paragraph separator. */
  predicate IsWhitespace(c: char) {
    || c == ' ' || c == '\t' || c == '\n' || c == '\r'
    || c == '\U{000B}' || c == '\U{000C}'
    || ('\U{001C}' <= c <= '\U{001F}')
    || c == '\U{00A0}' || c == '\U{1680}'
    || ('\U{2000}' <= c <= '\U{200A}')
    || c == '\U{2028}' || c == '\U{2029}' || c == '\U{202F}'
    || c == '\U{205F}' || c == '\U{3000}'
  }

  /** Kotlin's `isBlank()`: empty or whitespace only. */
  predicate IsBlank(s: string) {
    forall i :: 0 <= i < |s| ==> IsWhitespace(s[i])
  }

  /** Neither end of `s` is whitespace: what `trim()` leaves. */
  predicate IsTrimmed(s: string) {
    s == [] || (!IsWhitespace(s[0]) && !IsWhitespace(s[|s| - 1]))
  }

  function TrimStart(s: string): (r: string)
    decreases |s|
  {
    if s != [] && IsWhitespace(s[0]) then TrimStart(s[1..]) else s
  }

  function TrimEnd(s: string): (r: string)
    decreases |s|
  {
    if s != [] && IsWhitespace(s[|s| - 1]) then TrimEnd(s[..|s| - 1]) else s
  }

  /** Kotlin's `trim()`: drops leading and trailing whitespace. */
  function Trim(s: string): string {
    TrimEnd(TrimStart(s))
  }

  lemma {:induction false} TrimStartShape(s: string)
    ensures var r := TrimStart(s);
      |r| <= |s| && r == s[|s| - |r|..] && IsBlank(s[..|s| - |r|])
      && (r != [] ==> !IsWhitespace(r[0]))
    decreases |s|
  {
    if s != [] && IsWhitespace(s[0]) {
      var u := s[1..];
      TrimStartShape(u);
      var r := TrimStart(u);
      var k := |u| - |r|;
      assert u[k..] == s[k + 1..];
      assert s[..k + 1] == [s[0]] + u[..k];
      var pre := s[..k + 1];
      assert IsBlank(pre) by {
        forall j | 0 <= j < |pre| ensures IsWhitespace(pre[j]) {
          if j > 0 { assert pre[j] == u[..k][j - 1]; }
        }
      }
    }
  }

  lemma {:induction false} TrimEndShape(s: string)
    ensures var r := TrimEnd(s);
      |r| <= |s| && r == s[..|r|] && IsBlank(s[|r|..])
      && (r != [] ==> !IsWhitespace(r[|r| - 1]))
    decreases |s|
  {
    if s != [] && IsWhitespace(s[|s| - 1]) {
      TrimEndShape(s[..|s| - 1]);
      var r := TrimEnd(s[..|s| - 1]);
      assert s[..|s| - 1][..|r|] == s[..|r|];
      assert s[|r|..] == s[..|s| - 1][|r|..] + [s[|s| - 1]];
    }
  }

  /** TrimEnd keeps a non-whitespace first character in place. */
  lemma {:induction false} TrimEndKeepsStart(s: string)
    requires s != [] && !IsWhitespace(s[0])
    ensures TrimEnd(s) != [] && TrimEnd(s)[0] == s[0]
    decreases |s|
  {
    if IsWhitespace(s[|s| - 1]) {
      assert |s| > 1;
      TrimEndKeepsStart(s[..|s| - 1]);
    }
  }

  /** `trim()` yields `s` with whitespace removed from both ends: a
      contiguous piece of `s` with blank text before and after it, and with
      no whitespace at either end. */
  lemma TrimShape(s: string)
    ensures var r := Trim(s);
      exists a, b :: 0 <= a <= b <= |s| && r == s[a..b]
        && IsBlank(s[..a]) && IsBlank(s[b..])
    ensures IsTrimmed(Trim(s))
  {
    var t := TrimStart(s);
    TrimStartShape(s);
    TrimEndShape(t);
    var r := TrimEnd(t);
    var a := |s| - |t|;
    var b := a + |r|;
    assert r == s[a..b];
    assert s[b..] == t[|r|..];
    if r != [] {
      TrimEndKeepsStart(t);
    }
  }

  /** Trimming whitespace-padded trimmed text gives the text back. */
  lemma {:induction false} TrimPadded(a: string, t: string, b: string)
    requires IsBlank(a) && IsBlank(b) && IsTrimmed(t)
    ensures Trim(a + t + b) == t
  {
    TrimStartPadded(a, t + b);
    assert a + t + b == a + (t + b);
    if t == [] {
      assert t + b == b;
      TrimStartBlank(b);
    } else {
      assert TrimStart(t + b) == t + b by {
        assert (t + b)[0] == t[0];
      }
      TrimEndPadded(t, b);
    }
  }

  lemma {:induction false} TrimStartBlank(b: string)
    requires IsBlank(b)
    ensures TrimStart(b) == []
    decreases |b|
  {
    if b != [] {
      TrimStartBlank(b[1..]);
    }
  }

  lemma {:induction false} TrimStartPadded(a: string, u: string)
    requires IsBlank(a)
    ensures TrimStart(a + u) == TrimStart(u)
    decreases |a|
  {
    if a != [] {
      assert (a + u)[0] == a[0];
      assert (a + u)[1..] == a[1..] + u;
      TrimStartPadded(a[1..], u);
    } else {
      assert a + u == u;
    }
  }

  lemma {:induction false} TrimEndPadded(t: string, b: string)
    requires IsBlank(b) && IsTrimmed(t) && t != []
    ensures TrimEnd(t + b) == t
    decreases |b|
  {
    if b == [] {
      assert t + b == t;
    } else {
      var u := t + b;
      assert u[|u| - 1] == b[|b| - 1];
      assert u[..|u| - 1] == t + b[..|b| - 1];
      TrimEndPadded(t, b[..|b| - 1]);
    }
  }

  /** `trim()` changes nothing exactly when the text is already trimmed. */
  lemma TrimFixedPoint(s: string)
    ensures Trim(s) == s <==> IsTrimmed(s)
  {
    TrimShape(s);
    if IsTrimmed(s) {
      TrimPadded([], s, []);
      assert [] + s + [] == s;
    }
  }

  /** `isBlank()` holds exactly when `trim()` leaves nothing. */
  lemma BlankIffTrimEmpty(s: string)
    ensures IsBlank(s) <==> Trim(s) == []
  {
    TrimShape(s);
    if IsBlank(s) {
      TrimStartBlank(s);
    } else {
      var i :| 0 <= i < |s| && !IsWhitespace(s[i]);
      var a, b :| 0 <= a <= b <= |s| && Trim(s) == s[a..b]
        && IsBlank(s[..a]) && IsBlank(s[b..]);
    }
  }

  // ---------------------------------------------------------------------
  // A one-character delimiter
  // ---------------------------------------------------------------------

  /** The index of the first occurrence of `c` in `s`. */
  function IndexOf(s: string, c: char): (r: Option<nat>)
    ensures r.Some? <==> c in s
    ensures r.Some? ==> r.value < |s| && s[r.value] == c && c !in s[..r.value]
    decreases |s|
  {
    if s == [] then None
    else if s[0] == c then Some(0)
    else
      var t := IndexOf(s[1..], c);
      assert s == [s[0]] + s[1..];
      match t
      case None => None
      case Some(i) =>
        assert s[..i + 1] == [s[0]] + s[1..][..i];
        Some(i + 1)
  }

  /** Kotlin's `substringBefore(c)`: the text before the first `c`, or the
      whole text when there is none. */
  function SubstringBefore(s: string, c: char): string {
    match IndexOf(s, c)
    case Some(i) => s[..i]
    case None => s
  }

  /** Kotlin's `substringAfter(c)`: the text after the first `c`, or the
      whole text when there is none. */
  function SubstringAfter(s: string, c: char): string {
    match IndexOf(s, c)
    case Some(i) => s[i + 1..]
    case None => s
  }

  /** Splitting at the first delimiter: the two pieces and the delimiter
      rebuild the text, and the first piece holds no delimiter. */
  lemma SplitAtFirst(s: string, c: char)
    requires c in s
    ensures s == SubstringBefore(s, c) + [c] + SubstringAfter(s, c)
    ensures c !in SubstringBefore(s, c)
  {
    var i := IndexOf(s, c).value;
    assert s == s[..i] + [s[i]] + s[i + 1..];
  }

  /** Splitting `x + [c] + y` at `c`, where `x` holds no `c`, gives `x` and
      `y` back, whatever `y` holds. */
  lemma {:induction false} SplitJoined(x: string, c: char, y: string)
    requires c !in x
    ensures SubstringBefore(x + [c] + y, c) == x
    ensures SubstringAfter(x + [c] + y, c) == y
  {
    var s := x + [c] + y;
    assert s[|x|] == c;
    var i := IndexOf(s, c).value;
    assert s[..|x|] == x;
    assert s[|x| + 1..] == y;
  }

  // ---------------------------------------------------------------------
  // Decimal numbers
  // ---------------------------------------------------------------------

  predicate IsDigit(c: char) {
    '0' <= c <= '9'
  }

  predicate AllDigits(s: string) {
    forall i :: 0 <= i < |s| ==> IsDigit(s[i])
  }

  function DigitChar(d: nat): (c: char)
    requires d < 10
    ensures IsDigit(c)
  {
    ('0' as int + d) as char
  }

  function DigitValue(c: char): (d: nat)
    requires IsDigit(c)
    ensures d < 10 && DigitChar(d) == c
  {
    (c as int - '0' as int) as nat
  }

  /** The decimal digits of `n`, without leading zeros. */
  function NatToString(n: nat): (r: string)
    ensures |r| >= 1 && AllDigits(r)
    ensures n < 10 <==> |r| == 1
    decreases n
  {
    if n < 10 then [DigitChar(n)]
    else NatToString(n / 10) + [DigitChar(n % 10)]
  }

  /** Kotlin's `Long.toString()` (and a string template): a minus sign for
      negative numbers, then the digits of the magnitude. */
  function IntToString(i: int): string {
    if i < 0 then "-" + NatToString(-i) else NatToString(i)
  }

  /** Reading a string of decimal digits. */
  function ParseNat(s: string): nat
    requires AllDigits(s)
    decreases |s|
  {
    if s == [] then 0
    else ParseNat(s[..|s| - 1]) * 10 + DigitValue(s[|s| - 1])
  }

  /** Reading back the rendering of a number gives the number. */
  lemma {:induction false} ParseNatToString(n: nat)
    ensures ParseNat(NatToString(n)) == n
    decreases n
  {
    if n >= 10 {
      ParseNatToString(n / 10);
      var r := NatToString(n);
      assert r[..|r| - 1] == NatToString(n / 10);
      assert DigitValue(r[|r| - 1]) == n % 10;
    }
  }

  /** Java's `String.format("%02d", n)`: at least two characters, zero-padded
      after any sign. */
  function Pad2(n: int): string {
    if n < 0 then "-" + NatToString(-n)
    else if n < 10 then "0" + NatToString(n)
    else NatToString(n)
  }

  /** For a non-negative number, `%02d` gives at least two digits that read
      back as the number; below 100 exactly two. */
  lemma Pad2Digits(n: nat)
    ensures AllDigits(Pad2(n)) && |Pad2(n)| >= 2 && ParseNat(Pad2(n)) == n
    ensures n < 100 ==> |Pad2(n)| == 2
  {
    var r := Pad2(n);
    ParseNatToString(n);
    if n < 10 {
      assert r == ['0', DigitChar(n)];
      assert r[..1] == "0";
    } else if n < 100 {
      assert n / 10 < 10;
    }
  }

  // ---------------------------------------------------------------------
  // Kotlin's Long division and remainder (truncating toward zero)
  // ---------------------------------------------------------------------

  /** Kotlin's `a / b` for `b > 0`: the quotient rounded toward zero. */
  function Quot(a: int, b: int): int
    requires b > 0
  {
    if a >= 0 then a / b else -((-a) / b)
  }

  /** Kotlin's `a % b` for `b > 0`: the remainder takes the sign of `a`. */
  function Rem(a: int, b: int): int
    requires b > 0
  {
    a - b * Quot(a, b)
  }

  /** The truncating operations agree with the mathematical ones on
      non-negative operands, and the remainder always lies strictly between
      `-b` and `b` with the sign of `a`. */
  lemma QuotRemFacts(a: int, b: int)
    requires b > 0
    ensures a == b * Quot(a, b) + Rem(a, b)
    ensures a >= 0 ==> Quot(a, b) == a / b && Rem(a, b) == a % b
    ensures a >= 0 ==> 0 <= Rem(a, b) < b
    ensures a < 0 ==> -b < Rem(a, b) <= 0
  {
    if a < 0 {
      var q := (-a) / b;
      assert -a == b * q + (-a) % b;
    }
  }
}
