// The JavaScript string built-ins the core relies on: `String.prototype.split`
// with a one-character separator, the `\w` character class, `parseInt` with
// no radix, and the decimal rendering of an integer.
module JsText {
  import opened Wrappers

  /* ---------------- split ---------------- */

  /** `s.split(sep)`: the pieces of `s` between occurrences of `sep`, in order.
      Like JavaScript, "" splits into [""] and adjacent separators give empty pieces. */
  function Split(s: string, sep: char): (parts: seq<string>)
    ensures |parts| >= 1
    ensures forall p <- parts :: sep !in p
    decreases |s|
  {
    if s == [] then [""]
    else if s[0] == sep then [""] + Split(s[1..], sep)
    else
      var rest := Split(s[1..], sep);
      [[s[0]] + rest[0]] + rest[1..]
  }

  /** A string without the separator is a single piece. */
  lemma {:induction false} SplitNoSeparator(s: string, sep: char)
    requires sep !in s
    ensures Split(s, sep) == [s]
    decreases |s|
  {
    if s != [] {
      SplitNoSeparator(s[1..], sep);
      assert s == [s[0]] + s[1..];
    }
  }

  /** A separator splits the string into the pieces of either side. */
  lemma {:induction false} SplitConcat(a: string, b: string, sep: char)
    ensures Split(a + [sep] + b, sep) == Split(a, sep) + Split(b, sep)
    decreases |a|
  {
    var s := a + [sep] + b;
    if a == [] {
      assert s[1..] == b;
    } else {
      assert s[0] == a[0];
      assert s[1..] == a[1..] + [sep] + b;
      SplitConcat(a[1..], b, sep);
    }
  }

  /* ---------------- character classes ---------------- */

  /** The regular-expression class `\w`: ASCII letters, digits and `_`. */
  predicate IsWordChar(c: char) {
    ('a' <= c <= 'z') || ('A' <= c <= 'Z') || ('0' <= c <= '9') || c == '_'
  }

  /** The white space `parseInt` skips before the number: ECMAScript's WhiteSpace
      (tab, vertical tab, form feed, the byte-order mark and every space separator of
      Unicode category Zs) and LineTerminator code points. */
  predicate IsJsWhitespace(c: char) {
    c == '\t' || c == '\U{B}' || c == '\U{C}' || c == '\U{FEFF}'
    || c == ' ' || c == '\U{A0}' || c == '\U{1680}' || '\U{2000}' <= c <= '\U{200A}'
    || c == '\U{202F}' || c == '\U{205F}' || c == '\U{3000}'
    || c == '\n' || c == '\r' || c == '\U{2028}' || c == '\U{2029}'
  }

  predicate IsDecimalDigit(c: char) { '0' <= c <= '9' }

  /* ---------------- decimal rendering ---------------- */

  function DigitChar(d: nat): (c: char)
    requires d < 10
    ensures IsDecimalDigit(c)
  {
    (('0' as int) + d) as char
  }

  /** The shortest decimal numeral of `n`. */
  function NatToDecimal(n: nat): (s: string)
    ensures |s| >= 1
    ensures forall c <- s :: IsDecimalDigit(c)
    decreases n
  {
    if n < 10 then [DigitChar(n)] else NatToDecimal(n / 10) + [DigitChar(n % 10)]
  }

  /** `String(n)` for an integer `n`. */
  function IntToDecimal(n: int): (s: string)
    ensures |s| >= 1
  {
    if n < 0 then "-" + NatToDecimal(-n) else NatToDecimal(n)
  }

  /* ---------------- parseInt ---------------- */

  /** The value of `c` as a digit in base `radix` (10 or 16), if it is one. */
  function Digit(c: char, radix: nat): (d: Option<nat>)
    ensures d.Some? ==> d.value < radix
  {
    var v :=
      if '0' <= c <= '9' then (c as int) - ('0' as int)
      else if 'a' <= c <= 'z' then (c as int) - ('a' as int) + 10
      else if 'A' <= c <= 'Z' then (c as int) - ('A' as int) + 10
      else 99;
    if 0 <= v < radix then Some(v) else None
  }

  function TrimStart(s: string): (t: string)
    ensures |t| <= |s| && t == s[|s| - |t|..]
    ensures t != [] ==> !IsJsWhitespace(t[0])
    decreases |s|
  {
    if s != [] && IsJsWhitespace(s[0]) then TrimStart(s[1..]) else s
  }

  /** The length of the longest prefix of `s` made of base-`radix` digits. */
  function DigitRun(s: string, radix: nat): (n: nat)
    ensures n <= |s|
    ensures forall i :: 0 <= i < n ==> Digit(s[i], radix).Some?
    ensures n < |s| ==> Digit(s[n], radix).None?
    decreases |s|
  {
    if s != [] && Digit(s[0], radix).Some? then 1 + DigitRun(s[1..], radix) else 0
  }

  /** The value of a numeral, most significant digit first. */
  function DigitsValue(ds: string, radix: nat): int
    requires forall c <- ds :: Digit(c, radix).Some?
    decreases |ds|
  {
    if ds == [] then 0
    else
      var init := ds[..|ds| - 1];
      assert forall c <- init :: c in ds;
      var high := DigitsValue(init, radix);
      high * radix + Digit(ds[|ds| - 1], radix).value
  }

  /** `parseInt(s)`: skip leading white space, read an optional sign and an optional
      `0x`/`0X` prefix (base 16), then as many digits as there are; `None` is NaN,
      the result when no digit follows. */
  function ParseInt(s: string): Option<int>
  {
    ParseSigned(TrimStart(s))
  }

  /** The number after the white space: an optional sign, then the digits. */
  function ParseSigned(t: string): Option<int>
  {
    if t != [] && t[0] == '-' then Negate(ParseUnsigned(t[1..]))
    else if t != [] && t[0] == '+' then ParseUnsigned(t[1..])
    else ParseUnsigned(t)
  }

  function Negate(r: Option<int>): Option<int> {
    if r.Some? then Some(-r.value) else None
  }

  /** The digits after the sign: hexadecimal after `0x`/`0X`, decimal otherwise. */
  function ParseUnsigned(u: string): Option<int>
  {
    if |u| >= 2 && u[0] == '0' && (u[1] == 'x' || u[1] == 'X') then ParseDigits(u[2..], 16)
    else ParseDigits(u, 10)
  }

  /** The value of the longest prefix of base-`radix` digits, NaN when it is empty. */
  function ParseDigits(w: string, radix: nat): Option<int>
  {
    var n := DigitRun(w, radix);
    if n == 0 then None else Some(DigitsValue(w[..n], radix))
  }

  /** Reading back a decimal numeral gives its value. */
  lemma {:induction false} DecimalValue(n: nat)
    ensures forall c <- NatToDecimal(n) :: Digit(c, 10).Some?
    ensures DigitsValue(NatToDecimal(n), 10) == n
    decreases n
  {
    var s := NatToDecimal(n);
    if n >= 10 {
      DecimalValue(n / 10);
      assert s[..|s| - 1] == NatToDecimal(n / 10);
    }
  }

  /** The digits of a decimal numeral are all read. */
  lemma ParseDecimalDigits(d: string)
    requires |d| >= 1 && forall c <- d :: IsDecimalDigit(c)
    ensures forall c <- d :: Digit(c, 10).Some?
    ensures ParseUnsigned(d) == Some(DigitsValue(d, 10))
  {
    forall i | 0 <= i < |d| ensures Digit(d[i], 10).Some? {
      assert IsDecimalDigit(d[i]);
    }
    assert DigitRun(d, 10) == |d|;
    assert d[..|d|] == d;
  }

  /** A decimal numeral is read back as the number it denotes. */
  lemma ParseUnsignedDecimal(m: nat)
    ensures ParseUnsigned(NatToDecimal(m)) == Some(m)
  {
    DecimalValue(m);
    ParseDecimalDigits(NatToDecimal(m));
  }

  /** Nothing is skipped before a character that is not white space. */
  lemma TrimStartNoSpace(s: string)
    requires s != [] && !IsJsWhitespace(s[0])
    ensures TrimStart(s) == s
  {
  }

  /** A text starting with a digit is read without sign. */
  lemma ParseIntFromDigit(s: string)
    requires s != [] && IsDecimalDigit(s[0])
    ensures ParseInt(s) == ParseUnsigned(s)
  {
    TrimStartNoSpace(s);
  }

  /** A minus sign negates the number that follows it. */
  lemma ParseIntFromMinus(d: string)
    ensures ParseInt(['-'] + d) == Negate(ParseUnsigned(d))
  {
    var s := ['-'] + d;
    TrimStartNoSpace(s);
    assert s[1..] == d;
  }

  /** The numeral of a negative number is a minus sign and the numeral of its magnitude. */
  lemma NegativeDecimal(n: int)
    requires n < 0
    ensures IntToDecimal(n) == ['-'] + NatToDecimal(-n)
  {
  }

  lemma ParseIntNegated(n: int, d: string)
    requires n < 0 && ParseUnsigned(d) == Some(-n)
    ensures ParseInt(['-'] + d) == Some(n)
  {
    ParseIntFromMinus(d);
  }

  lemma ParseIntBelowZero(n: int)
    requires n < 0
    ensures ParseInt(IntToDecimal(n)) == Some(n)
  {
    ParseUnsignedDecimal(-n);
    ParseIntNegated(n, NatToDecimal(-n));
    NegativeDecimal(n);
  }

  lemma ParseIntAtLeastZero(n: int)
    requires n >= 0
    ensures ParseInt(IntToDecimal(n)) == Some(n)
  {
    var d := NatToDecimal(n);
    assert d[0] in d;
    ParseIntFromDigit(d);
    ParseUnsignedDecimal(n);
  }

  /** `parseInt` inverts the decimal rendering of an integer. */
  lemma ParseIntDecimal(n: int)
    ensures ParseInt(IntToDecimal(n)) == Some(n)
  {
    if n < 0 {
      ParseIntBelowZero(n);
    } else {
      ParseIntAtLeastZero(n);
    }
  }



}
