/**
 * Character classes and digit strings as JavaScript's regular expressions and
 * string methods see them: `\d`, `\s`, `replace(/\D/g, '')`, `trim()`,
 * `Number(digits)` and `String(n)`.
 */
module Text {

  /** `\d`: an ASCII decimal digit. */
  predicate IsDigit(c: char) {
    '0' <= c <= '9'
  }

  /** `\s`: a WhiteSpace or LineTerminator code point of ECMAScript. */
  predicate IsSpace(c: char) {
    var k := c as int;
    k == 0x09 || k == 0x0A || k == 0x0B || k == 0x0C || k == 0x0D || k == 0x20 ||
    k == 0xA0 || k == 0x1680 || (0x2000 <= k <= 0x200A) || k == 0x2028 || k == 0x2029 ||
    k == 0x202F || k == 0x205F || k == 0x3000 || k == 0xFEFF
  }

  predicate AllDigits(s: string) {
    forall i :: 0 <= i < |s| ==> IsDigit(s[i])
  }

  /** No character of `s` is a digit (a run of separators such as ") "). */
  predicate NoDigits(s: string) {
    forall i :: 0 <= i < |s| ==> !IsDigit(s[i])
  }

  /** `s.replace(/\D/g, '')`, equally `s.replace(/[^\d]+/g, '')`: the digits of `s`, in order. */
  function Digits(s: string): (d: string)
    ensures AllDigits(d) && |d| <= |s|
  {
    if s == [] then [] else (if IsDigit(s[0]) then [s[0]] else []) + Digits(s[1..])
  }

  lemma {:induction false} DigitsAppend(a: string, b: string)
    ensures Digits(a + b) == Digits(a) + Digits(b)
  {
    if a == [] {
      assert a + b == b;
    } else {
      assert (a + b)[0] == a[0];
      assert (a + b)[1..] == a[1..] + b;
      DigitsAppend(a[1..], b);
    }
  }

  /** A string that already holds only digits is left as it is by the stripping. */
  lemma {:induction false} DigitsOfDigitString(d: string)
    requires AllDigits(d)
    ensures Digits(d) == d
  {
    if d != [] {
      DigitsOfDigitString(d[1..]);
    }
  }

  lemma {:induction false} DigitsOfSeparators(s: string)
    requires NoDigits(s)
    ensures Digits(s) == []
  {
    if s != [] {
      DigitsOfSeparators(s[1..]);
    }
  }

  /** Stripping non-digits is idempotent: a second stripping changes nothing. */
  lemma DigitsIdempotent(s: string)
    ensures Digits(Digits(s)) == Digits(s)
  {
    DigitsOfDigitString(Digits(s));
  }

  /** Separators between two pieces do not reach the digit string. */
  lemma DigitsSkip(a: string, sep: string, b: string)
    requires NoDigits(sep)
    ensures Digits(a + sep + b) == Digits(a) + Digits(b)
  {
    DigitsAppend(a + sep, b);
    DigitsAppend(a, sep);
    DigitsOfSeparators(sep);
  }

  /** A separator followed by a run of digits adds exactly that run to the digits. */
  lemma DigitsThen(a: string, sep: string, b: string)
    requires NoDigits(sep) && AllDigits(b)
    ensures Digits(a + sep + b) == Digits(a) + b
  {
    DigitsSkip(a, sep, b);
    DigitsOfDigitString(b);
  }

  lemma DigitsAfterSeparator(sep: string, b: string)
    requires NoDigits(sep)
    ensures Digits(sep + b) == Digits(b)
  {
    DigitsAppend(sep, b);
    DigitsOfSeparators(sep);
  }

  function Min(a: int, b: int): int {
    if a <= b then a else b
  }

  /** `parseInt` of one digit character. */
  function DigitVal(c: char): (v: int)
    requires IsDigit(c)
    ensures 0 <= v <= 9
  {
    c as int - '0' as int
  }

  function DigitChar(k: int): (c: char)
    requires 0 <= k <= 9
    ensures IsDigit(c) && DigitVal(c) == k
  {
    ('0' as int + k) as char
  }

  function Pow10(n: nat): (p: nat)
    ensures p >= 1
  {
    if n == 0 then 1 else 10 * Pow10(n - 1)
  }

  /** `Number(d)` for a digit string `d` (leading zeros allowed, the empty string is 0). */
  function Value(d: string): nat
    requires AllDigits(d)
  {
    if d == [] then 0 else Value(d[..|d| - 1]) * 10 + DigitVal(d[|d| - 1])
  }

  lemma {:induction false} ValueAppend(a: string, b: string)
    requires AllDigits(a) && AllDigits(b)
    ensures Value(a + b) == Value(a) * Pow10(|b|) + Value(b)
  {
    if b == [] {
      assert a + b == a;
    } else {
      var b' := b[..|b| - 1];
      var z := DigitVal(b[|b| - 1]);
      assert (a + b)[..|a + b| - 1] == a + b';
      assert (a + b)[|a + b| - 1] == b[|b| - 1];
      ValueAppend(a, b');
      var x, y, p := Value(a), Value(b'), Pow10(|b'|);
      assert Value(a + b) == Value(a + b') * 10 + z;
      assert Value(b) == y * 10 + z;
      assert Pow10(|b|) == p * 10;
      ShiftDigit(x, p, y, z);
    }
  }

  lemma ShiftDigit(x: int, p: int, y: int, z: int)
    ensures (x * p + y) * 10 + z == x * (p * 10) + (y * 10 + z)
  {
    assert (x * p) * 10 == x * (p * 10);
  }

  /** `String(n)` for a natural number: its decimal digits, with no leading zero. */
  function Decimal(n: nat): (s: string)
    ensures AllDigits(s) && |s| >= 1
    ensures Value(s) == n
    ensures n > 0 ==> s[0] != '0'
  {
    if n < 10 then [DigitChar(n)]
    else
      var s := Decimal(n / 10) + [DigitChar(n % 10)];
      assert s[..|s| - 1] == Decimal(n / 10);
      s
  }

  /** `s.trim()`: `s` without its leading and trailing white space. */
  function Trim(s: string): (t: string)
  {
    TrimEnd(TrimStart(s))
  }

  function TrimStart(s: string): (t: string)
    ensures |t| <= |s| && t == s[|s| - |t|..]
    ensures t != [] ==> !IsSpace(t[0])
    ensures forall i :: 0 <= i < |s| - |t| ==> IsSpace(s[i])
  {
    if s != [] && IsSpace(s[0]) then TrimStart(s[1..]) else s
  }

  function TrimEnd(s: string): (t: string)
    ensures |t| <= |s| && t == s[..|t|]
    ensures t != [] ==> !IsSpace(t[|t| - 1])
    ensures forall i :: |t| <= i < |s| ==> IsSpace(s[i])
  {
    if s != [] && IsSpace(s[|s| - 1]) then TrimEnd(s[..|s| - 1]) else s
  }

  /** Only white space: what `!s.trim()` tests. */
  predicate IsBlank(s: string) {
    forall i :: 0 <= i < |s| ==> IsSpace(s[i])
  }

  /** `s.trim()` is empty exactly when `s` holds nothing but white space. */
  lemma TrimEmptyIffBlank(s: string)
    ensures Trim(s) == [] <==> IsBlank(s)
  {
    var u := TrimStart(s);
    if !IsBlank(s) {
      var i :| 0 <= i < |s| && !IsSpace(s[i]);
      assert i >= |s| - |u|;
      assert u != [] && !IsSpace(u[0]);
    }
  }
}
