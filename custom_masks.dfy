/**
 * The masks of `CustomValidations` (js/formularios.js) for fields marked
 * `data-mask="currency"`, `"date"` and `"percentage"`. Each strips the field to
 * its digits and rebuilds it; the string it writes back is the function's result.
 */
module CustomMasks {
  import opened Text
  import opened Regex

  // ----- date: DD/MM/YYYY -----

  /** `/(\d{2})\/(\d{2})(\d)/` */
  const DayMonthNext: seq<Atom> := [AnyDigit, AnyDigit, Lit('/'), AnyDigit, AnyDigit, AnyDigit]

  /** `applyDateMask`: the field is stripped to its digits, then formatted. */
  function DateMask(raw: string): string {
    DateFormat(Digits(raw))
  }

  /** The two replacements and the cut to 10 characters of `applyDateMask`. */
  function DateFormat(value: string): string {
    var value1 := if |value| > 2 then Replace(value, Run(3), 2, "", "/") else value;
    var value2 := if |value1| > 5 then Replace(value1, DayMonthNext, 5, "", "/") else value1;
    if |value2| > 10 then value2[..10] else value2
  }

  lemma DateStep1(d: string)
    requires AllDigits(d) && |d| >= 3
    ensures Replace(d, Run(3), 2, "", "/") == d[..2] + "/" + d[2..]
  {
    RunAt(d, 0, 3);
    ReplaceAt(d, Run(3), 2, "", "/", 0);
  }

  lemma DateStep2(d: string)
    requires AllDigits(d) && |d| >= 5
    ensures Replace(d[..2] + "/" + d[2..], DayMonthNext, 5, "", "/") == d[..2] + "/" + d[2..4] + "/" + d[4..]
  {
    var v1 := d[..2] + "/" + d[2..];
    assert MatchesAt(v1, 0, DayMonthNext) by {
      forall i | 0 <= i < 6 ensures AtomMatches(DayMonthNext[i], v1[i]) {
        if i != 2 {
          assert IsDigit(v1[i]);
        }
      }
    }
    ReplaceAt(v1, DayMonthNext, 5, "", "/", 0);
    assert v1[..5] + "/" + v1[5..] == d[..2] + "/" + d[2..4] + "/" + d[4..];
  }

  /** The date layout of a digit string: dd, dd/dd or dd/dd/dddd, at most eight digits. */
  function DateLayout(d: string): string {
    if |d| <= 2 then d
    else if |d| <= 4 then d[..2] + "/" + d[2..]
    else d[..2] + "/" + d[2..4] + "/" + d[4..Min(|d|, 8)]
  }

  lemma DateFormatLong(d: string)
    requires AllDigits(d) && |d| >= 5
    ensures DateFormat(d) == DateLayout(d)
  {
    DateStep1(d);
    DateStep2(d);
    var v2 := d[..2] + "/" + d[2..4] + "/" + d[4..];
    if |v2| > 10 {
      assert v2[..10] == d[..2] + "/" + d[2..4] + "/" + d[4..8];
    } else {
      assert d[4..] == d[4..Min(|d|, 8)];
    }
  }

  lemma DateFormatShort(d: string)
    requires AllDigits(d) && 3 <= |d| <= 4
    ensures DateFormat(d) == DateLayout(d)
  {
    DateStep1(d);
    assert |d[..2] + "/" + d[2..]| <= 5;
  }

  /** What `applyDateMask` writes, digit count by digit count: the date layout of the digits. */
  lemma DateMaskShape(raw: string)
    ensures DateMask(raw) == DateLayout(Digits(raw))
  {
    var d := Digits(raw);
    if |d| >= 5 {
      DateFormatLong(d);
    } else if |d| >= 3 {
      DateFormatShort(d);
    }
  }

  lemma DateLayoutDigits(d: string)
    requires AllDigits(d)
    ensures Digits(DateLayout(d)) == d[..Min(|d|, 8)]
  {
    var m := Min(|d|, 8);
    if |d| <= 2 {
      DigitsOfDigitString(d);
      assert d[..m] == d;
    } else if |d| <= 4 {
      DigitsOfDigitString(d[..2]);
      DigitsOfDigitString(d[2..]);
      DigitsSkip(d[..2], "/", d[2..]);
      assert d[..2] + d[2..] == d[..m];
    } else {
      DigitsOfDigitString(d[..2]);
      DigitsOfDigitString(d[2..4]);
      DigitsOfDigitString(d[4..m]);
      DigitsSkip(d[..2], "/", d[2..4]);
      DigitsSkip(d[..2] + "/" + d[2..4], "/", d[4..m]);
      assert d[..2] + d[2..4] + d[4..m] == d[..m];
    }
  }

  /**
   * The date layout has at most 10 characters, keeps the first eight digits in
   * order, and has '/' at index 2 from the third digit on and at index 5 from
   * the fifth digit on.
   */
  lemma DateLayoutProperties(d: string)
    requires AllDigits(d)
    ensures var r := DateLayout(d);
      && |r| <= 10
      && Digits(r) == d[..Min(|d|, 8)]
      && ((|r| > 2 && r[2] == '/') <==> |d| >= 3)
      && ((|r| > 5 && r[5] == '/') <==> |d| >= 5)
  {
    DateLayoutDigits(d);
    var r := DateLayout(d);
    if |d| <= 2 {
      assert |r| <= 2;
    } else if |d| <= 4 {
      assert |r| <= 5 && r[2] == '/';
    } else {
      assert r[2] == '/' && r[5] == '/';
    }
  }

  /**
   * `applyDateMask` writes at most 10 characters, keeps the first eight digits
   * in order, and puts '/' at index 2 from the third digit on and at index 5
   * from the fifth digit on.
   */
  lemma DateMaskProperties(raw: string)
    ensures var d, r := Digits(raw), DateMask(raw);
      && |r| <= 10
      && Digits(r) == d[..Min(|d|, 8)]
      && ((|r| > 2 && r[2] == '/') <==> |d| >= 3)
      && ((|r| > 5 && r[5] == '/') <==> |d| >= 5)
  {
    DateMaskShape(raw);
    DateLayoutProperties(Digits(raw));
  }

  /** Laying out the digits of a date layout gives the same layout. */
  lemma DateLayoutIdempotent(d: string)
    requires AllDigits(d)
    ensures DateLayout(Digits(DateLayout(d))) == DateLayout(d)
  {
    DateLayoutProperties(d);
    var e := Digits(DateLayout(d));
    var m := Min(|d|, 8);
    assert e == d[..m];
    if |d| >= 5 {
      assert |e| == m && Min(|e|, 8) == m;
      assert DateLayout(e) == e[..2] + "/" + e[2..4] + "/" + e[4..m];
      assert e[..2] == d[..2] && e[2..4] == d[2..4] && e[4..m] == d[4..m];
    } else {
      assert e == d;
    }
  }

  /** Re-masking the date mask's own output changes nothing. */
  lemma DateMaskIdempotent(raw: string)
    ensures DateMask(DateMask(raw)) == DateMask(raw)
  {
    DateMaskShape(raw);
    DateMaskShape(DateMask(raw));
    DateLayoutIdempotent(Digits(raw));
  }

  /** From eight digits on, the date mask writes DD/MM/YYYY of the first eight. */
  lemma DateOfEightDigits(raw: string)
    requires |Digits(raw)| >= 8
    ensures var d := Digits(raw);
      DateMask(raw) == d[..2] + "/" + d[2..4] + "/" + d[4..8]
  {
    DateMaskShape(raw);
  }

  // ----- percentage: at most three digits and '%' -----

  /** `applyPercentageMask` */
  function PercentageMask(raw: string): string {
    var value := Digits(raw);
    var value1 := if |value| > 2 then value[..3] else value;
    if value1 != [] then value1 + "%" else ""
  }

  /**
   * `applyPercentageMask` writes nothing for an input without digits, and
   * otherwise the first three digits at most, followed by '%'.
   */
  lemma PercentageMaskShape(raw: string)
    ensures var d, r := Digits(raw), PercentageMask(raw);
      && (d == [] <==> r == [])
      && (d != [] ==> r == d[..Min(|d|, 3)] + "%")
      && Digits(r) == d[..Min(|d|, 3)]
  {
    var d := Digits(raw);
    var m := Min(|d|, 3);
    if d != [] {
      assert d[..m] != [];
      DigitsOfDigitString(d[..m]);
      DigitsAppend(d[..m], "%");
      DigitsOfSeparators("%");
    }
  }

  /** Re-masking the percentage mask's own output changes nothing. */
  lemma PercentageMaskIdempotent(raw: string)
    ensures PercentageMask(PercentageMask(raw)) == PercentageMask(raw)
  {
    var d := Digits(raw);
    var r := PercentageMask(raw);
    PercentageMaskShape(raw);
    PercentageMaskShape(r);
    var e := Digits(r);
    assert e == d[..Min(|d|, 3)];
    assert e[..Min(|e|, 3)] == e;
  }

  // ----- currency: R$ 1.234,56 -----

  /**
   * Cent counts below 10^15 are held exactly as IEEE doubles; `cents / 100`
   * is rounded, but `toFixed(2)` of it still prints the exact two-decimal amount.
   */
  const MaxExactCents: nat := 1_000_000_000_000_000

  /** The two cent digits of an amount. */
  function Cents(c: nat): (s: string)
    ensures |s| == 2 && AllDigits(s) && Value(s) == c % 100
  {
    var s := [DigitChar(c % 100 / 10), DigitChar(c % 10)];
    assert s[..1][..0] == [];
    assert Value(s[..1]) == c % 100 / 10;
    CentsDigits(c);
    s
  }

  lemma CentsDigits(c: nat)
    ensures c % 100 / 10 * 10 + c % 10 == c % 100
  {
    var q := c % 100;
    assert q == q / 10 * 10 + q % 10;
    assert c == (c / 100 * 10 + q / 10) * 10 + q % 10;
  }

  /** `(cents / 100).toFixed(2)` for an amount below `MaxExactCents`. */
  function ToFixed2(c: nat): string {
    Decimal(c / 100) + "." + Cents(c)
  }

  /** `s.replace(a, b)` with a one-character pattern: only the first occurrence. */
  function ReplaceFirst(s: string, a: char, b: char): string {
    if s == [] then []
    else if s[0] == a then [b] + s[1..]
    else [s[0]] + ReplaceFirst(s[1..], a, b)
  }

  /** The lookahead `(?=(\d{3})+,)` at the start of `t`. */
  predicate TriplesThenComma(t: string)
    decreases |t|
  {
    |t| >= 4 && IsDigit(t[0]) && IsDigit(t[1]) && IsDigit(t[2]) &&
    (t[3] == ',' || TriplesThenComma(t[3..]))
  }

  /**
   * `s.replace(/(\d)(?=(\d{3})+,)/g, '$1.')`: each match is one digit, so a '.'
   * follows every digit at which the lookahead holds.
   */
  function ThousandsSeparators(s: string): string {
    if s == [] then []
    else [s[0]] + (if IsDigit(s[0]) && TriplesThenComma(s[1..]) then "." else "") + ThousandsSeparators(s[1..])
  }

  /** `applyCurrencyMask`, for an amount of cents that a double holds exactly. */
  function CurrencyMask(raw: string): string
    requires Value(Digits(raw)) < MaxExactCents
  {
    var value := Digits(raw);
    var fixed := ToFixed2(Value(value));
    var comma := ReplaceFirst(fixed, '.', ',');
    var grouped := ThousandsSeparators(comma);
    if grouped == "0,00" then "" else "R$ " + grouped
  }

  /** Groups of three digits from the right, joined by '.'. */
  function Grouped(d: string): string
    decreases |d|
  {
    if |d| <= 3 then d else Grouped(d[..|d| - 3]) + "." + d[|d| - 3..]
  }

  /** The lookahead holds after a digit exactly when a positive multiple of three digits precede the ','. */
  lemma {:induction false} TriplesThenCommaIff(d: string, f: string)
    requires AllDigits(d)
    ensures TriplesThenComma(d + "," + f) <==> |d| > 0 && |d| % 3 == 0
    decreases |d|
  {
    var t := d + "," + f;
    assert t[|d|] == ',';
    if |d| > 3 {
      assert t[3..] == d[3..] + "," + f;
      TriplesThenCommaIff(d[3..], f);
    }
  }

  lemma {:induction false} NoCommaNoTriples(t: string)
    requires ',' !in t
    ensures !TriplesThenComma(t)
    decreases |t|
  {
    if |t| >= 4 {
      assert t[3] in t;
      NoCommaNoTriples(t[3..]);
    }
  }

  lemma {:induction false} SeparatorsWithoutComma(f: string)
    requires ',' !in f
    ensures ThousandsSeparators(f) == f
  {
    if f != [] {
      NoCommaNoTriples(f[1..]);
      SeparatorsWithoutComma(f[1..]);
    }
  }

  /** The regex model of the grouping, read off left to right. */
  function Dotted(d: string): string {
    if d == [] then []
    else [d[0]] + (if |d| - 1 > 0 && (|d| - 1) % 3 == 0 then "." else "") + Dotted(d[1..])
  }

  lemma {:induction false} SeparatorsOnAmount(d: string, f: string)
    requires AllDigits(d) && ',' !in f
    ensures ThousandsSeparators(d + "," + f) == Dotted(d) + "," + f
  {
    var t := d + "," + f;
    if d == [] {
      assert t == [','] + f;
      assert t[1..] == f;
      SeparatorsWithoutComma(f);
    } else {
      assert t[0] == d[0] && IsDigit(d[0]);
      assert t[1..] == d[1..] + "," + f;
      TriplesThenCommaIff(d[1..], f);
      SeparatorsOnAmount(d[1..], f);
      var sep := if |d| - 1 > 0 && (|d| - 1) % 3 == 0 then "." else "";
      assert ThousandsSeparators(t) == [d[0]] + sep + (Dotted(d[1..]) + "," + f);
      assert Dotted(d) == [d[0]] + sep + Dotted(d[1..]);
    }
  }

  lemma {:induction false} DottedAppendGroup(p: string, t: string)
    requires |p| >= 1 && |t| == 3
    ensures Dotted(p + t) == Dotted(p) + "." + t
    decreases |p|
  {
    var s := p + t;
    assert s[1..] == p[1..] + t;
    if |p| == 1 {
      DottedShort(t);
    } else {
      DottedAppendGroup(p[1..], t);
    }
  }

  lemma {:induction false} DottedShort(d: string)
    requires |d| <= 3
    ensures Dotted(d) == d
  {
    if d != [] {
      DottedShort(d[1..]);
    }
  }

  /** Left to right, the regex places the '.'s of the groups of three counted from the right. */
  lemma {:induction false} DottedIsGrouped(d: string)
    ensures Dotted(d) == Grouped(d)
    decreases |d|
  {
    if |d| <= 3 {
      DottedShort(d);
    } else {
      var p, t := d[..|d| - 3], d[|d| - 3..];
      assert d == p + t;
      DottedAppendGroup(p, t);
      DottedIsGrouped(p);
    }
  }

  lemma {:induction false} GroupedDigits(d: string)
    requires AllDigits(d)
    ensures Digits(Grouped(d)) == d
    decreases |d|
  {
    if |d| <= 3 {
      DigitsOfDigitString(d);
    } else {
      var p, t := d[..|d| - 3], d[|d| - 3..];
      GroupedDigits(p);
      DigitsSkip(Grouped(p), ".", t);
      DigitsOfDigitString(t);
      assert p + t == d;
    }
  }

  lemma {:induction false} ReplaceFirstAfter(x: string, y: string)
    requires '.' !in x
    ensures ReplaceFirst(x + "." + y, '.', ',') == x + "," + y
  {
    if x != [] {
      assert (x + "." + y)[1..] == x[1..] + "." + y;
      assert x[0] in x;
      ReplaceFirstAfter(x[1..], y);
    }
  }

  /** The amount as the mask writes it after 'R$ ': grouped whole part, ',', two cent digits. */
  function Amount(c: nat): string {
    Grouped(Decimal(c / 100)) + "," + Cents(c)
  }

  /** `toFixed`, the ',' and the regex together produce `Amount`. */
  lemma AmountFormat(c: nat)
    ensures ThousandsSeparators(ReplaceFirst(ToFixed2(c), '.', ',')) == Amount(c)
  {
    var whole := Decimal(c / 100);
    assert '.' !in whole;
    ReplaceFirstAfter(whole, Cents(c));
    assert ',' !in Cents(c) by {
      assert IsDigit(Cents(c)[0]) && IsDigit(Cents(c)[1]);
    }
    SeparatorsOnAmount(whole, Cents(c));
    DottedIsGrouped(whole);
  }

  /** The digits of the formatted amount spell the amount of cents itself. */
  lemma AmountValue(c: nat)
    ensures AllDigits(Digits(Amount(c)))
    ensures Value(Digits(Amount(c))) == c
  {
    var whole := Decimal(c / 100);
    GroupedDigits(whole);
    DigitsSkip(Grouped(whole), ",", Cents(c));
    DigitsOfDigitString(Cents(c));
    ValueAppend(whole, Cents(c));
    assert Pow10(2) == 100;
  }

  lemma ZeroAmount()
    ensures Amount(0) == "0,00"
    ensures Digits("0,00") == "000" && Value("000") == 0
  {
    assert Decimal(0) == "0";
    assert Cents(0) == "00";
    DigitsSkip("0", ",", "00");
    DigitsOfDigitString("0");
    DigitsOfDigitString("00");
    assert "000"[..2] == "00" && "00"[..1] == "0" && "0"[..0] == [];
  }

  /**
   * `applyCurrencyMask`: no digits, or only zeros, give the empty string; any
   * other amount gives 'R$ ', the whole part grouped by '.', ',' and two cent digits.
   */
  lemma CurrencyMaskShape(raw: string)
    requires Value(Digits(raw)) < MaxExactCents
    ensures var c := Value(Digits(raw));
      && (c == 0 ==> CurrencyMask(raw) == "")
      && (c != 0 ==> CurrencyMask(raw) == "R$ " + Amount(c))
  {
    var c := Value(Digits(raw));
    AmountFormat(c);
    ZeroAmount();
    if c != 0 {
      AmountValue(c);
      assert Amount(c) != "0,00";
    }
  }

  /** The digits the currency mask writes, read as cents, are the amount that was typed. */
  lemma CurrencyMaskKeepsAmount(raw: string)
    requires Value(Digits(raw)) < MaxExactCents
    ensures AllDigits(Digits(CurrencyMask(raw)))
    ensures Value(Digits(CurrencyMask(raw))) == Value(Digits(raw))
  {
    var c := Value(Digits(raw));
    CurrencyMaskShape(raw);
    if c != 0 {
      AmountValue(c);
      DigitsAfterSeparator("R$ ", Amount(c));
    }
  }

  /** Re-masking the currency mask's own output changes nothing. */
  lemma CurrencyMaskIdempotent(raw: string)
    requires Value(Digits(raw)) < MaxExactCents
    ensures Value(Digits(CurrencyMask(raw))) < MaxExactCents
    ensures CurrencyMask(CurrencyMask(raw)) == CurrencyMask(raw)
  {
    CurrencyMaskKeepsAmount(raw);
  }

  lemma TenReaisAmount()
    ensures Amount(1000) == "10,00"
  {
    assert Decimal(10) == "10" by {
      assert Decimal(1) == "1";
    }
    assert Cents(1000) == "00";
    assert Grouped("10") == "10";
  }

  /** Whatever surrounds them, digits reading 1000 cents are written as ten reais. */
  lemma CurrencyMaskExample(raw: string)
    requires Value(Digits(raw)) == 1000
    ensures CurrencyMask(raw) == "R$ 10,00"
  {
    CurrencyMaskShape(raw);
    TenReaisAmount();
    assert "R$ " + "10,00" == "R$ 10,00";
  }
}
