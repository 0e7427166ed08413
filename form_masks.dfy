/**
 * The keystroke masks that `initFormMasks` (js/script.js) installs on phone,
 * CPF/CNPJ and CEP fields. Each handler strips the field to its digits and
 * re-inserts punctuation with single regular-expression replacements; the
 * string it writes back to the field is the result of the function here.
 */
module FormMasks {
  import opened Text
  import opened Regex

  // ----- phone: (dd) ddddd-dddd -----

  /**
   * The phone handler. With more than 11 digits it does not write the field,
   * so the field keeps what was typed.
   */
  function PhoneMask(raw: string): string {
    var value := Digits(raw);
    if |value| <= 11 then
      var value1 := Replace(value, Run(3), 2, "(", ") ");
      Replace(value1, Run(6), 5, "", "-")
    else
      raw
  }

  lemma PhoneStep1(d: string)
    requires AllDigits(d) && |d| >= 3
    ensures Replace(d, Run(3), 2, "(", ") ") == "(" + d[..2] + ") " + d[2..]
  {
    RunAt(d, 0, 3);
    ReplaceAt(d, Run(3), 2, "(", ") ", 0);
    assert d[..0] + "(" + d[0..2] + ") " + d[2..] == "(" + d[..2] + ") " + d[2..];
  }

  lemma PhoneStep2(d: string)
    requires AllDigits(d) && |d| >= 2
    ensures var v1 := "(" + d[..2] + ") " + d[2..];
      && (|d| <= 7 ==> Replace(v1, Run(6), 5, "", "-") == v1)
      && (|d| >= 8 ==> Replace(v1, Run(6), 5, "", "-") == "(" + d[..2] + ") " + d[2..7] + "-" + d[7..])
  {
    var v1 := "(" + d[..2] + ") " + d[2..];
    assert v1[3] == ')' && v1[4] == ' ';
    Barrier(v1, 6, 3);
    Barrier(v1, 6, 4);
    if |d| <= 7 {
      ReplaceNone(v1, Run(6), 5, "", "-");
    } else {
      RunAt(v1, 5, 6);
      ReplaceAt(v1, Run(6), 5, "", "-", 5);
      assert v1[..10] == "(" + d[..2] + ") " + d[2..7];
      assert v1[10..] == d[7..];
    }
  }

  /** What the phone handler writes, digit count by digit count. */
  lemma PhoneMaskShape(raw: string)
    ensures var d := Digits(raw);
      && (|d| > 11 ==> PhoneMask(raw) == raw)
      && (|d| <= 2 ==> PhoneMask(raw) == d)
      && (3 <= |d| <= 7 ==> PhoneMask(raw) == "(" + d[..2] + ") " + d[2..])
      && (8 <= |d| <= 11 ==> PhoneMask(raw) == "(" + d[..2] + ") " + d[2..7] + "-" + d[7..])
  {
    var d := Digits(raw);
    if |d| <= 2 {
      ReplaceNone(d, Run(3), 2, "(", ") ");
      ReplaceNone(d, Run(6), 5, "", "-");
    } else if |d| <= 11 {
      PhoneStep1(d);
      PhoneStep2(d);
    }
  }

  lemma PhoneParenDigits(d: string)
    requires AllDigits(d) && |d| >= 2
    ensures Digits("(" + d[..2] + ") " + d[2..]) == d
  {
    DigitsAfterSeparator("(", d[..2]);
    DigitsOfDigitString(d[..2]);
    DigitsOfDigitString(d[2..]);
    DigitsSkip("(" + d[..2], ") ", d[2..]);
    assert d[..2] + d[2..] == d;
  }

  lemma PhoneDashDigits(d: string)
    requires AllDigits(d) && |d| >= 7
    ensures Digits("(" + d[..2] + ") " + d[2..7] + "-" + d[7..]) == d
  {
    PhoneParenDigits(d[..7]);
    assert d[..7][..2] == d[..2] && d[..7][2..] == d[2..7];
    DigitsOfDigitString(d[7..]);
    DigitsSkip("(" + d[..2] + ") " + d[2..7], "-", d[7..]);
    assert d[..7] + d[7..] == d;
  }

  lemma PhoneLayoutDigits(d: string)
    requires AllDigits(d) && |d| >= 3
    ensures Digits("(" + d[..2] + ") " + d[2..]) == d
    ensures |d| >= 8 ==> Digits("(" + d[..2] + ") " + d[2..7] + "-" + d[7..]) == d
  {
    PhoneParenDigits(d);
    if |d| >= 8 {
      PhoneDashDigits(d);
    }
  }

  /** Up to 11 digits, the phone mask keeps exactly the digits that were typed. */
  lemma PhoneMaskKeepsDigits(raw: string)
    ensures Digits(PhoneMask(raw)) == Digits(raw)
  {
    var d := Digits(raw);
    PhoneMaskShape(raw);
    if |d| > 11 {
    } else if |d| >= 3 {
      PhoneLayoutDigits(d);
    } else {
      DigitsOfDigitString(d);
    }
  }

  /** Typing into a phone field that already holds the mask's output changes nothing. */
  lemma PhoneMaskIdempotent(raw: string)
    ensures PhoneMask(PhoneMask(raw)) == PhoneMask(raw)
  {
    PhoneMaskKeepsDigits(raw);
  }

  // ----- CPF ddd.ddd.ddd-dd and CNPJ dd.ddd.ddd/dddd-dd -----

  /**
   * `v.replace(/(\d{3})(\d{1,2})$/, '$1-$2')`. A match ends the string, so it
   * starts 5 or 4 positions before the end; the leftmost start is tried first,
   * and there `\d{1,2}` must take two digits to reach `$`.
   */
  function EndDash(v: string): string {
    if |v| >= 5 && MatchesAt(v, |v| - 5, Run(5)) then v[..|v| - 2] + "-" + v[|v| - 2..]
    else if |v| >= 4 && MatchesAt(v, |v| - 4, Run(4)) then v[..|v| - 1] + "-" + v[|v| - 1..]
    else v
  }

  /** The CPF/CNPJ handler: a CPF layout up to 11 digits, a CNPJ layout beyond. */
  function CpfCnpjMask(raw: string): string {
    var value := Digits(raw);
    if |value| <= 11 then
      var value1 := Replace(value, Run(4), 3, "", ".");
      var value2 := Replace(value1, Run(4), 3, "", ".");
      EndDash(value2)
    else
      var value1 := Replace(value, Run(3), 2, "", ".");
      var value2 := Replace(value1, Run(4), 3, "", ".");
      var value3 := Replace(value2, Run(4), 3, "", "/");
      Replace(value3, Run(5), 4, "", "-")
  }

  lemma CpfStep1(d: string)
    requires AllDigits(d)
    ensures |d| <= 3 ==> Replace(d, Run(4), 3, "", ".") == d
    ensures |d| >= 4 ==> Replace(d, Run(4), 3, "", ".") == d[..3] + "." + d[3..]
  {
    if |d| <= 3 {
      ReplaceNone(d, Run(4), 3, "", ".");
    } else {
      RunAt(d, 0, 4);
      ReplaceAt(d, Run(4), 3, "", ".", 0);
    }
  }

  lemma CpfStep2(d: string)
    requires AllDigits(d) && |d| >= 3
    ensures var v1 := d[..3] + "." + d[3..];
      && (|d| <= 6 ==> Replace(v1, Run(4), 3, "", ".") == v1)
      && (|d| >= 7 ==> Replace(v1, Run(4), 3, "", ".") == d[..3] + "." + d[3..6] + "." + d[6..])
  {
    var v1 := d[..3] + "." + d[3..];
    assert v1[3] == '.';
    Barrier(v1, 4, 3);
    if |d| <= 6 {
      ReplaceNone(v1, Run(4), 3, "", ".");
    } else {
      RunAt(v1, 4, 4);
      ReplaceAt(v1, Run(4), 3, "", ".", 4);
      assert v1[..7] + "." + v1[7..] == d[..3] + "." + d[3..6] + "." + d[6..];
    }
  }

  lemma CpfEndDashShort(d: string)
    requires AllDigits(d) && |d| <= 6
    ensures |d| <= 3 ==> EndDash(d) == d
    ensures |d| >= 3 ==> EndDash(d[..3] + "." + d[3..]) == d[..3] + "." + d[3..]
  {
    if |d| >= 3 {
      var v1 := d[..3] + "." + d[3..];
      assert v1[3] == '.';
      Barrier(v1, 5, 3);
      Barrier(v1, 4, 3);
    }
  }

  lemma CpfEndDashLong(d: string)
    requires AllDigits(d) && 6 <= |d| <= 11
    ensures var v2 := d[..3] + "." + d[3..6] + "." + d[6..];
      && (|d| <= 9 ==> EndDash(v2) == v2)
      && (|d| >= 10 ==> EndDash(v2) == d[..3] + "." + d[3..6] + "." + d[6..9] + "-" + d[9..])
  {
    var v2 := d[..3] + "." + d[3..6] + "." + d[6..];
    assert v2[7] == '.';
    Barrier(v2, 5, 7);
    Barrier(v2, 4, 7);
    if |d| == 10 {
      RunAt(v2, 8, 4);
      assert v2[..11] + "-" + v2[11..] == d[..3] + "." + d[3..6] + "." + d[6..9] + "-" + d[9..];
    } else if |d| == 11 {
      RunAt(v2, 8, 5);
      assert v2[..11] + "-" + v2[11..] == d[..3] + "." + d[3..6] + "." + d[6..9] + "-" + d[9..];
    }
  }

  /** Up to 11 digits the CPF layout is built progressively; the '-' comes only at 10 digits. */
  lemma CpfLayoutShape(raw: string)
    requires |Digits(raw)| <= 11
    ensures var d := Digits(raw);
      && (|d| <= 3 ==> CpfCnpjMask(raw) == d)
      && (4 <= |d| <= 6 ==> CpfCnpjMask(raw) == d[..3] + "." + d[3..])
      && (7 <= |d| <= 9 ==> CpfCnpjMask(raw) == d[..3] + "." + d[3..6] + "." + d[6..])
      && (10 <= |d| ==> CpfCnpjMask(raw) == d[..3] + "." + d[3..6] + "." + d[6..9] + "-" + d[9..])
  {
    var d := Digits(raw);
    CpfStep1(d);
    if |d| <= 3 {
      CpfStep1(d);
      CpfEndDashShort(d);
    } else {
      CpfStep2(d);
      if |d| <= 6 {
        CpfEndDashShort(d);
      } else {
        CpfEndDashLong(d);
      }
    }
  }

  lemma CnpjStep1(d: string)
    requires AllDigits(d) && |d| >= 12
    ensures Replace(d, Run(3), 2, "", ".") == d[..2] + "." + d[2..]
  {
    RunAt(d, 0, 3);
    ReplaceAt(d, Run(3), 2, "", ".", 0);
  }

  lemma CnpjStep2(d: string)
    requires AllDigits(d) && |d| >= 12
    ensures Replace(d[..2] + "." + d[2..], Run(4), 3, "", ".") == d[..2] + "." + d[2..5] + "." + d[5..]
  {
    var v1 := d[..2] + "." + d[2..];
    assert v1[2] == '.';
    Barrier(v1, 4, 2);
    RunAt(v1, 3, 4);
    ReplaceAt(v1, Run(4), 3, "", ".", 3);
    assert v1[..6] + "." + v1[6..] == d[..2] + "." + d[2..5] + "." + d[5..];
  }

  lemma CnpjStep3(d: string)
    requires AllDigits(d) && |d| >= 12
    ensures Replace(d[..2] + "." + d[2..5] + "." + d[5..], Run(4), 3, "", "/")
      == d[..2] + "." + d[2..5] + "." + d[5..8] + "/" + d[8..]
  {
    var v2 := d[..2] + "." + d[2..5] + "." + d[5..];
    assert v2[2] == '.' && v2[6] == '.';
    Barrier(v2, 4, 2);
    Barrier(v2, 4, 6);
    RunAt(v2, 7, 4);
    ReplaceAt(v2, Run(4), 3, "", "/", 7);
    assert v2[..10] + "/" + v2[10..] == d[..2] + "." + d[2..5] + "." + d[5..8] + "/" + d[8..];
  }

  lemma CnpjStep4(d: string)
    requires AllDigits(d) && |d| >= 12
    ensures var v3 := d[..2] + "." + d[2..5] + "." + d[5..8] + "/" + d[8..];
      && (|d| == 12 ==> Replace(v3, Run(5), 4, "", "-") == v3)
      && (|d| >= 13 ==>
            Replace(v3, Run(5), 4, "", "-") == d[..2] + "." + d[2..5] + "." + d[5..8] + "/" + d[8..12] + "-" + d[12..])
  {
    var v3 := d[..2] + "." + d[2..5] + "." + d[5..8] + "/" + d[8..];
    assert v3[2] == '.' && v3[6] == '.' && v3[10] == '/';
    Barrier(v3, 5, 2);
    Barrier(v3, 5, 6);
    Barrier(v3, 5, 10);
    if |d| == 12 {
      ReplaceNone(v3, Run(5), 4, "", "-");
    } else {
      RunAt(v3, 11, 5);
      ReplaceAt(v3, Run(5), 4, "", "-", 11);
      assert v3[..15] + "-" + v3[15..] == d[..2] + "." + d[2..5] + "." + d[5..8] + "/" + d[8..12] + "-" + d[12..];
    }
  }

  /** From 12 digits on, the CNPJ layout dd.ddd.ddd/dddd-…; the '-' comes at 13 digits. */
  lemma CnpjLayoutShape(raw: string)
    requires |Digits(raw)| >= 12
    ensures var d := Digits(raw);
      && (|d| == 12 ==> CpfCnpjMask(raw) == d[..2] + "." + d[2..5] + "." + d[5..8] + "/" + d[8..])
      && (|d| >= 13 ==> CpfCnpjMask(raw) == d[..2] + "." + d[2..5] + "." + d[5..8] + "/" + d[8..12] + "-" + d[12..])
  {
    var d := Digits(raw);
    CnpjStep1(d);
    CnpjStep2(d);
    CnpjStep3(d);
    CnpjStep4(d);
  }

  lemma CpfOneDotDigits(d: string)
    requires AllDigits(d) && 3 <= |d|
    ensures Digits(d[..3] + "." + d[3..]) == d
  {
    DigitsOfDigitString(d[..3]);
    DigitsOfDigitString(d[3..]);
    DigitsSkip(d[..3], ".", d[3..]);
    assert d[..3] + d[3..] == d;
  }

  lemma CpfTwoDotsDigits(d: string)
    requires AllDigits(d) && 6 <= |d|
    ensures Digits(d[..3] + "." + d[3..6] + "." + d[6..]) == d
  {
    CpfOneDotDigits(d[..6]);
    assert d[..6][..3] == d[..3] && d[..6][3..] == d[3..6];
    DigitsOfDigitString(d[6..]);
    DigitsSkip(d[..3] + "." + d[3..6], ".", d[6..]);
    assert d[..6] + d[6..] == d;
  }

  lemma CpfDashDigits(d: string)
    requires AllDigits(d) && 9 <= |d|
    ensures Digits(d[..3] + "." + d[3..6] + "." + d[6..9] + "-" + d[9..]) == d
  {
    CpfTwoDotsDigits(d[..9]);
    assert d[..9][..3] == d[..3] && d[..9][3..6] == d[3..6] && d[..9][6..] == d[6..9];
    DigitsOfDigitString(d[9..]);
    DigitsSkip(d[..3] + "." + d[3..6] + "." + d[6..9], "-", d[9..]);
    assert d[..9] + d[9..] == d;
  }

  lemma CpfLayoutDigits(d: string)
    requires AllDigits(d) && 4 <= |d|
    ensures Digits(d[..3] + "." + d[3..]) == d
    ensures |d| >= 7 ==> Digits(d[..3] + "." + d[3..6] + "." + d[6..]) == d
    ensures |d| >= 10 ==> Digits(d[..3] + "." + d[3..6] + "." + d[6..9] + "-" + d[9..]) == d
  {
    CpfOneDotDigits(d);
    if |d| >= 7 {
      CpfTwoDotsDigits(d);
    }
    if |d| >= 10 {
      CpfDashDigits(d);
    }
  }

  lemma CnpjSlashDigits(d: string)
    requires AllDigits(d) && |d| >= 8
    ensures Digits(d[..2] + "." + d[2..5] + "." + d[5..8] + "/" + d[8..]) == d
  {
    var x1 := d[..2] + "." + d[2..5];
    DigitsOfDigitString(d[..2]);
    DigitsThen(d[..2], ".", d[2..5]);
    assert d[..2] + d[2..5] == d[..5];
    var x2 := x1 + "." + d[5..8];
    DigitsThen(x1, ".", d[5..8]);
    assert d[..5] + d[5..8] == d[..8];
    DigitsThen(x2, "/", d[8..]);
    assert d[..8] + d[8..] == d;
  }

  lemma CnpjDashDigits(d: string)
    requires AllDigits(d) && |d| >= 12
    ensures Digits(d[..2] + "." + d[2..5] + "." + d[5..8] + "/" + d[8..12] + "-" + d[12..]) == d
  {
    CnpjSlashDigits(d[..12]);
    assert d[..12][..2] == d[..2] && d[..12][2..5] == d[2..5] && d[..12][5..8] == d[5..8] && d[..12][8..] == d[8..12];
    DigitsOfDigitString(d[12..]);
    DigitsSkip(d[..2] + "." + d[2..5] + "." + d[5..8] + "/" + d[8..12], "-", d[12..]);
    assert d[..12] + d[12..] == d;
  }

  lemma CnpjLayoutDigits(d: string)
    requires AllDigits(d) && |d| >= 12
    ensures Digits(d[..2] + "." + d[2..5] + "." + d[5..8] + "/" + d[8..]) == d
    ensures |d| >= 13 ==> Digits(d[..2] + "." + d[2..5] + "." + d[5..8] + "/" + d[8..12] + "-" + d[12..]) == d
  {
    CnpjSlashDigits(d);
    CnpjDashDigits(d);
  }

  /** In both layouts the CPF/CNPJ mask keeps exactly the digits that were typed. */
  lemma CpfCnpjMaskKeepsDigits(raw: string)
    ensures Digits(CpfCnpjMask(raw)) == Digits(raw)
  {
    var d := Digits(raw);
    if |d| <= 11 {
      CpfLayoutShape(raw);
      if |d| <= 3 {
        DigitsOfDigitString(d);
      } else {
        CpfLayoutDigits(d);
      }
    } else {
      CnpjLayoutShape(raw);
      CnpjLayoutDigits(d);
    }
  }

  /** Re-masking the mask's own output changes nothing. */
  lemma CpfCnpjMaskIdempotent(raw: string)
    ensures CpfCnpjMask(CpfCnpjMask(raw)) == CpfCnpjMask(raw)
  {
    CpfCnpjMaskKeepsDigits(raw);
  }

  // ----- CEP: ddddd-ddd -----

  /** The CEP handler. */
  function CepMask(raw: string): string {
    var value := Digits(raw);
    var value1 := if |value| > 5 then Replace(value, Run(6), 5, "", "-") else value;
    if |value1| > 9 then value1[..9] else value1
  }

  /** What the CEP handler writes: at most eight digits, a '-' after the fifth. */
  lemma CepMaskShape(raw: string)
    ensures var d := Digits(raw);
      && (|d| <= 5 ==> CepMask(raw) == d)
      && (|d| >= 6 ==> CepMask(raw) == d[..5] + "-" + d[5..Min(|d|, 8)])
  {
    var d := Digits(raw);
    if |d| >= 6 {
      RunAt(d, 0, 6);
      ReplaceAt(d, Run(6), 5, "", "-", 0);
      var v1 := d[..5] + "-" + d[5..];
      if |v1| > 9 {
        assert v1[..9] == d[..5] + "-" + d[5..8];
      }
    }
  }

  lemma CepDashDigits(d: string)
    requires AllDigits(d) && |d| >= 6
    ensures Digits(d[..5] + "-" + d[5..Min(|d|, 8)]) == d[..Min(|d|, 8)]
  {
    var m := Min(|d|, 8);
    DigitsOfDigitString(d[..5]);
    DigitsOfDigitString(d[5..m]);
    DigitsSkip(d[..5], "-", d[5..m]);
    assert d[..5] + d[5..m] == d[..m];
  }

  /** The CEP mask's properties: bounded length, '-' placement, digits kept up to eight. */
  lemma CepMaskProperties(raw: string)
    ensures var d, r := Digits(raw), CepMask(raw);
      && |r| <= 9
      && ((|r| > 5 && r[5] == '-') <==> |d| >= 6)
      && Digits(r) == d[..Min(|d|, 8)]
  {
    var d := Digits(raw);
    CepMaskShape(raw);
    if |d| >= 6 {
      CepDashDigits(d);
      assert CepMask(raw)[5] == '-';
    } else {
      DigitsOfDigitString(d);
      assert d[..Min(|d|, 8)] == d;
    }
  }

  /** Re-masking the CEP mask's own output changes nothing. */
  lemma CepMaskIdempotent(raw: string)
    ensures CepMask(CepMask(raw)) == CepMask(raw)
  {
    var d := Digits(raw);
    var r := CepMask(raw);
    CepMaskProperties(raw);
    CepMaskShape(raw);
    CepMaskShape(r);
    var e := Digits(r);
    if |d| >= 6 {
      assert e[..5] == d[..5];
      assert e[5..Min(|e|, 8)] == d[5..Min(|d|, 8)];
    }
  }
}
