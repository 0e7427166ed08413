/**
 * The validators of `CustomValidations` (js/formularios.js) for CPF, CNPJ and
 * telephone numbers. Each strips its input to digits first and answers with
 * `{ isValid, message }`.
 */
module CustomValidations {
  import opened Wrappers
  import opened Text
  import opened CheckDigits

  datatype ValidationResult = ValidationResult(isValid: bool, message: string)

  const CpfValid := ValidationResult(true, "CPF válido")
  const CpfInvalid := ValidationResult(false, "CPF inválido")
  const CnpjValid := ValidationResult(true, "CNPJ válido")
  const CnpjInvalid := ValidationResult(false, "CNPJ inválido")

  // ----- CPF -----

  /**
   * A CPF as `validateCPF` accepts it: eleven digits, not all the same, and
   * both check digits equal to `(sum * 10) % 11` (10 read as 0) of the weighted
   * sums of the nine and ten digits before them, weights counting down to 2.
   */
  predicate CpfAccepted(d: string)
    requires AllDigits(d)
  {
    |d| == 11 && !AllSame(d) &&
    TimesTenCheck(WeightedSum(d[..9], 10)) == DigitVal(d[9]) &&
    TimesTenCheck(WeightedSum(d[..10], 11)) == DigitVal(d[10])
  }

  /**
   * The loops of `validateCPF`: for `i` from 1 to `n`, the digit at `i - 1`
   * times `top + 1 - i` (`11 - i` for the first check digit, `12 - i` for the second).
   */
  method CpfSum(d: string, n: nat, top: int) returns (sum: int)
    requires AllDigits(d) && n <= |d|
    ensures sum == WeightedSum(d[..n], top)
  {
    sum := 0;
    for i := 1 to n + 1
      invariant sum == WeightedSum(d[..i - 1], top)
    {
      assert d[..i][..i - 1] == d[..i - 1];
      sum := sum + DigitVal(d[i - 1]) * (top + 1 - i);
    }
  }

  /** `validateCPF` */
  method ValidateCpf(cpf: string) returns (r: ValidationResult)
    ensures r == (if CpfAccepted(Digits(cpf)) then CpfValid else CpfInvalid)
  {
    var d := Digits(cpf);
    if |d| != 11 || AllSame(d) {
      return CpfInvalid;
    }
    var sum := CpfSum(d, 9, 10);
    var remainder := (sum * 10) % 11;
    if remainder == 10 || remainder == 11 {
      remainder := 0;
    }
    assert remainder == TimesTenCheck(WeightedSum(d[..9], 10));
    if remainder != DigitVal(d[9]) {
      return CpfInvalid;
    }
    sum := CpfSum(d, 10, 11);
    remainder := (sum * 10) % 11;
    if remainder == 10 || remainder == 11 {
      remainder := 0;
    }
    assert remainder == TimesTenCheck(WeightedSum(d[..10], 11));
    if remainder != DigitVal(d[10]) {
      return CpfInvalid;
    }
    return CpfValid;
  }

  /** Without the repeated-digit test, every string of one digit would pass: the rule is needed. */
  lemma RepeatedDigitCpfRejected(d: string)
    requires |d| == 11 && AllDigits(d) && AllSame(d)
    ensures !CpfAccepted(d)
    ensures TimesTenCheck(WeightedSum(d[..9], 10)) == DigitVal(d[9])
    ensures TimesTenCheck(WeightedSum(d[..10], 11)) == DigitVal(d[10])
  {
    RepeatedDigitsPassChecksum(d);
  }

  lemma CpfFirstSumTo4()
    ensures WeightedSum("5299", 10) == 203
  {
    assert WeightedSum("5", 10) == 50;
    assert WeightedSum("52", 10) == 68 by {
      assert "52"[..1] == "5";
    }
    assert WeightedSum("529", 10) == 140 by {
      assert "529"[..2] == "52";
    }
    assert WeightedSum("5299", 10) == 203 by {
      assert "5299"[..3] == "529";
    }
  }

  lemma CpfFirstSumTo8()
    ensures WeightedSum("52998224", 10) == 281
  {
    CpfFirstSumTo4();
    assert WeightedSum("52998", 10) == 251 by {
      assert "52998"[..4] == "5299";
    }
    assert WeightedSum("529982", 10) == 261 by {
      assert "529982"[..5] == "52998";
    }
    assert WeightedSum("5299822", 10) == 269 by {
      assert "5299822"[..6] == "529982";
    }
    assert WeightedSum("52998224", 10) == 281 by {
      assert "52998224"[..7] == "5299822";
    }
  }

  /** The weighted sum behind the first check digit of 529.982.247-25. */
  lemma CpfExampleFirstSum()
    ensures WeightedSum("529982247", 10) == 295
  {
    CpfFirstSumTo8();
    assert WeightedSum("529982247", 10) == 295 by {
      assert "529982247"[..8] == "52998224";
    }
  }
  lemma CpfSecondSumTo4()
    ensures WeightedSum("5299", 11) == 228
  {
    assert WeightedSum("5", 11) == 55;
    assert WeightedSum("52", 11) == 75 by {
      assert "52"[..1] == "5";
    }
    assert WeightedSum("529", 11) == 156 by {
      assert "529"[..2] == "52";
    }
    assert WeightedSum("5299", 11) == 228 by {
      assert "5299"[..3] == "529";
    }
  }

  lemma CpfSecondSumTo8()
    ensures WeightedSum("52998224", 11) == 322
  {
    CpfSecondSumTo4();
    assert WeightedSum("52998", 11) == 284 by {
      assert "52998"[..4] == "5299";
    }
    assert WeightedSum("529982", 11) == 296 by {
      assert "529982"[..5] == "52998";
    }
    assert WeightedSum("5299822", 11) == 306 by {
      assert "5299822"[..6] == "529982";
    }
    assert WeightedSum("52998224", 11) == 322 by {
      assert "52998224"[..7] == "5299822";
    }
  }

  /** The weighted sum behind the second check digit of 529.982.247-25. */
  lemma CpfExampleSecondSum()
    ensures WeightedSum("5299822472", 11) == 347
  {
    CpfSecondSumTo8();
    assert WeightedSum("529982247", 11) == 343 by {
      assert "529982247"[..8] == "52998224";
    }
    assert WeightedSum("5299822472", 11) == 347 by {
      assert "5299822472"[..9] == "529982247";
    }
  }
  /** A well-formed CPF is accepted, and changing its last digit makes it invalid. */
  lemma CpfExamples()
    ensures CpfAccepted("52998224725")
    ensures !CpfAccepted("52998224726")
  {
    var good, bad := "52998224725", "52998224726";
    assert good[..9] == bad[..9] == "529982247";
    assert good[..10] == bad[..10] == "5299822472";
    CpfExampleFirstSum();
    CpfExampleSecondSum();
    assert !AllSame(good) by {
      assert good[1] != good[0];
    }
  }

  // ----- CNPJ -----

  /** `factor--`, and back to 9 once the factor drops below 2. */
  function NextFactor(f: int): int {
    if f - 1 < 2 then 9 else f - 1
  }

  /** The value of `factor` after `n` rounds of `calc`'s loop, which starts it at `start`. */
  function FactorAfter(start: int, n: nat): int {
    if n == 0 then start else NextFactor(FactorAfter(start, n - 1))
  }

  /** The weights `calc(x)` gives to the positions `0 .. x - 1` of the base. */
  function CalcWeights(x: nat): (w: seq<int>)
    ensures |w| == x
  {
    seq(x, k requires 0 <= k => FactorAfter(x - 7, k))
  }

  /** The CNPJ weights: 2, 3, ..., 9 from the rightmost position leftwards, then 2 again. */
  function CnpjWeights(n: nat): (w: seq<int>)
    ensures |w| == n
  {
    seq(n, k => 2 + (n - 1 - k) % 8)
  }

  /** The sum of each digit times its weight. */
  function Dot(s: string, w: seq<int>): int
    requires AllDigits(s) && |s| == |w|
  {
    if s == [] then 0 else Dot(s[..|s| - 1], w[..|w| - 1]) + DigitVal(s[|s| - 1]) * w[|w| - 1]
  }

  /** `11 - (sum % 11)`, with anything above 9 read as 0. */
  function Mod11Digit(sum: int): (k: int)
    ensures 0 <= k <= 9
    ensures sum >= 0 ==> (k == 0 <==> sum % 11 <= 1)
  {
    var result := 11 - JsRem11(sum);
    if result > 9 then 0 else result
  }

  /** The check digit of a CNPJ base as the CNPJ rules define it. */
  function CnpjCheckDigit(base: string): (k: int)
    requires AllDigits(base)
    ensures 0 <= k <= 9
  {
    Mod11Digit(Dot(base, CnpjWeights(|base|)))
  }

  /** From a base of nine to sixteen digits, `calc`'s factor runs through exactly the CNPJ weights. */
  lemma {:induction false} FactorIsCnpjWeight(x: nat, k: nat)
    requires 9 <= x <= 16
    ensures FactorAfter(x - 7, k) == 2 + (x - 1 - k) % 8
  {
    if k > 0 {
      FactorIsCnpjWeight(x, k - 1);
    }
  }

  lemma CalcWeightsAreCnpjWeights(x: nat)
    requires 9 <= x <= 16
    ensures CalcWeights(x) == CnpjWeights(x)
  {
    forall k | 0 <= k < x ensures CalcWeights(x)[k] == CnpjWeights(x)[k] {
      FactorIsCnpjWeight(x, k);
    }
  }

  /**
   * `calc(x)` over `numbers`: `None` stands for `NaN`, which the loop produces
   * as soon as it reads `slice[x - i]` past the end of the base.
   */
  method CnpjCalc(numbers: string, x: nat) returns (r: Option<int>)
    requires AllDigits(numbers)
    ensures x > |numbers| ==> r == None
    ensures x <= |numbers| ==> r == Some(Mod11Digit(Dot(numbers[..x], CalcWeights(x))))
  {
    var slice := if x <= |numbers| then numbers[..x] else numbers;
    var factor := x - 7;
    var sum: Option<int> := Some(0);
    var i := x;
    while i >= 1
      invariant 0 <= i <= x
      invariant factor == FactorAfter(x - 7, x - i)
      invariant x - i <= |slice| ==> sum == Some(Dot(slice[..x - i], CalcWeights(x)[..x - i]))
      invariant x - i > |slice| ==> sum == None
    {
      var j := x - i;
      var n: Option<int> := if j < |slice| then Some(DigitVal(slice[j])) else None;
      if j < |slice| {
        assert slice[..j + 1][..j] == slice[..j];
        assert CalcWeights(x)[..j + 1][..j] == CalcWeights(x)[..j];
      }
      sum := if sum.Some? && n.Some? then Some(sum.value + n.value * factor) else None;
      factor := factor - 1;
      if factor < 2 {
        factor := 9;
      }
      i := i - 1;
    }
    assert x <= |slice| ==> CalcWeights(x)[..x] == CalcWeights(x) && slice[..x] == numbers[..x];
    r := if sum.Some? then Some(Mod11Digit(sum.value)) else None;
  }

  /**
   * `validateCNPJ` as written: the second check digit is computed by `calc(13)`
   * over the twelve-digit base, which reads past its end, so no input is valid.
   */
  method ValidateCnpj(cnpj: string) returns (r: ValidationResult)
    ensures r == CnpjInvalid
  {
    var d := Digits(cnpj);
    if |d| != 14 || AllSame(d) {
      return CnpjInvalid;
    }
    var size := |d| - 2;
    var numbers := d[..size];
    var digits := d[size..];
    var first := CnpjCalc(numbers, 12);
    if first != Some(DigitVal(digits[0])) {
      return CnpjInvalid;
    }
    var second := CnpjCalc(numbers, 13);
    r := if second != Some(DigitVal(digits[1])) then CnpjInvalid else CnpjValid;
  }

  /**
   * A CNPJ as the CNPJ rules accept it: fourteen digits, not all the same, and
   * each check digit the modulo-11 digit of everything before it.
   */
  predicate CnpjAccepted(d: string)
    requires AllDigits(d)
  {
    |d| == 14 && !AllSame(d) &&
    CnpjCheckDigit(d[..12]) == DigitVal(d[12]) &&
    CnpjCheckDigit(d[..13]) == DigitVal(d[13])
  }

  /** `validateCNPJ` with the second digit computed over the base and the first check digit. */
  method ValidateCnpjCorrected(cnpj: string) returns (r: ValidationResult)
    ensures r == (if CnpjAccepted(Digits(cnpj)) then CnpjValid else CnpjInvalid)
  {
    var d := Digits(cnpj);
    if |d| != 14 || AllSame(d) {
      return CnpjInvalid;
    }
    CalcWeightsAreCnpjWeights(12);
    CalcWeightsAreCnpjWeights(13);
    assert d[..12][..12] == d[..12] && d[..13][..13] == d[..13];
    var first := CnpjCalc(d[..12], 12);
    if first != Some(DigitVal(d[12])) {
      return CnpjInvalid;
    }
    var second := CnpjCalc(d[..13], 13);
    r := if second != Some(DigitVal(d[13])) then CnpjInvalid else CnpjValid;
  }

  lemma CnpjFirstSumTo4()
    ensures Dot("1122", [5, 4, 3, 2]) == 19
  {
    assert Dot("1", [5]) == 5;
    assert Dot("11", [5, 4]) == 9 by {
      assert "11"[..1] == "1" && [5, 4][..1] == [5];
    }
    assert Dot("112", [5, 4, 3]) == 15 by {
      assert "112"[..2] == "11" && [5, 4, 3][..2] == [5, 4];
    }
    assert Dot("1122", [5, 4, 3, 2]) == 19 by {
      assert "1122"[..3] == "112" && [5, 4, 3, 2][..3] == [5, 4, 3];
    }
  }

  lemma CnpjFirstSumTo8()
    ensures Dot("11222333", [5, 4, 3, 2, 9, 8, 7, 6]) == 100
  {
    CnpjFirstSumTo4();
    assert Dot("11222", [5, 4, 3, 2, 9]) == 37 by {
      assert "11222"[..4] == "1122" && [5, 4, 3, 2, 9][..4] == [5, 4, 3, 2];
    }
    assert Dot("112223", [5, 4, 3, 2, 9, 8]) == 61 by {
      assert "112223"[..5] == "11222" && [5, 4, 3, 2, 9, 8][..5] == [5, 4, 3, 2, 9];
    }
    assert Dot("1122233", [5, 4, 3, 2, 9, 8, 7]) == 82 by {
      assert "1122233"[..6] == "112223" && [5, 4, 3, 2, 9, 8, 7][..6] == [5, 4, 3, 2, 9, 8];
    }
    assert Dot("11222333", [5, 4, 3, 2, 9, 8, 7, 6]) == 100 by {
      assert "11222333"[..7] == "1122233" && [5, 4, 3, 2, 9, 8, 7, 6][..7] == [5, 4, 3, 2, 9, 8, 7];
    }
  }

  /** The weighted sum behind the first check digit of 11.222.333/0001-81. */
  lemma CnpjExampleFirstSum()
    ensures Dot("112223330001", [5, 4, 3, 2, 9, 8, 7, 6, 5, 4, 3, 2]) == 102
  {
    CnpjFirstSumTo8();
    assert Dot("112223330", [5, 4, 3, 2, 9, 8, 7, 6, 5]) == 100 by {
      assert "112223330"[..8] == "11222333" && [5, 4, 3, 2, 9, 8, 7, 6, 5][..8] == [5, 4, 3, 2, 9, 8, 7, 6];
    }
    assert Dot("1122233300", [5, 4, 3, 2, 9, 8, 7, 6, 5, 4]) == 100 by {
      assert "1122233300"[..9] == "112223330" && [5, 4, 3, 2, 9, 8, 7, 6, 5, 4][..9] == [5, 4, 3, 2, 9, 8, 7, 6, 5];
    }
    assert Dot("11222333000", [5, 4, 3, 2, 9, 8, 7, 6, 5, 4, 3]) == 100 by {
      assert "11222333000"[..10] == "1122233300" && [5, 4, 3, 2, 9, 8, 7, 6, 5, 4, 3][..10] == [5, 4, 3, 2, 9, 8, 7, 6, 5, 4];
    }
    assert Dot("112223330001", [5, 4, 3, 2, 9, 8, 7, 6, 5, 4, 3, 2]) == 102 by {
      assert "112223330001"[..11] == "11222333000" && [5, 4, 3, 2, 9, 8, 7, 6, 5, 4, 3, 2][..11] == [5, 4, 3, 2, 9, 8, 7, 6, 5, 4, 3];
    }
  }
  lemma CnpjSecondSumTo4()
    ensures Dot("1122", [6, 5, 4, 3]) == 25
  {
    assert Dot("1", [6]) == 6;
    assert Dot("11", [6, 5]) == 11 by {
      assert "11"[..1] == "1" && [6, 5][..1] == [6];
    }
    assert Dot("112", [6, 5, 4]) == 19 by {
      assert "112"[..2] == "11" && [6, 5, 4][..2] == [6, 5];
    }
    assert Dot("1122", [6, 5, 4, 3]) == 25 by {
      assert "1122"[..3] == "112" && [6, 5, 4, 3][..3] == [6, 5, 4];
    }
  }

  lemma CnpjSecondSumTo8()
    ensures Dot("11222333", [6, 5, 4, 3, 2, 9, 8, 7]) == 101
  {
    CnpjSecondSumTo4();
    assert Dot("11222", [6, 5, 4, 3, 2]) == 29 by {
      assert "11222"[..4] == "1122" && [6, 5, 4, 3, 2][..4] == [6, 5, 4, 3];
    }
    assert Dot("112223", [6, 5, 4, 3, 2, 9]) == 56 by {
      assert "112223"[..5] == "11222" && [6, 5, 4, 3, 2, 9][..5] == [6, 5, 4, 3, 2];
    }
    assert Dot("1122233", [6, 5, 4, 3, 2, 9, 8]) == 80 by {
      assert "1122233"[..6] == "112223" && [6, 5, 4, 3, 2, 9, 8][..6] == [6, 5, 4, 3, 2, 9];
    }
    assert Dot("11222333", [6, 5, 4, 3, 2, 9, 8, 7]) == 101 by {
      assert "11222333"[..7] == "1122233" && [6, 5, 4, 3, 2, 9, 8, 7][..7] == [6, 5, 4, 3, 2, 9, 8];
    }
  }

  lemma CnpjSecondSumTo12()
    ensures Dot("112223330001", [6, 5, 4, 3, 2, 9, 8, 7, 6, 5, 4, 3]) == 104
  {
    CnpjSecondSumTo8();
    assert Dot("112223330", [6, 5, 4, 3, 2, 9, 8, 7, 6]) == 101 by {
      assert "112223330"[..8] == "11222333" && [6, 5, 4, 3, 2, 9, 8, 7, 6][..8] == [6, 5, 4, 3, 2, 9, 8, 7];
    }
    assert Dot("1122233300", [6, 5, 4, 3, 2, 9, 8, 7, 6, 5]) == 101 by {
      assert "1122233300"[..9] == "112223330" && [6, 5, 4, 3, 2, 9, 8, 7, 6, 5][..9] == [6, 5, 4, 3, 2, 9, 8, 7, 6];
    }
    assert Dot("11222333000", [6, 5, 4, 3, 2, 9, 8, 7, 6, 5, 4]) == 101 by {
      assert "11222333000"[..10] == "1122233300" && [6, 5, 4, 3, 2, 9, 8, 7, 6, 5, 4][..10] == [6, 5, 4, 3, 2, 9, 8, 7, 6, 5];
    }
    assert Dot("112223330001", [6, 5, 4, 3, 2, 9, 8, 7, 6, 5, 4, 3]) == 104 by {
      assert "112223330001"[..11] == "11222333000" && [6, 5, 4, 3, 2, 9, 8, 7, 6, 5, 4, 3][..11] == [6, 5, 4, 3, 2, 9, 8, 7, 6, 5, 4];
    }
  }

  /** The weighted sum behind the second check digit of 11.222.333/0001-81. */
  lemma CnpjExampleSecondSum()
    ensures Dot("1122233300018", [6, 5, 4, 3, 2, 9, 8, 7, 6, 5, 4, 3, 2]) == 120
  {
    CnpjSecondSumTo12();
    assert Dot("1122233300018", [6, 5, 4, 3, 2, 9, 8, 7, 6, 5, 4, 3, 2]) == 120 by {
      assert "1122233300018"[..12] == "112223330001" && [6, 5, 4, 3, 2, 9, 8, 7, 6, 5, 4, 3, 2][..12] == [6, 5, 4, 3, 2, 9, 8, 7, 6, 5, 4, 3];
    }
  }
  lemma CnpjWeightsExample()
    ensures CnpjWeights(12) == [5, 4, 3, 2, 9, 8, 7, 6, 5, 4, 3, 2]
    ensures CnpjWeights(13) == [6, 5, 4, 3, 2, 9, 8, 7, 6, 5, 4, 3, 2]
  {
    assert CnpjWeights(12) == [5, 4, 3, 2, 9, 8, 7, 6, 5, 4, 3, 2];
  }

  /** A CNPJ whose check digits are right, which the code as written still rejects. */
  lemma CnpjExample()
    ensures CnpjAccepted("11222333000181")
  {
    var d := "11222333000181";
    assert d[..12] == "112223330001" && d[..13] == "1122233300018";
    CnpjExampleFirstSum();
    CnpjExampleSecondSum();
    CnpjWeightsExample();
    assert !AllSame(d) by {
      assert d[2] != d[0];
    }
  }

  // ----- telephone -----

  datatype PhoneData = PhoneData(ddd: string, number: string, kind: string)
  datatype PhoneResult = PhoneResult(isValid: bool, message: string, data: Option<PhoneData>)

  /** `[1-9]` */
  predicate NonZeroDigit(c: char) {
    '1' <= c <= '9'
  }

  /**
   * `validatePhone`: valid exactly when the input has ten or eleven digits and
   * an area code with no zero; eleven digits make it a mobile number and ten a
   * fixed line, the data splits the digits into area code and number, and it
   * is present exactly when the number is valid.
   */
  function ValidatePhone(phone: string): (r: PhoneResult)
    ensures var d := Digits(phone);
      && (r.isValid <==> (|d| == 10 || |d| == 11) && d[0] != '0' && d[1] != '0')
      && (r.isValid <==> r.data.Some?)
      && (!r.isValid ==> r.message == "Digite um telefone válido com DDD")
      && (r.isValid ==> r.data.value.kind == (if |d| == 11 then "celular" else "telefone fixo"))
      && (r.isValid ==> r.data.value.ddd == d[..2] && r.data.value.number == d[2..])
      && (r.isValid ==> r.message == r.data.value.kind + " válido")
  {
    var clean := Digits(phone);
    var hasDdd := |clean| == 11 || |clean| == 10;
    var isCellphone := |clean| == 11;
    var isValid := hasDdd && NonZeroDigit(clean[0]) && NonZeroDigit(clean[1]);
    if !isValid then
      PhoneResult(false, "Digite um telefone válido com DDD", None)
    else
      var kind := if isCellphone then "celular" else "telefone fixo";
      PhoneResult(true, kind + " válido", Some(PhoneData(clean[..2], clean[2..], kind)))
  }

  /** The area code and the number split the digits: put back together they are the input's digits. */
  lemma PhoneSplitsDigits(phone: string)
    requires ValidatePhone(phone).isValid
    ensures var data := ValidatePhone(phone).data.value;
      && |data.ddd| == 2
      && (|data.number| == 8 || |data.number| == 9)
      && data.ddd + data.number == Digits(phone)
  {
    var d := Digits(phone);
    assert d[..2] + d[2..] == d;
  }

  /** An eleven-digit number with area code 11 is a valid mobile number. */
  lemma PhoneCellExample(phone: string)
    requires phone == "11987654321"
    ensures ValidatePhone(phone) == PhoneResult(true, "celular válido", Some(PhoneData("11", "987654321", "celular")))
  {
    assert AllDigits(phone);
    DigitsOfDigitString(phone);
    assert phone[..2] == "11" && phone[2..] == "987654321";
    assert "celular" + " válido" == "celular válido";
  }

  /** Twelve digits are never a valid telephone. */
  lemma PhoneTooLongExample(phone: string)
    requires phone == "551187654321"
    ensures !ValidatePhone(phone).isValid
  {
    assert AllDigits(phone);
    DigitsOfDigitString(phone);
  }
}
