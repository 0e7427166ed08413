/**
 * The modulo-11 arithmetic shared by the CPF and CNPJ validators: weighted
 * digit sums, the two ways the sources turn a sum into a check digit, and
 * JavaScript's remainder operator.
 */
module CheckDigits {
  import opened Text

  /** `/^(\d)\1{n}$/` on a digit string: every digit repeats the first one. */
  predicate AllSame(d: string) {
    forall i :: 0 <= i < |d| ==> d[i] == d[0]
  }

  /** JavaScript's `a % 11`: the remainder takes the sign of the dividend. */
  function JsRem11(a: int): (r: int)
    ensures -11 < r < 11
    ensures a >= 0 ==> 0 <= r && r == a % 11
    ensures a < 0 ==> r <= 0
    ensures (a - r) % 11 == 0
  {
    if a >= 0 then a % 11 else -((-a) % 11)
  }

  /** The sum of `DigitVal(d[i]) * (top - i)` over the positions of `d`. */
  function WeightedSum(d: string, top: int): (s: int)
    requires AllDigits(d)
    ensures top >= |d| ==> s >= 0
  {
    if d == [] then 0
    else WeightedSum(d[..|d| - 1], top) + Weighted(DigitVal(d[|d| - 1]), top - (|d| - 1))
  }

  /** One digit times its weight. */
  function Weighted(k: int, w: int): (t: int)
    requires 0 <= k
    ensures w >= 0 ==> t >= 0
  {
    k * w
  }

  /** The sum of the weights `top - i` for `i < n`. */
  function WeightTotal(n: nat, top: int): int {
    if n == 0 then 0 else WeightTotal(n - 1, top) + (top - (n - 1))
  }

  /** `(sum * 10) % 11`, with 10 and 11 read as 0 (js/formularios.js). */
  function TimesTenCheck(sum: nat): (k: nat)
    ensures k <= 9
  {
    var r := (sum * 10) % 11;
    if r == 10 || r == 11 then 0 else r
  }

  /** `11 - (sum % 11)`, with 10 and 11 read as 0 (js/script.js). */
  function ElevenMinusCheck(sum: nat): (k: nat)
    ensures k <= 9
  {
    var r := 11 - sum % 11;
    if r == 10 || r == 11 then 0 else r
  }

  /** Both formulas give the same check digit for every sum. */
  lemma CheckFormsAgree(sum: nat)
    ensures TimesTenCheck(sum) == ElevenMinusCheck(sum)
  {
    var q, r := sum / 11, sum % 11;
    assert sum == 11 * q + r;
    if r == 0 {
      assert sum * 10 == 11 * (10 * q);
      assert (sum * 10) % 11 == 0;
    } else {
      assert sum * 10 == 11 * (10 * q + r - 1) + (11 - r);
      assert (sum * 10) % 11 == 11 - r;
    }
  }

  /** A string of one repeated digit has the weighted sum of that digit times the total weight. */
  lemma {:induction false} WeightedSumSame(d: string, top: int)
    requires AllDigits(d) && AllSame(d) && d != []
    ensures WeightedSum(d, top) == DigitVal(d[0]) * WeightTotal(|d|, top)
  {
    var p := d[..|d| - 1];
    if p == [] {
    } else {
      WeightedSumSame(p, top);
      var k := DigitVal(d[0]);
      assert WeightedSum(d, top) == k * WeightTotal(|p|, top) + k * (top - |p|);
    }
  }

  /**
   * Every CPF of one repeated digit has matching check digits, which is why the
   * validators reject those strings before computing the sums.
   */
  lemma RepeatedDigitsPassChecksum(d: string)
    requires |d| == 11 && AllDigits(d) && AllSame(d)
    ensures TimesTenCheck(WeightedSum(d[..9], 10)) == DigitVal(d[9])
    ensures TimesTenCheck(WeightedSum(d[..10], 11)) == DigitVal(d[10])
  {
    RepeatedFirstCheck(d);
    RepeatedSecondCheck(d);
  }

  lemma RepeatedFirstCheck(d: string)
    requires |d| == 11 && AllDigits(d) && AllSame(d)
    ensures TimesTenCheck(WeightedSum(d[..9], 10)) == DigitVal(d[9])
  {
    var k := DigitVal(d[0]);
    assert d[9] == d[0];
    WeightedSumSame(d[..9], 10);
    assert WeightTotal(9, 10) == 54;
    assert WeightedSum(d[..9], 10) * 10 == 11 * (49 * k) + k;
  }

  lemma RepeatedSecondCheck(d: string)
    requires |d| == 11 && AllDigits(d) && AllSame(d)
    ensures TimesTenCheck(WeightedSum(d[..10], 11)) == DigitVal(d[10])
  {
    var k := DigitVal(d[0]);
    assert d[10] == d[0];
    WeightedSumSame(d[..10], 11);
    assert WeightTotal(10, 11) == 65;
    assert WeightedSum(d[..10], 11) * 10 == 11 * (59 * k) + k;
  }
}
