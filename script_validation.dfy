/**
 * The validation utilities of js/script.js: `validateEmail`, `validateCPF` and
 * `validateForm`, which checks the required fields of a form.
 */
module ScriptValidation {
  import opened Wrappers
  import opened Text
  import opened CheckDigits
  import CustomValidations

  // ----- e-mail -----

  /** `[^\s@]` */
  predicate EmailChar(c: char) {
    !IsSpace(c) && c != '@'
  }

  /** `[^\s@]+` */
  predicate EmailRun(s: string) {
    s != [] && forall i :: 0 <= i < |s| ==> EmailChar(s[i])
  }

  /** The strings `/^[^\s@]+@[^\s@]+\.[^\s@]+$/` matches: three runs joined by '@' and '.'. */
  ghost predicate EmailPattern(e: string) {
    exists a, b, c :: EmailRun(a) && EmailRun(b) && EmailRun(c) && e == a + "@" + b + "." + c
  }

  /**
   * `validateEmail`: no white space, one '@' with something before it, and a
   * '.' after the character following the '@' with something after it.
   */
  function ValidateEmail(email: string): bool {
    exists at, dot | 0 <= at < |email| && 0 <= dot < |email| :: EmailAt(email, at, dot)
  }

  /** The only '@' is at `at`, a '.' at `dot` further on, and no white space anywhere. */
  predicate EmailAt(email: string, at: int, dot: int) {
    0 < at < dot < |email| - 1 && at + 1 < dot && email[at] == '@' && email[dot] == '.' &&
    forall k :: 0 <= k < |email| ==> !IsSpace(email[k]) && (email[k] == '@' ==> k == at)
  }

  lemma EmailSplits(email: string)
    requires ValidateEmail(email)
    ensures EmailPattern(email)
  {
    var at, dot :| 0 <= at < |email| && 0 <= dot < |email| && EmailAt(email, at, dot);
    assert 0 < at < dot < |email| - 1 && at + 1 < dot;
    var a, b, c := email[..at], email[at + 1..dot], email[dot + 1..];
    assert EmailRun(a) by {
      forall i | 0 <= i < |a| ensures EmailChar(a[i]) {
        assert a[i] == email[i];
      }
    }
    assert EmailRun(b) by {
      forall i | 0 <= i < |b| ensures EmailChar(b[i]) {
        assert b[i] == email[at + 1 + i];
      }
    }
    assert EmailRun(c) by {
      forall i | 0 <= i < |c| ensures EmailChar(c[i]) {
        assert c[i] == email[dot + 1 + i];
      }
    }
    assert email == a + "@" + b + "." + c;
  }

  lemma EmailJoins(a: string, b: string, c: string)
    requires EmailRun(a) && EmailRun(b) && EmailRun(c)
    ensures ValidateEmail(a + "@" + b + "." + c)
  {
    var email := a + "@" + b + "." + c;
    var at, dot := |a|, |a| + 1 + |b|;
    forall k | 0 <= k < |email|
      ensures !IsSpace(email[k]) && (email[k] == '@' ==> k == at)
    {
      if k < at {
        assert email[k] == a[k];
      } else if at < k < dot {
        assert email[k] == b[k - at - 1];
      } else if dot < k {
        assert email[k] == c[k - dot - 1];
      }
    }
    assert email[at] == '@' && email[dot] == '.';
    assert EmailAt(email, at, dot);
  }

  /** `validateEmail` accepts exactly the strings its regular expression describes. */
  lemma ValidateEmailMatchesPattern(email: string)
    ensures ValidateEmail(email) <==> EmailPattern(email)
  {
    if ValidateEmail(email) {
      EmailSplits(email);
    }
    if EmailPattern(email) {
      var a, b, c :| EmailRun(a) && EmailRun(b) && EmailRun(c) && email == a + "@" + b + "." + c;
      EmailJoins(a, b, c);
    }
  }

  // ----- CPF -----

  /**
   * A CPF as `validateCPF` of js/script.js accepts it: eleven digits, not all
   * the same, and both check digits equal to `11 - (sum % 11)` (10 and 11 read
   * as 0) of the weighted sums of the digits before them.
   */
  predicate CpfAccepted(d: string)
    requires AllDigits(d)
  {
    |d| == 11 && !AllSame(d) &&
    ElevenMinusCheck(WeightedSum(d[..9], 10)) == DigitVal(d[9]) &&
    ElevenMinusCheck(WeightedSum(d[..10], 11)) == DigitVal(d[10])
  }

  /**
   * The loops of `validateCPF`: for `i` below `n`, the digit at `i` times
   * `top - i` (`10 - i` for the first check digit, `11 - i` for the second).
   */
  method CpfSum(d: string, n: nat, top: int) returns (soma: int)
    requires AllDigits(d) && n <= |d|
    ensures soma == WeightedSum(d[..n], top)
  {
    soma := 0;
    for i := 0 to n
      invariant soma == WeightedSum(d[..i], top)
    {
      assert d[..i + 1][..i] == d[..i];
      soma := soma + DigitVal(d[i]) * (top - i);
    }
  }

  /** `validateCPF` */
  method ValidateCpf(cpf: string) returns (ok: bool)
    ensures ok == CpfAccepted(Digits(cpf))
  {
    var d := Digits(cpf);
    if |d| != 11 || AllSame(d) {
      return false;
    }
    var soma := CpfSum(d, 9, 10);
    var resto := 11 - (soma % 11);
    if resto == 10 || resto == 11 {
      resto := 0;
    }
    assert resto == ElevenMinusCheck(WeightedSum(d[..9], 10));
    if resto != DigitVal(d[9]) {
      return false;
    }
    soma := CpfSum(d, 10, 11);
    resto := 11 - (soma % 11);
    if resto == 10 || resto == 11 {
      resto := 0;
    }
    assert resto == ElevenMinusCheck(WeightedSum(d[..10], 11));
    if resto != DigitVal(d[10]) {
      return false;
    }
    return true;
  }

  /** The CPF checks of js/script.js and js/formularios.js accept the same strings. */
  lemma CpfValidatorsAgree(cpf: string)
    ensures CpfAccepted(Digits(cpf)) == CustomValidations.CpfAccepted(Digits(cpf))
  {
    var d := Digits(cpf);
    if |d| == 11 {
      CheckFormsAgree(WeightedSum(d[..9], 10));
      CheckFormsAgree(WeightedSum(d[..10], 11));
    }
  }

  // ----- form -----

  /** A form control: its value, `required`, `type` and `data-validation` (absent is `None`). */
  datatype Field = Field(value: string, required: bool, inputType: string, validation: Option<string>)

  /** A `showFieldError` call: the position of the field in the form and the message. */
  datatype FieldError = FieldError(field: nat, message: string)

  const RequiredMessage := "Este campo é obrigatório"
  const EmailMessage := "Por favor, insira um e-mail válido"
  const CpfMessage := "CPF/CNPJ inválido"

  /** The messages `validateForm` shows for the required field at position `i`, in order. */
  function FieldErrors(i: nat, f: Field): seq<FieldError> {
    if Trim(f.value) == [] then [FieldError(i, RequiredMessage)]
    else
      Report(i, f.inputType == "email" && !ValidateEmail(f.value), EmailMessage) +
      Report(i, f.validation == Some("cpf") && !CpfAccepted(Digits(f.value)), CpfMessage)
  }

  /** The message for the field at position `i` when its check failed. */
  function Report(i: nat, failed: bool, message: string): (r: seq<FieldError>)
    ensures forall e :: e in r ==> e.field == i
  {
    if failed then [FieldError(i, message)] else []
  }

  /** The messages for a whole form: the required fields in document order. */
  function FormErrors(form: seq<Field>): seq<FieldError> {
    if form == [] then []
    else
      var n := |form| - 1;
      FormErrors(form[..n]) + (if form[n].required then FieldErrors(n, form[n]) else [])
  }

  /** One required field passes: it is not blank, and it meets its e-mail and CPF checks. */
  predicate FieldPasses(f: Field) {
    !IsBlank(f.value) &&
    (f.inputType == "email" ==> ValidateEmail(f.value)) &&
    (f.validation == Some("cpf") ==> CpfAccepted(Digits(f.value)))
  }

  /** Every required field of the form passes. */
  predicate FormPasses(form: seq<Field>) {
    if form == [] then true
    else
      var n := |form| - 1;
      FormPasses(form[..n]) && (form[n].required ==> FieldPasses(form[n]))
  }

  lemma {:induction false} FormPassesIff(form: seq<Field>)
    ensures FormPasses(form) <==> forall j :: 0 <= j < |form| && form[j].required ==> FieldPasses(form[j])
  {
    if form != [] {
      var n := |form| - 1;
      FormPassesIff(form[..n]);
      assert forall j :: 0 <= j < n ==> form[..n][j] == form[j];
    }
  }

  /** The `forEach` callback of `validateForm` for the required field at position `i`. */
  method CheckField(i: nat, field: Field) returns (passes: bool, shown: seq<FieldError>)
    ensures shown == FieldErrors(i, field)
    ensures passes <==> FieldPasses(field)
  {
    var blank := Trim(field.value) == [];
    TrimEmptyIffBlank(field.value);
    if blank {
      return false, [FieldError(i, RequiredMessage)];
    }
    var emailOk := ValidateEmail(field.value);
    var emailShown := Report(i, field.inputType == "email" && !emailOk, EmailMessage);
    var cpfShown := [];
    if field.validation == Some("cpf") {
      var ok := ValidateCpf(field.value);
      cpfShown := Report(i, !ok, CpfMessage);
    }
    shown := emailShown + cpfShown;
    passes := shown == [];
  }

  /**
   * `validateForm`: every required field is checked, the failures are reported
   * through `showFieldError`, and the form is valid when no check failed.
   */
  method ValidateForm(form: seq<Field>) returns (isValid: bool, errors: seq<FieldError>)
    ensures errors == FormErrors(form)
    ensures isValid <==> forall i :: 0 <= i < |form| && form[i].required ==> FieldPasses(form[i])
  {
    isValid := true;
    errors := [];
    for i := 0 to |form|
      invariant errors == FormErrors(form[..i])
      invariant isValid == FormPasses(form[..i])
    {
      assert form[..i + 1][..i] == form[..i];
      if form[i].required {
        var passes, shown := CheckField(i, form[i]);
        errors := errors + shown;
        isValid := isValid && passes;
      }
    }
    assert form[..|form|] == form;
    FormPassesIff(form);
  }

  /** A required field passes exactly when `validateForm` shows no message for it. */
  lemma FieldPassesIffNoErrors(i: nat, f: Field)
    ensures FieldPasses(f) <==> FieldErrors(i, f) == []
  {
    TrimEmptyIffBlank(f.value);
  }

  lemma FieldErrorsAt(i: nat, f: Field)
    ensures forall e :: e in FieldErrors(i, f) ==> e.field == i
  {
    if Trim(f.value) != [] {
      var email := Report(i, f.inputType == "email" && !ValidateEmail(f.value), EmailMessage);
      var cpf := Report(i, f.validation == Some("cpf") && !CpfAccepted(Digits(f.value)), CpfMessage);
      assert FieldErrors(i, f) == email + cpf;
    }
  }

  /** Every message names a required field of the form. */
  lemma {:induction false} ErrorsNameRequiredFields(form: seq<Field>)
    ensures forall e :: e in FormErrors(form) ==> e.field < |form| && form[e.field].required
  {
    if form != [] {
      var n := |form| - 1;
      var init := form[..n];
      ErrorsNameRequiredFields(init);
      var last := if form[n].required then FieldErrors(n, form[n]) else [];
      FieldErrorsAt(n, form[n]);
      assert FormErrors(form) == FormErrors(init) + last;
      forall e | e in FormErrors(form)
        ensures e.field < |form| && form[e.field].required
      {
        if e in FormErrors(init) {
          assert init[e.field] == form[e.field];
        } else {
          assert e in last;
        }
      }
    }
  }
}
