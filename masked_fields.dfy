/**
 * The masks of js/script.js rewrite a field while it is typed; the validators
 * read only the digits of the field, so a masked value is judged exactly as
 * the digits typed into it.
 */
module MaskedFields {
  import opened Text
  import FormMasks
  import ScriptValidation
  import CustomValidations

  /** A CPF field validates the same before and after the CPF/CNPJ mask. */
  lemma CpfCheckIgnoresMask(raw: string)
    ensures ScriptValidation.CpfAccepted(Digits(FormMasks.CpfCnpjMask(raw))) ==
            ScriptValidation.CpfAccepted(Digits(raw))
  {
    FormMasks.CpfCnpjMaskKeepsDigits(raw);
  }

  /** A telephone validates the same before and after the phone mask. */
  lemma PhoneCheckIgnoresMask(raw: string)
    ensures CustomValidations.ValidatePhone(FormMasks.PhoneMask(raw)) == CustomValidations.ValidatePhone(raw)
  {
    FormMasks.PhoneMaskKeepsDigits(raw);
  }
}
