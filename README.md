# Input masks and identifier validation of Instituto Horizonte Global

The site of Instituto Horizonte Global checks and formats what visitors type
into its forms. Two scripts do this work, and this project models it in Dafny:

- `js/formularios.js`. The `CustomValidations` manager validates CPF, CNPJ and
  telephone numbers, masks currency, date and percentage fields, and scores
  password strength.
- `js/script.js`. Its utilities validate e-mail addresses and CPFs, mask
  telephone, CPF/CNPJ and CEP fields while they are typed, and check the
  required fields of a form before it is submitted.

The model has these modules:

- `Text`: how the scripts see characters and digit strings. It covers `\d`,
  `\s`, stripping non-digits, `trim()`, `Number(...)` and `String(n)`.
- `Regex`: the single, non-global `String.replace` with patterns made of `\d`
  and literal characters. Most mask steps use it. The exceptions are the CPF
  step `/(\d{3})(\d{1,2})$/`, modelled by `FormMasks.EndDash`, and the
  currency steps `replace('.', ',')` and the global lookahead replace, modelled
  by `CustomMasks.ReplaceFirst` and `CustomMasks.ThousandsSeparators`.
- `FormMasks`: the three masks of `initFormMasks` in `js/script.js`.
- `CustomMasks`: the currency, date and percentage masks of `js/formularios.js`.
- `CheckDigits`: the modulo-11 arithmetic shared by the CPF and CNPJ checks.
- `CustomValidations`: `validateCPF`, `validateCNPJ` (with its `calc` closure)
  and `validatePhone` of `js/formularios.js`.
- `PasswordStrength`: `checkPasswordStrength` of `js/formularios.js`.
- `ScriptValidation`: `validateEmail`, `validateCPF` and `validateForm` of
  `js/script.js`.
- `MaskedFields`: the masks and the validators together. The validators read
  only digits, so a masked value is judged like the digits typed into it.

Each mask is a function from the field's current text to the text written back.
It is modelled step by step, one regular-expression replace at a time. Lemmas
then state the resulting layout for every digit count, that the digits are
kept, and that masking the mask's own output changes nothing.

The code is modelled in the form it has:

- The checksum loops, the password scoring and the form loop are methods with
  loops. Each is proved against a specification function.
- `calc` yields `NaN` once it reads past the end of its base. The model returns
  `None` for that case.

Where the usual description of these validators differs from the code, the
model follows the code:

- `validateCNPJ` accepts no input at all (see Findings).
- `validatePhone` requires both area-code digits to be non-zero (`/^[1-9]{2}/`),
  not only the first.
- `checkPasswordStrength` always computes the hints for unmet criteria, whatever
  the score.
- `validateForm` checks a `data-validation="cpf"` field with `validateCPF`,
  which rejects every 14-digit CNPJ, although the message it shows is
  "CPF/CNPJ inválido".

## Model

| member | source | states |
|---|---|---|
| `Text.DigitsIdempotent` | js/formularios.js:133 | stripping non-digits twice gives the same as stripping once (the same stripping is at js/script.js:813) |
| `Text.TrimEmptyIffBlank` | js/script.js:495 | `value.trim()` is empty exactly when the value holds only white space |
| `Regex.ReplaceAt` | js/script.js:373-374 | a non-global `replace` rewrites the leftmost match only: text inserted before the match and after its first group, the rest unchanged |
| `Regex.ReplaceNone` | js/script.js:373-374 | with no match, `replace` leaves the string unchanged |
| `FormMasks.PhoneMaskShape` | js/script.js:369-379 | the telephone mask writes the digits, then `(dd) ddddd…`, then `(dd) ddddd-…`, depending on the digit count; more than 11 digits leave the field untouched |
| `FormMasks.PhoneMaskKeepsDigits` | js/script.js:371-376 | the masked telephone holds exactly the digits typed (above 11 digits the field is left as typed) |
| `FormMasks.PhoneMaskIdempotent` | js/script.js:369-379 | masking the telephone mask's own output changes nothing |
| `FormMasks.CpfLayoutShape` | js/script.js:384-388 | up to 11 digits, the CPF layout ddd.ddd.ddd-dd is built progressively; the '-' appears from the 10th digit |
| `FormMasks.CnpjLayoutShape` | js/script.js:389-394 | from 12 digits, the CNPJ layout dd.ddd.ddd/dddd-dd; the '-' appears from the 13th digit |
| `FormMasks.CpfCnpjMaskKeepsDigits` | js/script.js:381-398 | the CPF/CNPJ mask never adds, drops or reorders a digit |
| `FormMasks.CpfCnpjMaskIdempotent` | js/script.js:381-398 | masking the CPF/CNPJ mask's own output changes nothing |
| `FormMasks.CepMaskShape` | js/script.js:400-410 | the CEP mask writes up to five digits as typed, otherwise ddddd-ddd from the first eight digits |
| `FormMasks.CepMaskProperties` | js/script.js:403-407 | the CEP is at most 9 characters; a '-' sits at index 5 exactly when six or more digits were typed; the first eight digits are kept |
| `FormMasks.CepMaskIdempotent` | js/script.js:400-410 | masking the CEP mask's own output changes nothing |
| `CustomMasks.DateMaskShape` | js/formularios.js:97-111 | the two replacements and the cut to 10 characters write dd, dd/dd or dd/dd/dddd from the digits, keeping at most eight |
| `CustomMasks.DateLayoutProperties` | js/formularios.js:101-108 | that layout is at most 10 characters and keeps the first eight digits; '/' sits at index 2 from the third digit and at index 5 from the fifth |
| `CustomMasks.DateMaskProperties` | js/formularios.js:97-111 | the date is at most 10 characters and keeps the first eight digits; '/' sits at index 2 from the third digit and at index 5 from the fifth |
| `CustomMasks.DateMaskIdempotent` | js/formularios.js:97-111 | masking the date mask's own output changes nothing |
| `CustomMasks.DateOfEightDigits` | js/formularios.js:101-108 | an input with eight digits or more becomes DD/MM/YYYY of its first eight digits; the rest is cut off |
| `CustomMasks.PercentageMaskShape` | js/formularios.js:121-129 | no digits give an empty field; otherwise the first three digits at most, followed by '%' |
| `CustomMasks.PercentageMaskIdempotent` | js/formularios.js:121-129 | masking the percentage mask's own output changes nothing |
| `CustomMasks.Cents` | js/formularios.js:78 | the two decimals of `toFixed(2)` are the two digits of the amount modulo 100 |
| `CustomMasks.ReplaceFirstAfter` | js/formularios.js:79 | `replace('.', ',')` turns the decimal point of the fixed amount into ',' |
| `CustomMasks.TriplesThenCommaIff` | js/formularios.js:80 | the lookahead `(?=(\d{3})+,)` holds before a run of digits and ',' exactly when the run's length is a positive multiple of three |
| `CustomMasks.SeparatorsOnAmount` | js/formularios.js:80 | the global replace inserts '.' after every whole-part digit the lookahead selects and leaves the cents alone |
| `CustomMasks.DottedIsGrouped` | js/formularios.js:80 | those '.'s split the whole part into groups of three counted from the right |
| `CustomMasks.GroupedDigits` | js/formularios.js:80 | grouping by '.' keeps the digits of the whole part |
| `CustomMasks.AmountFormat` | js/formularios.js:77-80 | `toFixed(2)`, the ',' and the grouping together give the grouped whole part, ',' and two cent digits |
| `CustomMasks.AmountValue` | js/formularios.js:77-80 | the digits of the formatted amount, read as cents, are the amount itself |
| `CustomMasks.CurrencyMaskShape` | js/formularios.js:76-87 | no digits or a zero amount clear the field; any other amount is written as 'R$ ' and the formatted amount |
| `CustomMasks.CurrencyMaskKeepsAmount` | js/formularios.js:76-87 | the digits written, read as cents, are the amount typed |
| `CustomMasks.CurrencyMaskIdempotent` | js/formularios.js:76-87 | masking the currency mask's own output changes nothing |
| `CustomMasks.CurrencyMaskExample` | js/formularios.js:76-87 | any input whose digits read 1000 cents is written 'R$ 10,00' |
| `CheckDigits.JsRem11` | js/formularios.js:190 | JavaScript's `% 11` has the sign of the dividend, is below 11 in size, and differs from the dividend by a multiple of 11 |
| `CheckDigits.CheckFormsAgree` | js/formularios.js:147-148 | `(sum * 10) % 11` and `11 - sum % 11`, with 10 and 11 read as 0, give the same digit for every sum (the second form is the one at js/script.js:821-822) |
| `CheckDigits.RepeatedDigitsPassChecksum` | js/formularios.js:135 | every CPF of one repeated digit passes both checksum tests, which is why the validators reject such strings first |
| `CustomValidations.CpfSum` | js/formularios.js:143-145 | each of the two loops of `validateCPF` yields the weighted sum of the digits before the check digit, weights counting down to 2 |
| `CustomValidations.ValidateCpf` | js/formularios.js:132-165 | the result is 'CPF válido' exactly when the digits number eleven, are not all equal, and both check digits match their weighted sums; otherwise 'CPF inválido' |
| `CustomValidations.RepeatedDigitCpfRejected` | js/formularios.js:135-137 | a repeated-digit CPF is rejected although its check digits match |
| `CustomValidations.CpfExamples` | js/formularios.js:132-165 | "52998224725" is a valid CPF; "52998224726" is not |
| `CustomValidations.FactorIsCnpjWeight` | js/formularios.js:181-187 | for bases of 9 to 16 digits, `calc`'s factor runs through 2 + ((x − 1 − k) mod 8), the CNPJ weights |
| `CustomValidations.CalcWeightsAreCnpjWeights` | js/formularios.js:179-188 | `calc(x)` weighs the base exactly as the CNPJ rules do, for x from 9 to 16 |
| `CustomValidations.Mod11Digit` | js/formularios.js:190-191 | the result digit is between 0 and 9, and 0 exactly when the sum leaves remainder 0 or 1 |
| `CustomValidations.CnpjCalc` | js/formularios.js:179-192 | `calc(x)` is `NaN` when x exceeds the base length; otherwise it is the modulo-11 digit of the base's first x digits under `calc`'s weights |
| `CustomValidations.ValidateCnpj` | js/formularios.js:168-201 | as written, every input gets 'CNPJ inválido' |
| `CustomValidations.ValidateCnpjCorrected` | js/formularios.js:168-201 | with the second digit computed over 13 digits, the result is 'CNPJ válido' exactly when the digits number fourteen, are not all equal, and both check digits are right |
| `CustomValidations.CnpjExample` | js/formularios.js:193-198 | "11222333000181" has correct check digits |
| `CustomValidations.ValidatePhone` | js/formularios.js:204-227 | a telephone is valid exactly when it has 10 or 11 digits and both area-code digits are non-zero; the data is present exactly when valid; eleven digits make it 'celular', otherwise 'telefone fixo', the area code is the first two digits and the number the rest, and the message names the kind |
| `CustomValidations.PhoneSplitsDigits` | js/formularios.js:219-223 | the two-digit area code followed by the 8- or 9-digit number are the digits typed |
| `CustomValidations.PhoneCellExample` | js/formularios.js:204-227 | "11987654321" is a valid mobile number with area code 11 |
| `CustomValidations.PhoneTooLongExample` | js/formularios.js:206-214 | "551187654321" (12 digits) is invalid |
| `PasswordStrength.CheckPasswordStrength` | js/formularios.js:290-327 | an empty password scores 0 with no hints; otherwise the score counts the checks met, plus one each from 12 and 16 characters, capped at 5, and the hints name the failed checks in order |
| `PasswordStrength.NonEmptyScoresAtLeastOne` | js/formularios.js:298-318 | every non-empty password scores between 1 and 5: each character is a lowercase letter, an uppercase letter, a digit or a symbol |
| `PasswordStrength.MessagesNameFailedChecks` | js/formularios.js:321-325 | there is one hint per failed check, and each check's hint is present exactly when that check fails |
| `PasswordStrength.AllChecksScoreFive` | js/formularios.js:309-318 | with no hint left, the score is 5 whatever the length |
| `PasswordStrength.WeakScoreExample` | js/formularios.js:298-318 | "abc" scores 1 |
| `PasswordStrength.StrongScoreExample` | js/formularios.js:298-318 | "Abcdefgh1!" scores 5 |
| `ScriptValidation.ValidateEmailMatchesPattern` | js/script.js:807-810 | `validateEmail` accepts exactly the strings of `/^[^\s@]+@[^\s@]+\.[^\s@]+$/`: three non-empty runs without white space or '@', joined by '@' and '.' |
| `ScriptValidation.CpfSum` | js/script.js:817-819 | each of the two loops of `validateCPF` yields the weighted sum of the digits before the check digit, weights counting down to 2 |
| `ScriptValidation.ValidateCpf` | js/script.js:812-835 | true exactly when the digits number eleven, are not all equal, and both check digits match `11 - sum % 11` |
| `ScriptValidation.CpfValidatorsAgree` | js/script.js:812-835 | the CPF checks of the two scripts accept the same inputs |
| `ScriptValidation.CheckField` | js/script.js:494-511 | a required field shows the required-field message when blank; otherwise the e-mail message and then the CPF message, each when its check applies and fails; the field passes when nothing is shown |
| `ScriptValidation.ValidateForm` | js/script.js:490-515 | the form is valid exactly when every required field is non-blank and passes its e-mail and CPF checks; the messages shown are those of the required fields in document order |
| `ScriptValidation.FieldPassesIffNoErrors` | js/script.js:494-511 | a required field passes exactly when no message is shown for it |
| `ScriptValidation.ErrorsNameRequiredFields` | js/script.js:492-494 | every message shown belongs to a required field of the form |
| `MaskedFields.CpfCheckIgnoresMask` | js/script.js:381-398 | a CPF field gets the same verdict before and after the CPF/CNPJ mask |
| `MaskedFields.PhoneCheckIgnoresMask` | js/script.js:369-379 | a telephone gets the same verdict before and after the telephone mask |

## Left out

- `CustomMasks.CurrencyMask`: requires fewer than 10^15 cents. Below that bound the cent count is held exactly as a double; `value / 100` is rounded, but `toFixed(2)` of it prints the exact two-decimal amount. Larger inputs are not modelled: there `toFixed(2)` can print a rounded amount, and from an amount of 10^21 (10^23 cents) it switches to exponent notation.
- `PasswordStrength.CheckPasswordStrength`: measures length in characters. JavaScript measures `password.length` in UTF-16 code units, so the two differ for characters outside the Basic Multilingual Plane.
- The DOM is represented by values:
  - each handler is the function from the field's text to the text written back;
  - `updatePasswordStrengthMeter` receives the returned score and hints;
  - `showFieldError` calls are the returned list of messages. A later call for the same field replaces the earlier message on the page, and that replacement is not modelled;
  - `clearFieldError`, the styling and the event listeners are not modelled.
- A form is the sequence of its fields in document order, with the `required`, `type` and `data-validation` attributes. `querySelectorAll('[required]')` is the filter on `required`.
- `lookupCEP`: network I/O, not modelled.
- The CEP field's blur handler in `initFormMasks` (js/script.js:413-418), which calls `fetchCEP` once eight digits are present: network I/O, not modelled.
- `validateSingleFile` and `createDateValidator`: not modelled. They depend on file objects, `Date`, and helper methods that the manager calls but does not define (`formatFileSize`, `showFieldError`, `validateField`, `initValidators`).
- The debounce and throttle timers, `destroy`, the `AbortController` polyfill (js/formularios.js:550-567), the newsletter and submit handlers, and the loading overlay: timers and DOM only, not modelled.
- js/main.js, js/graficos.js and js/nanobanana-assistant.js are not part of this model.
- No lemma states that changing any single digit of a valid CNPJ invalidates it. Only the example CNPJ's check digits are proved.

## Findings

| source | as written | input that shows it | evidently intended | confidence | as-written member | corrected member |
|---|---|---|---|---|---|---|
| js/formularios.js:195-196 | `calc(13)` sums over `numbers`, the 12-digit base. Its last round reads `slice[12]`, which is `undefined`, so the sum is `NaN` and no CNPJ is ever valid | "11222333000181": its check digits 8 and 1 are correct, yet it gets 'CNPJ inválido' | compute the second digit over the base followed by the first check digit (13 digits) | high; not executed | `CustomValidations.ValidateCnpj` | `CustomValidations.ValidateCnpjCorrected` |
