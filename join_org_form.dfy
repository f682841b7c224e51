/**
 * The join-by-invitation form: a code field that keeps at most six digits,
 * validated into a field-keyed error record before submission.
 */
module JoinOrgForm {
  import opened Wrappers
  import opened Text

  const CodeKey := "invitationCode"
  const CodeRequired := "Invitation code is required"
  const CodeInvalid := "Invitation code must be 6 digits"

  /** The length of an invitation code. */
  const CodeLength := 6

  /** `/^\d{6}$/`. */
  predicate IsSixDigits(s: string) {
    |s| == CodeLength && AllDigits(s)
  }

  /** The code field's sanitiser: the first six digits of the text, in their order (see
      `KeepDigitsChar` and `KeepDigitsAppend`). */
  function SanitizeCode(value: string): (r: string)
    ensures AllDigits(r)
    ensures |r| == if |KeepDigits(value)| <= CodeLength then |KeepDigits(value)| else CodeLength
    ensures r == KeepDigits(value)[..|r|]
  {
    TakeAllDigits(KeepDigits(value), CodeLength);
    Take(KeepDigits(value), CodeLength)
  }

  /** Sanitising twice is sanitising once, and a clean code is left as it is. */
  lemma SanitizeCodeIdempotent(value: string)
    ensures SanitizeCode(SanitizeCode(value)) == SanitizeCode(value)
    ensures AllDigits(value) && |value| <= CodeLength ==> SanitizeCode(value) == value
  {
  }

  /** The code rule: blank after trimming is missing; otherwise the trimmed code must be
      exactly six digits. */
  function CodeError(code: string): (r: Option<string>)
    ensures r.None? <==> IsSixDigits(Trim(code))
    ensures r == Some(CodeRequired) <==> IsBlank(code)
    ensures r.Some? && !IsBlank(code) ==> r == Some(CodeInvalid)
  {
    if IsBlank(code) then Some(CodeRequired)
    else if !IsSixDigits(Trim(code)) then Some(CodeInvalid)
    else None
  }

  /** `validateForm`'s error record: the code's message under "invitationCode", or nothing. */
  function Validate(code: string): (errors: map<string, string>)
    ensures CodeKey in errors <==> CodeError(code).Some?
    ensures CodeKey in errors ==> errors[CodeKey] == CodeError(code).value
    ensures errors.Keys <= {CodeKey}
    ensures |errors| == 0 <==> CodeError(code).None?
  {
    if CodeError(code).Some? then map[CodeKey := CodeError(code).value]
    else map[]
  }

  /** The checks of `validateForm`, in order, recording at most one message. */
  method BuildRecord(code: string) returns (record: map<string, string>)
    ensures record == Validate(code)
  {
    record := map[];
    if IsBlank(code) {
      record := record[CodeKey := CodeRequired];
    } else if !IsSixDigits(Trim(code)) {
      record := record[CodeKey := CodeInvalid];
    }
  }

  /** The submit button's `disabled` rule. */
  predicate SubmitDisabled(code: string, loading: bool) {
    |code| != CodeLength || loading
  }

  /** A string of digits is its own `trim`. */
  lemma DigitsAreTrimmed(code: string)
    requires AllDigits(code)
    ensures Trim(code) == code
  {
    assert NoWhitespace(code) by {
      forall i | 0 <= i < |code| ensures !IsWhitespace(code[i]) {
        assert IsDigit(code[i]);
      }
    }
    TrimNoWhitespace(code);
  }

  /** For any code the field can hold (digits only, as the sanitiser leaves it), the button
      and the rule agree: the button is enabled while not loading exactly when the code
      validates. */
  lemma ButtonAgreesWithRule(code: string)
    requires AllDigits(code)
    ensures !SubmitDisabled(code, false) <==> CodeError(code).None?
  {
    DigitsAreTrimmed(code);
  }

  class JoinOrganizationForm {
    /** `formData.invitationCode`. */
    var invitationCode: string
    /** `formErrors`. */
    var errors: map<string, string>

    ghost predicate Valid()
      reads this
    {
      AllDigits(invitationCode) && |invitationCode| <= CodeLength && errors.Keys <= {CodeKey}
    }

    constructor ()
      ensures Valid() && invitationCode == "" && errors == map[]
    {
      invitationCode := "";
      errors := map[];
    }

    /** `handleInvitationCodeChange`: stores the sanitised text. */
    method HandleInvitationCodeChange(value: string)
      requires Valid()
      modifies this
      ensures Valid() && errors == old(errors)
      ensures invitationCode == SanitizeCode(value)
    {
      invitationCode := SanitizeCode(value);
    }

    /** `validateForm`: stores the error record and says whether it is empty. */
    method ValidateForm() returns (ok: bool)
      requires Valid()
      modifies this
      ensures Valid() && invitationCode == old(invitationCode)
      ensures errors == Validate(invitationCode)
      ensures ok <==> CodeError(invitationCode).None?
    {
      var code := invitationCode;
      var record := BuildRecord(code);
      errors := record;
      ok := |record| == 0;
    }

    /** `handleSubmit`: the form data is handed on unchanged, and only when valid. */
    method HandleSubmit() returns (submitted: Option<string>)
      requires Valid()
      modifies this
      ensures Valid() && invitationCode == old(invitationCode)
      ensures errors == Validate(invitationCode)
      ensures submitted.Some? <==> CodeError(invitationCode).None?
      ensures submitted.Some? ==> submitted.value == invitationCode && IsSixDigits(invitationCode)
    {
      var ok := ValidateForm();
      if !ok {
        return None;
      }
      DigitsAreTrimmed(invitationCode);
      submitted := Some(invitationCode);
    }
  }
}
