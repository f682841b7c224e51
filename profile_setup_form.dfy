/**
 * The second sign-up step: the user's full name and an optional phone number,
 * validated field by field before the cleaned-up data is handed on.
 */
module ProfileSetupForm {
  import opened Wrappers
  import opened Text
  import PhoneInput

  const NameRequired := "Full name is required"
  const NameTooShort := "Full name must be at least 2 characters"
  const PhoneInvalid := "Please enter a valid phone number"

  /** The phone pattern with `k` country digits and a last group of `last` digits:
      '+', k digits, whitespace, 3 digits, whitespace, 3 digits, whitespace, `last` digits. */
  predicate PhoneShape(p: string, k: nat, last: nat) {
    && |p| == k + 10 + last
    && p[0] == '+'
    && AllDigits(p[1..k + 1])
    && IsWhitespace(p[k + 1])
    && AllDigits(p[k + 2..k + 5])
    && IsWhitespace(p[k + 5])
    && AllDigits(p[k + 6..k + 9])
    && IsWhitespace(p[k + 9])
    && AllDigits(p[k + 10..])
  }

  /** `/^\+\d{1,3}\s\d{3}\s\d{3}\s\d{3}$/`, as the form checks it. */
  predicate ValidPhone(p: string) {
    exists k | 1 <= k <= 3 :: PhoneShape(p, k, 3)
  }

  /** The same pattern with a last group of 3 or 4 digits, which also accepts the 3-3-4
      numbers the phone field produces for US and CA. */
  predicate ValidPhoneCorrected(p: string) {
    exists k, last | 1 <= k <= 3 && 3 <= last <= 4 :: PhoneShape(p, k, last)
  }

  /** The full-name rule: the trimmed name must be at least 2 UTF-16 code units long, as
      `length` counts them. */
  function NameError(name: string): (r: Option<string>)
    ensures r.None? <==> Utf16Length(Trim(name)) >= 2
    ensures r == Some(NameRequired) <==> IsBlank(name)
    ensures r.Some? && !IsBlank(name) ==> r == Some(NameTooShort)
  {
    if IsBlank(name) then Some(NameRequired)
    else if Utf16Length(Trim(name)) < 2 then Some(NameTooShort)
    else None
  }

  /** The phone rule: only a non-blank phone is checked, in its trimmed form. */
  function PhoneError(phone: string): (r: Option<string>)
    ensures r.None? <==> IsBlank(phone) || ValidPhone(Trim(phone))
    ensures r.Some? ==> r == Some(PhoneInvalid)
  {
    if phone != "" && !IsBlank(phone) && !ValidPhone(Trim(phone)) then Some(PhoneInvalid) else None
  }

  /** The form's error record: one optional message per field. */
  datatype Errors = Errors(fullName: Option<string>, phone: Option<string>)

  predicate NoErrors(e: Errors) {
    e.fullName.None? && e.phone.None?
  }

  datatype Field = FullName | Phone

  /** What `onComplete` receives. */
  datatype ProfileData = ProfileData(fullName: string, phone: Option<string>)

  /** The clean-up before submitting: trimmed name; trimmed phone, or none for a blank one. */
  function CleanData(name: string, phone: string): (d: ProfileData)
    ensures d.phone.None? <==> IsBlank(phone)
  {
    ProfileData(Trim(name), if phone != "" && !IsBlank(phone) then Some(Trim(phone)) else None)
  }

  /** A name that passes validation is handed on trimmed and at least 2 code units long. */
  lemma SubmittedNameValid(name: string, phone: string)
    requires NameError(name).None?
    ensures var d := CleanData(name, phone);
      Utf16Length(d.fullName) >= 2 && Trim(d.fullName) == d.fullName
  {
    TrimIdempotent(name);
  }

  /** A phone that passes validation is handed on trimmed and matching the pattern, and a
      blank one is not handed on at all. */
  lemma SubmittedPhoneValid(name: string, phone: string)
    requires PhoneError(phone).None?
    ensures var d := CleanData(name, phone);
      d.phone.Some? ==> ValidPhone(d.phone.value) && Trim(d.phone.value) == d.phone.value
  {
    var d := CleanData(name, phone);
    if d.phone.Some? {
      assert d.phone.value == Trim(phone);
      assert ValidPhone(Trim(phone));
      TrimIdempotent(phone);
    }
  }

  /** The submit button's `disabled` rule. */
  predicate SubmitDisabled(name: string, loading: bool) {
    IsBlank(name) || loading
  }

  /** A name that validates never leaves the button disabled while not loading, but the
      button does not imply the name rule: a name of one code unit after trimming enables
      it and then fails. */
  lemma ButtonAgainstNameRule(name: string)
    ensures NameError(name).None? ==> !SubmitDisabled(name, false)
    ensures Utf16Length(Trim(name)) == 1 ==> !SubmitDisabled(name, false) && NameError(name) == Some(NameTooShort)
  {
  }

  /** One character above U+FFFF, such as an emoji, is two code units long and passes. */
  lemma SurrogatePairNameLength(c: char)
    requires c as int > 0xFFFF
    ensures NameError([c]).None?
  {
    assert !IsWhitespace(c);
    TrimUnchanged([c]);
    assert Utf16Length([c]) == 2 by {
      assert [c][1..] == [];
    }
  }

  class ProfileSetupForm {
    /** `formData.fullName`. */
    var fullName: string
    /** `formData.phone`, the value the phone field reports. */
    var phone: string
    /** `errors`. */
    var errors: Errors

    constructor ()
      ensures fullName == "" && phone == "" && errors == Errors(None, None)
    {
      fullName := "";
      phone := "";
      errors := Errors(None, None);
    }

    /** `validateForm`: records each field's error and says whether there is none. */
    method ValidateForm() returns (ok: bool)
      modifies this
      ensures fullName == old(fullName) && phone == old(phone)
      ensures errors == Errors(NameError(fullName), PhoneError(phone))
      ensures ok <==> NoErrors(errors)
    {
      var nameError: Option<string> := None;
      if IsBlank(fullName) {
        nameError := Some(NameRequired);
      } else if Utf16Length(Trim(fullName)) < 2 {
        nameError := Some(NameTooShort);
      }
      var phoneError: Option<string> := None;
      if phone != "" && !IsBlank(phone) {
        if !ValidPhone(Trim(phone)) {
          phoneError := Some(PhoneInvalid);
        }
      }
      errors := Errors(nameError, phoneError);
      ok := nameError.None? && phoneError.None?;
    }

    /** `handleInputChange`: stores the value and clears that field's error only. */
    method HandleInputChange(field: Field, value: string)
      modifies this
      ensures field == FullName ==> fullName == value && phone == old(phone)
      ensures field == Phone ==> phone == value && fullName == old(fullName)
      ensures field == FullName ==> errors == old(errors).(fullName := None)
      ensures field == Phone ==> errors == old(errors).(phone := None)
    {
      match field
      case FullName =>
        fullName := value;
        if errors.fullName.Some? {
          errors := errors.(fullName := None);
        }
      case Phone =>
        phone := value;
        if errors.phone.Some? {
          errors := errors.(phone := None);
        }
    }

    /** `handleSubmit`: validates, then hands on the cleaned-up data only if nothing failed. */
    method HandleSubmit() returns (submitted: Option<ProfileData>)
      modifies this
      ensures fullName == old(fullName) && phone == old(phone)
      ensures errors == Errors(NameError(fullName), PhoneError(phone))
      ensures submitted.Some? <==> NoErrors(errors)
      ensures submitted.Some? ==> submitted.value == CleanData(fullName, phone)
    {
      var ok := ValidateForm();
      if !ok {
        return None;
      }
      var name := Trim(fullName);
      var cleanPhone := if phone != "" && !IsBlank(phone) then Some(Trim(phone)) else None;
      submitted := Some(ProfileData(name, cleanPhone));
    }
  }

  // ---------------------------------------------------------------------------
  // The phone field's output against the phone rule

  /** A number the phone field composes for a full set of digits has the pattern's shape:
      the dial code's digits, then groups of 3, 3 and `n`. */
  lemma ComposedShape(dial: string, d: string, n: nat)
    requires PhoneInput.IsDialCode(dial) && AllDigits(d) && n >= 3 && |d| == 6 + n
    ensures PhoneShape(dial + " " + PhoneInput.GroupDigits(d, n), |dial| - 1, n)
  {
    PhoneInput.GroupSplit(d, n);
    PhoneInput.DigitSlice(d, 0, 3);
    PhoneInput.DigitSlice(d, 3, 6);
    PhoneInput.DigitSlice(d, 6, |d|);
    ShapeOfGroups(dial, d[..3], d[3..6], d[6..]);
  }

  /** A dial code and three digit groups of 3, 3 and any length, joined by single spaces,
      have the pattern's shape. */
  lemma ShapeOfGroups(dial: string, g1: string, g2: string, g3: string)
    requires PhoneInput.IsDialCode(dial) && |g1| == 3 && |g2| == 3
    requires AllDigits(g1) && AllDigits(g2) && AllDigits(g3)
    ensures PhoneShape(dial + " " + (g1 + (" " + (g2 + (" " + g3)))), |dial| - 1, |g3|)
  {
    var k := |dial| - 1;
    var p := dial + " " + (g1 + (" " + (g2 + (" " + g3))));
    assert IsWhitespace(' ');
    assert p[1..k + 1] == dial[1..];
    assert p[k + 2..k + 5] == g1;
    assert p[k + 6..k + 9] == g2;
    assert p[k + 10..] == g3;
  }

  /** A digit run read from a slice is a digit of the whole string. */
  lemma SliceDigitAt(s: string, lo: nat, hi: nat, j: nat)
    requires lo <= hi <= |s|
    ensures AllDigits(s[lo..hi]) && lo <= j < hi ==> IsDigit(s[j])
  {
    if AllDigits(s[lo..hi]) && lo <= j < hi {
      assert s[lo..hi][j - lo] == s[j];
    }
  }

  /** The value the phone field reports for a country (dial code and country code) and a
      typed input. */
  function ComposedPhone(dial: string, code: string, input: string): string {
    PhoneInput.FullNumber(dial, PhoneInput.FormatPhoneNumber(input, code))
  }

  /** The reported value is empty when no digit is kept, and otherwise the dial code, a space
      and the formatted number, which ends in a digit. */
  lemma ComposedValue(dial: string, code: string, input: string)
    ensures var r := PhoneInput.FormatPhoneNumber(input, code);
      && (r == "" ==> ComposedPhone(dial, code, input) == "")
      && (r != "" ==> ComposedPhone(dial, code, input) == dial + " " + r && IsDigit(r[|r| - 1]))
  {
    PhoneInput.FormatIsTrimmed(input, code);
    PhoneInput.FormatContent(input, code);
  }

  /** A value that starts with '+' and ends in a digit is checked as it is: the rule decides. */
  lemma PhoneErrorOfComposed(p: string)
    requires p != "" && p[0] == '+' && IsDigit(p[|p| - 1])
    ensures PhoneError(p) == if ValidPhone(p) then None else Some(PhoneInvalid)
  {
    TrimUnchanged(p);
  }

  /** After a dial code and a space, the rule as written takes exactly 11 characters
      (3 + 1 + 3 + 1 + 3). */
  lemma RuleAfterDialCode(dial: string, r: string)
    requires PhoneInput.IsDialCode(dial) && ValidPhone(dial + " " + r)
    ensures |r| == 11
  {
    var p := dial + " " + r;
    var k :| 1 <= k <= 3 && PhoneShape(p, k, 3);
    SliceDigitAt(p, 1, k + 1, |dial|);
    assert p[|dial|] == ' ';
    assert forall j | 1 <= j < |dial| :: p[j] == dial[1..][j - 1];
  }

  /** A complete number (as many digits as the country's grouping takes) reported by the
      phone field has the shape of the corrected rule. */
  lemma CompleteNumbersShape(dial: string, code: string, input: string)
    requires PhoneInput.IsDialCode(dial)
    requires |PhoneInput.NationalDigits(input)| == 6 + PhoneInput.LastGroup(code)
    ensures PhoneShape(ComposedPhone(dial, code, input), |dial| - 1, PhoneInput.LastGroup(code))
    ensures |PhoneInput.FormatPhoneNumber(input, code)| == 8 + PhoneInput.LastGroup(code)
  {
    var n := PhoneInput.LastGroup(code);
    var d := PhoneInput.NationalDigits(input);
    PhoneInput.FormatIsGrouped(input, code);
    ComposedValue(dial, code, input);
    ComposedShape(dial, d, n);
  }

  /** A complete number reported by the phone field passes the corrected rule, and passes
      the rule as written exactly when the grouping is 3-3-3. */
  lemma CompleteNumbersPass(dial: string, code: string, input: string)
    requires PhoneInput.IsDialCode(dial)
    requires |PhoneInput.NationalDigits(input)| == 6 + PhoneInput.LastGroup(code)
    ensures ValidPhoneCorrected(ComposedPhone(dial, code, input))
    ensures PhoneError(ComposedPhone(dial, code, input)).None? <==> PhoneInput.LastGroup(code) == 3
  {
    var r := PhoneInput.FormatPhoneNumber(input, code);
    var p := ComposedPhone(dial, code, input);
    CompleteNumbersShape(dial, code, input);
    ComposedValue(dial, code, input);
    PhoneErrorOfComposed(p);
    if ValidPhone(p) {
      RuleAfterDialCode(dial, r);
    }
  }

  /** A value of the wrong length after a dial code and a space fails the rule as written. */
  lemma WrongLengthRefused(dial: string, r: string)
    requires PhoneInput.IsDialCode(dial) && |r| != 11
    ensures !ValidPhone(dial + " " + r)
  {
    if ValidPhone(dial + " " + r) {
      RuleAfterDialCode(dial, r);
    }
  }

  /** A number typed into the phone field while US or CA is selected can never pass the
      rule as written: the field groups it 3-3-4 (or not at all below 10 digits), which
      never leaves exactly 11 characters after "+1 ". A non-blank one is always refused.
      (A number typed under another country keeps that country's grouping when +1 is
      chosen afterwards; this lemma says nothing about it.) */
  lemma PlusOneNeverValid(code: string, input: string)
    requires code == "US" || code == "CA"
    ensures !ValidPhone(ComposedPhone("+1", code, input))
    ensures ComposedPhone("+1", code, input) != "" ==>
      PhoneError(ComposedPhone("+1", code, input)) == Some(PhoneInvalid)
  {
    var r := PhoneInput.FormatPhoneNumber(input, code);
    var p := ComposedPhone("+1", code, input);
    assert |r| != 11 by {
      PhoneInput.FormatLength(input, code);
    }
    assert PhoneInput.IsDialCode("+1") by {
      assert "+1"[1..] == "1";
    }
    ComposedValue("+1", code, input);
    if r != "" {
      WrongLengthRefused("+1", r);
      PhoneErrorOfComposed(p);
    }
  }

  /** In the table, US and CA are exactly the countries grouped 3-3-4, and both dial +1. */
  lemma TableGroupings(k: nat)
    requires k < |PhoneInput.Countries|
    ensures var c := PhoneInput.Countries[k];
      && PhoneInput.IsDialCode(c.dialCode)
      && (PhoneInput.LastGroup(c.code) == 4 <==> c.code == "US" || c.code == "CA")
      && (PhoneInput.LastGroup(c.code) == 4 ==> c.dialCode == "+1")
  {
    PhoneInput.DialCodesWellFormed();
    assert PhoneInput.Countries[k] in PhoneInput.Countries;
  }

  /** The ten-digit US number typed as 4155550123 keeps all its digits and is shown as
      "415 555 0123". */
  lemma UsExampleFormat(input: string)
    requires input == "4155550123"
    ensures PhoneInput.NationalDigits(input) == input
    ensures PhoneInput.FormatPhoneNumber(input, "US") == "415 555 0123"
  {
    assert PhoneInput.NationalDigits(input) == input by {
      assert AllDigits(input);
    }
    PhoneInput.FormatGrouping(input, "US");
    assert input[..3] == "415" && input[3..6] == "555" && input[6..10] == "0123" && input[10..] == "";
  }

  /** Concretely: that number is reported as "+1 415 555 0123", which the form refuses,
      though the corrected rule accepts it. */
  lemma UsExampleRefused(input: string)
    requires input == "4155550123"
    ensures PhoneInput.FormatPhoneNumber(input, "US") == "415 555 0123"
    ensures PhoneError(ComposedPhone("+1", "US", input)) == Some(PhoneInvalid)
    ensures ValidPhoneCorrected(ComposedPhone("+1", "US", input))
  {
    UsExampleFormat(input);
    assert PhoneInput.IsDialCode("+1") by {
      assert "+1"[1..] == "1";
    }
    assert |PhoneInput.NationalDigits(input)| == 6 + PhoneInput.LastGroup("US");
    CompleteNumbersPass("+1", "US", input);
  }
}
