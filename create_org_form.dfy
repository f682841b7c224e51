/**
 * The organisation-creation form: a name, a domain kept to lowercase letters
 * and digits (suggested from the name while empty) and a business type,
 * validated into a field-keyed error record before submission.
 */
module CreateOrgForm {
  import opened Wrappers
  import opened Text
  import opened Org

  /** `CreateOrganizationFormData`. */
  datatype CreateData = CreateData(name: string, domain: string, orgType: OrgType)

  const NameKey := "name"
  const DomainKey := "domain"

  /** The two field keys are different strings. */
  lemma KeysDiffer()
    ensures NameKey != DomainKey
  {
    assert NameKey[0] != DomainKey[0];
  }

  const NameRequired := "Organization name is required"
  const NameTooShort := "Organization name must be at least 2 characters"
  const DomainRequired := "Domain is required"
  const DomainInvalid := "Domain can only contain lowercase letters and numbers"
  const DomainTooShort := "Domain must be at least 3 characters"

  /** The longest suggested domain. */
  const MaxSuggestion := 20

  /** The domain field's sanitiser: lowercase, then drop everything outside [a-z0-9]. */
  function SanitizeDomain(value: string): (r: string)
    ensures AllLowerAlnum(r) && |r| <= |value|
  {
    KeepLowerAlnum(ToLower(value))
  }

  /** The sanitiser works character by character: a character whose ASCII lower case is
      in [a-z0-9] is kept, lowercased; any other character is dropped. */
  lemma SanitizeDomainChar(c: char)
    ensures SanitizeDomain([c]) == if IsLowerAlnum(ToLowerChar(c)) then [ToLowerChar(c)] else []
  {
    assert ToLower([c]) == [ToLowerChar(c)];
    KeepLowerAlnumChar(ToLowerChar(c));
  }

  /** The pieces of a concatenation are sanitised independently, so together with
      `SanitizeDomainChar` every kept character appears in the order it was typed. */
  lemma SanitizeDomainAppend(a: string, b: string)
    ensures SanitizeDomain(a + b) == SanitizeDomain(a) + SanitizeDomain(b)
  {
    ToLowerAppend(a, b);
    KeepLowerAlnumAppend(ToLower(a), ToLower(b));
  }

  /** Sanitising twice is sanitising once. */
  lemma SanitizeDomainIdempotent(value: string)
    ensures SanitizeDomain(SanitizeDomain(value)) == SanitizeDomain(value)
  {
    var r := SanitizeDomain(value);
    assert ToLower(r) == r by {
      forall i | 0 <= i < |r| ensures ToLower(r)[i] == r[i] {
        assert IsLowerAlnum(r[i]);
      }
    }
  }

  /** Characters already in [a-z0-9] pass the sanitiser unchanged. */
  lemma SanitizeDomainKeepsClean(value: string)
    requires AllLowerAlnum(value)
    ensures SanitizeDomain(value) == value
  {
    assert ToLower(value) == value by {
      forall i | 0 <= i < |value| ensures ToLower(value)[i] == value[i] {
        assert IsLowerAlnum(value[i]);
      }
    }
  }

  /** The domain suggested from a name: the sanitised name cut to 20 characters. */
  function SuggestDomain(name: string): (r: string)
    ensures AllLowerAlnum(r) && |r| <= MaxSuggestion
    ensures IsPrefix(r, SanitizeDomain(name))
    ensures |r| == if |SanitizeDomain(name)| <= MaxSuggestion then |SanitizeDomain(name)| else MaxSuggestion
  {
    TakeLowerAlnum(SanitizeDomain(name), MaxSuggestion);
    Take(SanitizeDomain(name), MaxSuggestion)
  }

  /** The domain after the name changes from `oldName` to `newName`: the suggestion effect
      runs only when the name changed, and fills the domain only while it is empty. */
  function DomainAfterNameChange(oldName: string, newName: string, domain: string): (r: string)
    ensures domain != "" ==> r == domain
    ensures r != domain ==> newName != oldName && newName != "" && r == SuggestDomain(newName)
    ensures newName != oldName && newName != "" && domain == "" ==> r == SuggestDomain(newName)
  {
    if newName != oldName && newName != "" && domain == "" then SuggestDomain(newName) else domain
  }

  /** The name rule: blank after trimming is missing; otherwise the untrimmed length counts,
      in UTF-16 code units as `length` does. */
  function NameError(name: string): (r: Option<string>)
    ensures r.None? <==> !IsBlank(name) && Utf16Length(name) >= 2
    ensures r == Some(NameRequired) <==> IsBlank(name)
    ensures r.Some? && !IsBlank(name) ==> r == Some(NameTooShort)
  {
    if IsBlank(name) then Some(NameRequired)
    else if Utf16Length(name) < 2 then Some(NameTooShort)
    else None
  }

  /** The domain rule: the checks in order, at most one message. */
  function DomainError(domain: string): (r: Option<string>)
    ensures r.None? <==> AllLowerAlnum(domain) && |domain| >= 3
    ensures r == Some(DomainRequired) <==> IsBlank(domain)
    ensures r == Some(DomainInvalid) <==> !IsBlank(domain) && !AllLowerAlnum(domain)
    ensures r == Some(DomainTooShort) <==> !IsBlank(domain) && AllLowerAlnum(domain) && |domain| < 3
  {
    if IsBlank(domain) then Some(DomainRequired)
    else if !(domain != "" && AllLowerAlnum(domain)) then Some(DomainInvalid)
    else if |domain| < 3 then Some(DomainTooShort)
    else
      LowerAlnumNotBlank(domain);
      None
  }

  /** A non-empty string of [a-z0-9] is not blank. */
  lemma LowerAlnumNotBlank(s: string)
    requires s != "" && AllLowerAlnum(s)
    ensures !IsBlank(s)
  {
    BlankIffAllWhitespace(s);
    assert IsLowerAlnum(s[0]);
  }

  /** Puts a message under `key` when there is one. */
  function WithError(errors: map<string, string>, key: string, e: Option<string>): (r: map<string, string>)
    ensures e.None? ==> r == errors
    ensures e.Some? ==> r == errors[key := e.value]
  {
    if e.Some? then errors[key := e.value] else errors
  }

  /** `validateForm`'s error record: the name's message under "name", the domain's under
      "domain", nothing else. */
  function Validate(name: string, domain: string): (errors: map<string, string>)
    ensures NameKey in errors <==> NameError(name).Some?
    ensures NameKey in errors ==> errors[NameKey] == NameError(name).value
    ensures DomainKey in errors <==> DomainError(domain).Some?
    ensures DomainKey in errors ==> errors[DomainKey] == DomainError(domain).value
    ensures errors.Keys <= {NameKey, DomainKey}
  {
    KeysDiffer();
    TwoErrors(NameKey, NameError(name), DomainKey, DomainError(domain));
    WithError(WithError(map[], NameKey, NameError(name)), DomainKey, DomainError(domain))
  }

  /** Two optional messages under two different keys each land under their own key. */
  lemma TwoErrors(k1: string, e1: Option<string>, k2: string, e2: Option<string>)
    requires k1 != k2
    ensures var m := WithError(WithError(map[], k1, e1), k2, e2);
      && (k1 in m <==> e1.Some?) && (k1 in m ==> m[k1] == e1.value)
      && (k2 in m <==> e2.Some?) && (k2 in m ==> m[k2] == e2.value)
      && m.Keys <= {k1, k2}
  {
  }

  /** The name checks of `validateForm`, in order, recording at most one message. */
  method AddNameError(record: map<string, string>, name: string) returns (r: map<string, string>)
    ensures r == WithError(record, NameKey, NameError(name))
  {
    r := record;
    if IsBlank(name) {
      r := r[NameKey := NameRequired];
    } else if Utf16Length(name) < 2 {
      r := r[NameKey := NameTooShort];
    }
  }

  /** The domain checks of `validateForm`, in order, recording at most one message. */
  method AddDomainError(record: map<string, string>, domain: string) returns (r: map<string, string>)
    ensures r == WithError(record, DomainKey, DomainError(domain))
  {
    r := record;
    if IsBlank(domain) {
      r := r[DomainKey := DomainRequired];
    } else if !(domain != "" && AllLowerAlnum(domain)) {
      r := r[DomainKey := DomainInvalid];
    } else if |domain| < 3 {
      r := r[DomainKey := DomainTooShort];
    }
  }

  /** The record is empty exactly when both rules pass. */
  lemma ValidateEmptyIff(name: string, domain: string)
    ensures |Validate(name, domain)| == 0 <==> NameError(name).None? && DomainError(domain).None?
  {
    var e := Validate(name, domain);
    if NameError(name).Some? {
      assert NameKey in e;
    } else if DomainError(domain).Some? {
      assert DomainKey in e;
    } else {
      assert e.Keys == {};
    }
  }

  /** Any sanitiser output of at least 3 characters passes every domain check, and so does
      a suggestion of that length. */
  lemma SanitizedDomainValid(value: string, name: string)
    ensures |SanitizeDomain(value)| >= 3 ==> DomainError(SanitizeDomain(value)).None?
    ensures |SuggestDomain(name)| >= 3 ==> DomainError(SuggestDomain(name)).None?
  {
  }

  /** The submit button's `disabled` rule. */
  predicate SubmitDisabled(name: string, domain: string, loading: bool) {
    IsBlank(name) || IsBlank(domain) || loading
  }

  /** Data that validates never leaves the button disabled while not loading. */
  lemma ValidEnablesSubmit(name: string, domain: string)
    requires NameError(name).None? && DomainError(domain).None?
    ensures !SubmitDisabled(name, domain, false)
  {
    LowerAlnumNotBlank(domain);
  }

  /** The name length is measured before trimming: a space and one letter pass, though
      the trimmed name has a single character. */
  lemma UntrimmedNameLength(c: char)
    requires !IsWhitespace(c)
    ensures NameError([' ', c]).None? && Trim([' ', c]) == [c]
  {
    var s := [' ', c];
    assert Trim(s) == [c] by {
      assert s == [' '] + [c];
      TrimStartSkips([' '], [c]);
      TrimUnchanged([c]);
    }
    assert !IsBlank(s);
  }

  /** A single character above U+FFFF is two code units long, so it is a name long
      enough to pass. */
  lemma SurrogatePairNameLength(c: char)
    requires c as int > 0xFFFF
    ensures NameError([c]).None?
  {
    assert !IsWhitespace(c);
    TrimUnchanged([c]);
    assert Utf16Length([c]) == 2 by {
      assert [c][1..] == [];
    }
  }

  class CreateOrganizationForm {
    /** `formData`. */
    var name: string
    var domain: string
    var orgType: OrgType
    /** `formErrors`. */
    var errors: map<string, string>

    ghost predicate Valid()
      reads this
    {
      AllLowerAlnum(domain) && errors.Keys <= {NameKey, DomainKey}
    }

    constructor ()
      ensures Valid()
      ensures name == "" && domain == "" && orgType == PropertyManagement && errors == map[]
    {
      name := "";
      domain := "";
      orgType := PropertyManagement;
      errors := map[];
    }

    /** Typing a name, followed by the suggestion effect, which runs only when the name
        actually changed and fills the domain only while it is empty. */
    method UpdateName(value: string)
      requires Valid()
      modifies this
      ensures Valid() && name == value && orgType == old(orgType) && errors == old(errors)
      ensures domain == DomainAfterNameChange(old(name), value, old(domain))
    {
      var changed := value != name;
      name := value;
      if changed && name != "" && domain == "" {
        domain := SuggestDomain(name);
      }
    }

    /** Typing in the domain field stores the sanitised text. */
    method UpdateDomain(value: string)
      requires Valid()
      modifies this
      ensures Valid() && name == old(name) && orgType == old(orgType) && errors == old(errors)
      ensures domain == SanitizeDomain(value)
    {
      domain := SanitizeDomain(value);
    }

    /** Choosing a business type. */
    method UpdateType(t: OrgType)
      requires Valid()
      modifies this
      ensures Valid() && name == old(name) && domain == old(domain) && errors == old(errors)
      ensures orgType == t
    {
      orgType := t;
    }

    /** `validateForm`: stores the error record and says whether it is empty. */
    method ValidateForm() returns (ok: bool)
      requires Valid()
      modifies this
      ensures Valid() && name == old(name) && domain == old(domain) && orgType == old(orgType)
      ensures errors == Validate(name, domain)
      ensures ok <==> NameError(name).None? && DomainError(domain).None?
    {
      var n, d := name, domain;
      var record := AddNameError(map[], n);
      record := AddDomainError(record, d);
      errors := record;
      ValidateEmptyIff(n, d);
      ok := |record| == 0;
    }

    /** `handleSubmit`: the form data is handed on unchanged, and only when valid. */
    method HandleSubmit() returns (submitted: Option<CreateData>)
      requires Valid()
      modifies this
      ensures Valid() && name == old(name) && domain == old(domain) && orgType == old(orgType)
      ensures errors == Validate(name, domain)
      ensures submitted.Some? <==> NameError(name).None? && DomainError(domain).None?
      ensures submitted.Some? ==> submitted.value == CreateData(name, domain, orgType)
    {
      var ok := ValidateForm();
      if !ok {
        return None;
      }
      submitted := Some(CreateData(name, domain, orgType));
    }
  }
}
