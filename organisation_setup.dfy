/**
 * The single-component organisation setup (the `organisation` directory):
 * the choice screen, the create form and the join form rendered by one
 * component that owns all of their state. The form fields and the error
 * record live in that component, so they survive switching between modes,
 * and the two forms share one error record.
 */
module OrganisationSetup {
  import opened Wrappers
  import opened Text
  import opened SetupMode
  import opened Org
  import opened CreateOrgForm
  import opened JoinOrgForm

  /** The three field keys of the shared error record are different strings. */
  lemma KeysDistinct()
    ensures CodeKey != NameKey && CodeKey != DomainKey && NameKey != DomainKey
  {
    assert CodeKey[0] == 'i' && NameKey[0] == 'n' && DomainKey[0] == 'd';
  }

  /** Key sets drawn from the create form's keys and from the join form's key are disjoint. */
  lemma FormKeysDisjoint(c: set<string>, j: set<string>)
    requires c <= {NameKey, DomainKey} && j <= {CodeKey}
    ensures c !! j
  {
    KeysDistinct();
  }

  /** The create form and the join form write disjoint keys into the shared record, so a
      field never shows a message left behind by the other form. */
  lemma ErrorKeysDisjoint(name: string, domain: string, code: string)
    ensures CreateOrgForm.Validate(name, domain).Keys !! JoinOrgForm.Validate(code).Keys
  {
    FormKeysDisjoint(CreateOrgForm.Validate(name, domain).Keys, JoinOrgForm.Validate(code).Keys);
  }

  /** The create form's record holds no code message, fits the shared record's keys, and is
      empty exactly when both create rules pass. */
  lemma CreateRecord(name: string, domain: string)
    ensures var r := CreateOrgForm.Validate(name, domain);
      && CodeKey !in r && r.Keys <= {NameKey, DomainKey, CodeKey}
      && (|r| == 0 <==> CreateOrgForm.NameError(name).None? && DomainError(domain).None?)
  {
    var r := CreateOrgForm.Validate(name, domain);
    FormKeysDisjoint(r.Keys, {CodeKey});
    ValidateEmptyIff(name, domain);
  }

  class OrganisationSetup {
    var mode: Mode
    /** `createForm`. */
    var name: string
    var domain: string
    var orgType: OrgType
    /** `joinForm.invitationCode`. */
    var invitationCode: string
    /** `formErrors`, shared by both forms. */
    var errors: map<string, string>

    ghost predicate Valid()
      reads this
    {
      && AllLowerAlnum(domain)
      && AllDigits(invitationCode) && |invitationCode| <= CodeLength
      && errors.Keys <= {NameKey, DomainKey, CodeKey}
    }

    constructor ()
      ensures Valid() && mode == Choose
      ensures name == "" && domain == "" && orgType == PropertyManagement
      ensures invitationCode == "" && errors == map[]
    {
      mode := Choose;
      name := "";
      domain := "";
      orgType := PropertyManagement;
      invitationCode := "";
      errors := map[];
    }

    /** A mode button shown on the current screen; the forms keep what was typed. */
    method Press(e: Event)
      requires Valid() && Offered(mode, e)
      modifies this
      ensures Valid() && mode == Next(old(mode), e)
      ensures name == old(name) && domain == old(domain) && orgType == old(orgType)
      ensures invitationCode == old(invitationCode) && errors == old(errors)
    {
      mode := Next(mode, e);
    }

    /** Typing a name on the create screen, followed by the suggestion effect. */
    method ChangeName(value: string)
      requires Valid() && mode == Create
      modifies this
      ensures Valid() && mode == old(mode) && name == value
      ensures domain == DomainAfterNameChange(old(name), value, old(domain))
      ensures orgType == old(orgType) && invitationCode == old(invitationCode) && errors == old(errors)
    {
      var changed := value != name;
      name := value;
      if changed && name != "" && domain == "" {
        domain := SuggestDomain(name);
      }
    }

    /** Typing in the domain field stores the sanitised text. */
    method ChangeDomain(value: string)
      requires Valid() && mode == Create
      modifies this
      ensures Valid() && mode == old(mode) && domain == SanitizeDomain(value)
      ensures name == old(name) && orgType == old(orgType)
      ensures invitationCode == old(invitationCode) && errors == old(errors)
    {
      domain := SanitizeDomain(value);
    }

    /** One of the three business-type buttons. */
    method SelectType(t: OrgType)
      requires Valid() && mode == Create
      modifies this
      ensures Valid() && mode == old(mode) && orgType == t
      ensures name == old(name) && domain == old(domain)
      ensures invitationCode == old(invitationCode) && errors == old(errors)
    {
      orgType := t;
    }

    /** `handleCreateSubmit`: the shared record is replaced by the create form's, which
        drops any join-form message, and the data goes out only when valid. */
    method SubmitCreate() returns (submitted: Option<CreateData>)
      requires Valid() && mode == Create
      modifies this
      ensures Valid() && mode == old(mode) && name == old(name) && domain == old(domain)
      ensures orgType == old(orgType) && invitationCode == old(invitationCode)
      ensures errors == CreateOrgForm.Validate(name, domain) && CodeKey !in errors
      ensures submitted.Some? <==> CreateOrgForm.NameError(name).None? && DomainError(domain).None?
      ensures submitted.Some? ==> submitted.value == CreateData(name, domain, orgType)
    {
      var n, d, t := name, domain, orgType;
      var record := CreateOrgForm.Validate(n, d);
      CreateRecord(n, d);
      errors := record;
      submitted := if |record| == 0 then Some(CreateData(n, d, t)) else None;
    }

    /** Typing in the code field on the join screen: digits only, at most six. */
    method ChangeCode(value: string)
      requires Valid() && mode == Join
      modifies this
      ensures Valid() && mode == old(mode) && invitationCode == SanitizeCode(value)
      ensures name == old(name) && domain == old(domain) && orgType == old(orgType)
      ensures errors == old(errors)
    {
      invitationCode := SanitizeCode(value);
    }

    /** `handleJoinSubmit`: the shared record is replaced by the join form's, and the
        trimmed code goes out only when it is six digits, which is then the code itself. */
    method SubmitJoin() returns (submitted: Option<string>)
      requires Valid() && mode == Join
      modifies this
      ensures Valid() && mode == old(mode) && invitationCode == old(invitationCode)
      ensures name == old(name) && domain == old(domain) && orgType == old(orgType)
      ensures errors == JoinOrgForm.Validate(invitationCode)
      ensures NameKey !in errors && DomainKey !in errors
      ensures submitted.Some? <==> CodeError(invitationCode).None?
      ensures submitted.Some? ==> submitted.value == invitationCode && IsSixDigits(submitted.value)
    {
      var code := invitationCode;
      var record := JoinOrgForm.Validate(code);
      assert NameKey !in record && DomainKey !in record by {
        assert record.Keys <= {CodeKey};
        KeysDistinct();
      }
      errors := record;
      if |record| == 0 {
        DigitsAreTrimmed(code);
        submitted := Some(Trim(code));
      } else {
        submitted := None;
      }
    }
  }
}
