# tobiira-id front end — verified model of its logic

Tobiira ID is the sign-in and organisation front end of the Tobiira apps (Tobiira Stay
for hotels, Tobiira One for other businesses). This project models the logic that sits
under its React components and proves what that logic guarantees. The modelled pieces are:

- **Sign-in.** The six-cell one-time-code entry (`OtpInput`), the resend countdown
  (`ResendCode`), the email form and its address pattern (`EmailForm`), and the code page's
  email masking and verify button (`OtpForm`).
- **Profile.** The profile form's name and phone rules (`ProfileSetupForm`), and the phone
  field with its country table, digit grouping and value parsing (`PhoneInput`).
- **Organisation set-up.** The create and join forms with their sanitisers and validators
  (`CreateOrgForm`, `JoinOrgForm`), and the two set-up screens. The British-spelled screen
  (`OrganisationSetup`) keeps its own forms. The American-spelled one
  (`OrganizationSetup`) switches between the mode selector and the two forms. Both screens
  share the mode machine `SetupMode`.
- **Dashboards.** The search filters, the "can manage" role checks, per-role counting, the
  type-to-app mappings, empty states, menus and action buttons. These live in
  `OrgDashboard`, `GoogleDriveDashboard`, `SimpleOrgDashboard`, `OrganizationList` and
  `AccountSettings`, with the shared member and organisation vocabulary in `Org`.
- **Text input.** The text input's id derivation and its error/helper text choice (`Input`).

How each kind of code is modelled:

- **Components with state.** A component whose handlers update React state is a `class`.
  Its fields are the state, and there is one method per handler or effect. Each method
  states the whole new state against the old one.
- **Pure helpers.** Pure helpers and render rules are functions. The properties of those
  functions are stated as lemmas.
- **Shared modules.** `Text` holds the JavaScript string operations the components use:
  `trim`, `\s`, ASCII `toLowerCase`, the character-class replacements and `includes`.
  `Lists` holds `filter` and `find`. `Wrappers` holds `Option`.
- **Asynchronous callbacks.** Callbacks such as `onSubmit`, `onResend` and `onVerify` are
  not modelled. A method returns the value it would hand to the callback, and a boolean
  parameter says whether the awaited call failed.

## Model

| member | source | states |
|---|---|---|
| OtpInput.EmptyCells | components/auth/otp-input.tsx:21 | the initial array has `length` cells, all empty |
| OtpInput.LastChar | components/auth/otp-input.tsx:45 | `slice(-1)` gives the last character of a non-empty value, and "" (a cleared cell) exactly for an empty one |
| OtpInput.PasteDigits | components/auth/otp-input.tsx:87 | a paste keeps the first `length` digits of the text, in order: as many as the text has, up to `length` |
| OtpInput.PastedCells | components/auth/otp-input.tsx:90-93 | after a paste there are still exactly `length` cells |
| OtpInput.JoinFilled | components/auth/otp-input.tsx:54-56 | when every cell holds a digit, the joined code is all digits, one per cell |
| OtpInput.JoinPasted | components/auth/otp-input.tsx:90-103 | joining the pasted cells gives back exactly the pasted digits |
| OtpInput.PastedCellsShape | components/auth/otp-input.tsx:90-103 | pasted cells are valid cells, and the row is full iff as many digits as cells were pasted |
| OtpInput.OtpInput.constructor | components/auth/otp-input.tsx:21-22 | a new code entry has `length` empty cells and focus on cell 0 |
| OtpInput.OtpInput.OnErrorChange | components/auth/otp-input.tsx:33-38 | a non-empty error clears every cell and moves focus to 0; no error changes nothing |
| OtpInput.OtpInput.HandleChange | components/auth/otp-input.tsx:40-57 | a value with a non-digit changes nothing; otherwise the cell gets the value's last character and focus advances unless at the end; `onComplete` fires iff every cell is then filled, with the joined code |
| OtpInput.OtpInput.HandleKeyDown | components/auth/otp-input.tsx:59-78 | Backspace on a filled cell clears only it and keeps focus; on an empty cell i>0 it clears cell i-1 and moves there; on empty cell 0 nothing happens; the arrows move focus by one within bounds; other keys change nothing |
| OtpInput.OtpInput.HandleFocus | components/auth/otp-input.tsx:80-82 | focusing a cell moves the active index there and leaves the cells alone |
| OtpInput.OtpInput.HandlePaste | components/auth/otp-input.tsx:84-105 | a paste with no digits changes nothing; otherwise the cells become the first `length` digits padded with empty cells, focus goes to min(n, length-1), and `onComplete` fires iff n == length |
| ResendCode.AfterTicksValue | components/auth/resend-code.tsx:22-27 | from a non-negative start t, k ticks leave t-k, or 0 once k >= t: the countdown never goes below zero |
| ResendCode.AfterTicksNegative | components/auth/resend-code.tsx:22-27 | a negative countdown is never changed by a tick |
| ResendCode.CountdownEnablesResend | components/auth/resend-code.tsx:19-43 | after `initialDelay` ticks the button is enabled (nothing loading or disabled), and one tick earlier it is not |
| ResendCode.EnabledButtonResends | components/auth/resend-code.tsx:30-57 | whenever `canResend` holds, the handler's guard lets the click through and the button (not the countdown text) is on screen |
| ResendCode.GuardAgreesWithButton | components/auth/resend-code.tsx:30-43 | for a non-negative countdown the handler's guard and `canResend` agree in both directions |
| ResendCode.ResendCode.constructor | components/auth/resend-code.tsx:19-20 | the countdown starts at `initialDelay` (60 by default), not loading |
| ResendCode.ResendCode.Tick | components/auth/resend-code.tsx:22-27 | one tick decrements a positive countdown by exactly 1 and leaves loading alone |
| ResendCode.ResendCode.StartResend | components/auth/resend-code.tsx:29-32 | `onResend` is called iff the countdown is not positive, nothing is loading and the control is enabled; loading is set only then |
| ResendCode.ResendCode.FinishResend | components/auth/resend-code.tsx:33-41 | a successful resend restarts the countdown at `initialDelay`, a failed one keeps it; loading is false afterwards either way |
| EmailForm.SingleAt | components/auth/email-form.tsx:17 | with exactly one '@', neither side of it holds another |
| EmailForm.MatchIsWellFormed | components/auth/email-form.tsx:16-19 | every address the pattern accepts has no whitespace, one '@', a non-empty local part and an inner '.' after the '@' |
| EmailForm.WellFormedMatches | components/auth/email-form.tsx:16-19 | every such address is accepted by the pattern |
| EmailForm.EmailAcceptedIff | components/auth/email-form.tsx:16-19 | `validateEmail` accepts exactly the well-formed addresses |
| EmailForm.ValidateEmail | components/auth/email-form.tsx:16-19 | the address pattern as written; `EmailAcceptedIff` states what it accepts |
| EmailForm.CurrentError | components/auth/email-form.tsx:48 | the error prop, when present, wins over the form's own message |
| EmailForm.SubmitDisabled | components/auth/email-form.tsx:70 | the button's `disabled` rule; `AcceptedEnablesSubmit` relates it to the pattern |
| EmailForm.AcceptedEnablesSubmit | components/auth/email-form.tsx:70 | an address the pattern accepts is never blank, so it never leaves the button disabled while not loading |
| EmailForm.EmailForm.constructor | components/auth/email-form.tsx:13-14 | the form starts with an empty address and no error |
| EmailForm.EmailForm.HandleEmailChange | components/auth/email-form.tsx:43-46 | typing stores the text and clears the error |
| EmailForm.EmailForm.HandleSubmit | components/auth/email-form.tsx:21-41 | a blank address gives "Email is required", an invalid one "Please enter a valid email address", neither submitting; a valid one is submitted as typed with the error cleared, and a failing submit sets the generic message |
| EmailForm.SubmittedIsWellFormed | components/auth/email-form.tsx:29-37 | whatever reaches `onSubmit` is a well-formed, non-blank address |
| OtpForm.Username | components/auth/otp-form.tsx:40 | `split('@')[0]` is the prefix of the address up to its first '@', or all of it when there is none |
| OtpForm.Stars | components/auth/otp-form.tsx:43 | the mask is n asterisks |
| OtpForm.MaskEmail | components/auth/otp-form.tsx:39-45 | `maskEmail` as written; what it keeps and changes is stated by `MaskShort`, `MaskLong`, `MaskOneAt` and `MaskIdempotent` |
| OtpForm.OneAtSplit | components/auth/otp-form.tsx:40-44 | an address with one '@' is its username, '@' and its whole domain |
| OtpForm.MaskShort | components/auth/otp-form.tsx:39-42 | a username of at most 2 characters leaves the address unchanged |
| OtpForm.MaskLong | components/auth/otp-form.tsx:39-45 | a longer username is masked to the same length, keeping its first and last character with only '*' in between |
| OtpForm.MaskOneAt | components/auth/otp-form.tsx:39-45 | with exactly one '@', masking keeps the length, the single '@' and the domain verbatim |
| OtpForm.MaskIdempotent | components/auth/otp-form.tsx:39-45 | masking twice is masking once for addresses with one '@' |
| OtpForm.MaskAcceptedAddress | components/auth/otp-form.tsx:39-45 | an address the email form accepts is shown as its masked username, '@' and its original domain |
| OtpForm.GetContent | components/auth/otp-form.tsx:47-61 | both modes tell the user a 6-digit code was sent |
| OtpForm.ContentPerMode | components/auth/otp-form.tsx:47-61 | login and registration share the subtitle but have their own title and instruction |
| OtpForm.VerifyLabel | components/auth/otp-form.tsx:122 | the verify button reads "Sign In" for login and "Complete Setup" for registration |
| OtpForm.ShowsVerifyButton | components/auth/otp-form.tsx:115 | the manual verify button is rendered exactly for a recorded code of 6 characters; `CompletedCodeShowsButton` ties it to the code entry |
| OtpForm.CompletedCodeShowsButton | components/auth/otp-form.tsx:115 | a code the six-cell entry reports as complete always brings up the verify button |
| OtpForm.OtpForm.constructor | components/auth/otp-form.tsx:32 | no code is recorded at first |
| OtpForm.OtpForm.HandleOtpComplete | components/auth/otp-form.tsx:34-37 | the completed code is recorded and exactly that code is passed to `onVerify` |
| OtpForm.OtpForm.PressVerify | components/auth/otp-form.tsx:115-118 | the button, present only for a 6-character code, passes the recorded code to `onVerify` again and keeps it |
| PhoneInput.DialCodesWellFormed | components/ui/phone-input.tsx:7-20 | every dial code of the country table is '+' and 1-3 digits |
| PhoneInput.DialCodesPrefixFree | components/ui/phone-input.tsx:7-20 | no dial code is a proper prefix of another |
| PhoneInput.SharedDialCodes | components/ui/phone-input.tsx:17-19 | only US and CA share a dial code (+1), and US comes first |
| PhoneInput.InitialCountry | components/ui/phone-input.tsx:47-49 | the initial country is always an entry of the table |
| PhoneInput.InitialCountryChoice | components/ui/phone-input.tsx:47-49 | the initial country is the entry with the `defaultCountry` code, else the first entry (UG) |
| PhoneInput.CountryForNumber | components/ui/phone-input.tsx:58 | a country found for a value is a table entry whose dial code starts the value |
| PhoneInput.ParseValue | components/ui/phone-input.tsx:56-64 | the mount parse as written; `ParseComposed`, `ParseAfterDialCode` and `UnknownPrefixIsCleared` state what it recovers |
| PhoneInput.FullNumber | components/ui/phone-input.tsx:67-70 | the composed value as written; `ComposedPrefixes` and `ParseComposed` state its shape and its inverse |
| PhoneInput.ParentUpdate | components/ui/phone-input.tsx:67-76 | `onChange` fires iff the composed number differs from `value`, and passes the composed number |
| PhoneInput.StripLeadingZeros | components/ui/phone-input.tsx:92 | removes exactly the leading zeros |
| PhoneInput.NationalDigits | components/ui/phone-input.tsx:92 | the digits that are grouped never start with '0' |
| PhoneInput.GroupContent | components/ui/phone-input.tsx:95-104 | grouping keeps the digits in order and only adds spaces |
| PhoneInput.FormatPhoneNumber | components/ui/phone-input.tsx:90-105 | `formatPhoneNumber` as written; `FormatIsGrouped`, `FormatContent`, `FormatLength` and `FormatIdempotent` state its result |
| PhoneInput.FormatIsGrouped | components/ui/phone-input.tsx:90-105 | UG and the default branch are the same 3-3-3 rule, US and CA the 3-3-4 rule |
| PhoneInput.FormatContent | components/ui/phone-input.tsx:90-105 | the output holds only digits and spaces, never starts with '0', and dropping the spaces gives the input's digits without leading zeros |
| PhoneInput.FormatGrouping | components/ui/phone-input.tsx:95-104 | fewer than 9 (UG, default) or 10 (US, CA) digits stay unspaced; otherwise the first groups are spaced and further digits follow the last group |
| PhoneInput.FormatLength | components/ui/phone-input.tsx:95-104 | formatting adds exactly two spaces, or none for too few digits |
| PhoneInput.FormatIdempotent | components/ui/phone-input.tsx:90-111 | re-formatting what the box shows changes nothing |
| PhoneInput.FormatIsTrimmed | components/ui/phone-input.tsx:67-70 | a formatted number has no whitespace at either end |
| PhoneInput.ComposedPrefixes | components/ui/phone-input.tsx:57-61 | in a well-formed prefix-free table, an entry's code prefixes "dial + ' ' + rest" iff it equals dial |
| PhoneInput.CountryForComposed | components/ui/phone-input.tsx:57-61 | the prefix search on a composed number finds the first entry with that dial code |
| PhoneInput.FirstWithDialCode | components/ui/phone-input.tsx:17-19 | the first entry with an entry's dial code is the entry itself, except CA, which resolves to US |
| PhoneInput.ParseComposed | components/ui/phone-input.tsx:56-70 | round trip: parsing a non-empty composed value gives back the same dial code and the trimmed local number |
| PhoneInput.ParseAfterDialCode | components/ui/phone-input.tsx:56-70 | parsing a dial code, a space and a trimmed local number, when the search finds country c, gives c and that local number |
| PhoneInput.RestAfterDialCode | components/ui/phone-input.tsx:60-61 | what follows the dial code, trimmed, is the trimmed local number |
| PhoneInput.MountKeepsComposedValue | components/ui/phone-input.tsx:56-76 | re-composing a parsed composed value gives back that value, so the sync effect of the render after the parse does not call `onChange` |
| PhoneInput.MountSyncSeesEmptyNumber | components/ui/phone-input.tsx:66-76 | the sync effect of the mount commit still sees the empty local number, so any non-empty `value` gets `onChange("")` |
| PhoneInput.UnknownPrefixIsCleared | components/ui/phone-input.tsx:56-76 | a value with no known dial code is not parsed, and the sync effect then reports "" |
| PhoneInput.PhoneInput.constructor | components/ui/phone-input.tsx:47-51 | the field starts on the initial country with an empty number and a closed list |
| PhoneInput.ParseMount | components/ui/phone-input.tsx:56-64 | the step-by-step mount parse gives `ParseValue` of the value, and a parsed country is a table entry |
| PhoneInput.PhoneInput.ParseOnMount | components/ui/phone-input.tsx:56-64 | a parsable value selects the first matching country and sets the trimmed rest; otherwise nothing changes |
| PhoneInput.PhoneInput.SyncParent | components/ui/phone-input.tsx:67-76 | the emitted value is the composed number, only when it differs from `value` |
| PhoneInput.PhoneInput.HandleNumberChange | components/ui/phone-input.tsx:107-111 | the box shows the input formatted for the selected country; nothing else changes |
| PhoneInput.PhoneInput.HandleCountrySelect | components/ui/phone-input.tsx:113-117 | the chosen entry becomes current and the list closes; the number is kept |
| PhoneInput.PhoneInput.ToggleDropdown | components/ui/phone-input.tsx:132 | the country button flips the list open or closed |
| PhoneInput.PhoneInput.ClickOutside | components/ui/phone-input.tsx:80-83 | a press outside the picker closes the list |
| ProfileSetupForm.NameError | components/auth/profile-setup-form.tsx:37-41 | no error iff the trimmed name is at least 2 UTF-16 code units long; "required" iff blank, otherwise "too short" |
| ProfileSetupForm.SurrogatePairNameLength | components/auth/profile-setup-form.tsx:39 | one character above U+FFFF, such as an emoji, counts 2 and passes the name rule |
| ProfileSetupForm.ValidPhone | components/auth/profile-setup-form.tsx:46 | the phone pattern as written, with a last group of 3 digits; `PlusOneNeverValid` and `UsExampleRefused` state what it refuses |
| ProfileSetupForm.ValidPhoneCorrected | components/auth/profile-setup-form.tsx:46 | the pattern with a last group of 3 or 4 digits; `CompleteNumbersPass` states that it accepts every complete reported number |
| ProfileSetupForm.PhoneError | components/auth/profile-setup-form.tsx:44-50 | a blank phone never errs; a non-blank one errs iff its trimmed form fails the pattern |
| ProfileSetupForm.CleanData | components/auth/profile-setup-form.tsx:74-77 | the phone handed on is absent exactly for a blank phone |
| ProfileSetupForm.SubmittedNameValid | components/auth/profile-setup-form.tsx:37-41 | a validated name is handed on trimmed and at least 2 code units long |
| ProfileSetupForm.SubmittedPhoneValid | components/auth/profile-setup-form.tsx:44-50 | a validated phone is handed on trimmed and matching the pattern, or absent |
| ProfileSetupForm.SubmitDisabled | components/auth/profile-setup-form.tsx:149 | the button's `disabled` rule; `ButtonAgainstNameRule` relates it to the name rule |
| ProfileSetupForm.ButtonAgainstNameRule | components/auth/profile-setup-form.tsx:149 | a valid name always enables submit, and a name of one code unit after trimming also enables it yet fails as too short |
| ProfileSetupForm.ProfileSetupForm.constructor | components/auth/profile-setup-form.tsx:27-31 | the form starts empty and without errors |
| ProfileSetupForm.ProfileSetupForm.ValidateForm | components/auth/profile-setup-form.tsx:33-54 | the stored errors are each field's rule, and the result is true iff there is none |
| ProfileSetupForm.ProfileSetupForm.HandleInputChange | components/auth/profile-setup-form.tsx:56-66 | editing a field stores its value and clears only that field's error |
| ProfileSetupForm.ProfileSetupForm.HandleSubmit | components/auth/profile-setup-form.tsx:68-80 | `onComplete` gets the cleaned-up data iff validation records no error |
| ProfileSetupForm.ComposedShape | components/ui/phone-input.tsx:67-70 | a dial code plus a full group of digits has the pattern's shape for that group size |
| ProfileSetupForm.ComposedValue | components/auth/profile-setup-form.tsx:128-137 | the phone field reports "" without digits, otherwise dial code, space and grouped digits |
| ProfileSetupForm.PhoneErrorOfComposed | components/auth/profile-setup-form.tsx:44-50 | a value starting with '+' and ending in a digit is judged by the pattern alone |
| ProfileSetupForm.RuleAfterDialCode | components/auth/profile-setup-form.tsx:46 | the pattern as written takes exactly 11 characters after the dial code and space |
| ProfileSetupForm.CompleteNumbersShape | components/ui/phone-input.tsx:95-104 | a complete number reported by the phone field has the country's 3-3-3 or 3-3-4 shape |
| ProfileSetupForm.CompleteNumbersPass | components/auth/profile-setup-form.tsx:46 | every complete reported number passes the corrected rule, and passes the rule as written iff its last group has 3 digits |
| ProfileSetupForm.PlusOneNeverValid | components/auth/profile-setup-form.tsx:46 | no number typed while US or CA is selected passes the rule as written |
| ProfileSetupForm.TableGroupings | components/ui/phone-input.tsx:95-100 | US and CA are exactly the 3-3-4 countries of the table, and both dial +1 |
| ProfileSetupForm.UsExampleRefused | components/auth/profile-setup-form.tsx:46 | 4155550123 typed for US shows "415 555 0123", is refused as written and accepted by the corrected rule |
| CreateOrgForm.SanitizeDomain | components/organization/create-organization-form.tsx:111 | the domain field holds only [a-z0-9] and is never longer than what was typed |
| CreateOrgForm.SanitizeDomainChar | components/organization/create-organization-form.tsx:111 | a character whose ASCII lower case is in [a-z0-9] is kept, lowercased; any other is dropped |
| CreateOrgForm.SanitizeDomainAppend | components/organization/create-organization-form.tsx:111 | the sanitiser works piece by piece, so kept characters stay in typing order |
| CreateOrgForm.SanitizeDomainIdempotent | components/organization/create-organization-form.tsx:111 | sanitising twice is sanitising once |
| CreateOrgForm.SanitizeDomainKeepsClean | components/organization/create-organization-form.tsx:111 | clean text passes the sanitiser unchanged |
| CreateOrgForm.SuggestDomain | components/organization/create-organization-form.tsx:36-39 | the suggestion is [a-z0-9] only, at most 20 long, and a prefix of the sanitised name |
| CreateOrgForm.DomainAfterNameChange | components/organization/create-organization-form.tsx:34-42 | a non-empty domain is never overwritten; the domain changes only to the suggestion for a new non-empty name, and always does when the domain is empty |
| CreateOrgForm.NameError | components/organization/create-organization-form.tsx:47-51 | "required" iff blank after trim; otherwise "too short" iff the untrimmed length, in UTF-16 code units, is below 2 |
| CreateOrgForm.SurrogatePairNameLength | components/organization/create-organization-form.tsx:49 | one character above U+FFFF counts 2 and passes the name rule |
| CreateOrgForm.DomainError | components/organization/create-organization-form.tsx:53-59 | the checks in order, one message: blank, then outside [a-z0-9], then shorter than 3; none iff [a-z0-9] of length >= 3 |
| CreateOrgForm.LowerAlnumNotBlank | components/organization/create-organization-form.tsx:53-55 | non-empty [a-z0-9] text is never blank |
| CreateOrgForm.WithError | components/organization/create-organization-form.tsx:44-63 | a message is recorded under its key only when there is one |
| CreateOrgForm.Validate | components/organization/create-organization-form.tsx:44-63 | the error record holds the name's message under "name" and the domain's under "domain", and nothing else |
| CreateOrgForm.ValidateEmptyIff | components/organization/create-organization-form.tsx:61-62 | the record is empty iff both rules pass |
| CreateOrgForm.SanitizedDomainValid | components/organization/create-organization-form.tsx:55-59 | any sanitised domain or suggestion of length >= 3 passes every domain check |
| CreateOrgForm.ValidEnablesSubmit | components/organization/create-organization-form.tsx:134 | valid data never leaves the submit button disabled when not loading |
| CreateOrgForm.SubmitDisabled | components/organization/create-organization-form.tsx:134 | the button's `disabled` rule; `ValidEnablesSubmit` relates it to the rules |
| CreateOrgForm.UntrimmedNameLength | components/organization/create-organization-form.tsx:49 | the length check is on the untrimmed name: a space and one letter pass |
| CreateOrgForm.CreateOrganizationForm.constructor | components/organization/create-organization-form.tsx:26-31 | empty name and domain, property management, no errors |
| CreateOrgForm.CreateOrganizationForm.UpdateName | components/organization/create-organization-form.tsx:34-42 | the name is stored and the domain follows the suggestion rule |
| CreateOrgForm.CreateOrganizationForm.UpdateDomain | components/organization/create-organization-form.tsx:111 | the domain field stores the sanitised text |
| CreateOrgForm.CreateOrganizationForm.UpdateType | components/organization/create-organization-form.tsx:120 | choosing a type changes only the type |
| CreateOrgForm.AddNameError | components/organization/create-organization-form.tsx:47-51 | the name checks put the name rule's message under "name", and leave the record alone when the name passes |
| CreateOrgForm.AddDomainError | components/organization/create-organization-form.tsx:53-59 | the domain checks put the domain rule's message under "domain", and leave the record alone when the domain passes |
| CreateOrgForm.CreateOrganizationForm.ValidateForm | components/organization/create-organization-form.tsx:44-63 | the stored record is `Validate` of the form, true iff both rules pass |
| CreateOrgForm.CreateOrganizationForm.HandleSubmit | components/organization/create-organization-form.tsx:65-69 | `onSubmit` gets the form data unchanged, only when it validates |
| JoinOrgForm.SanitizeCode | components/organization/join-organization-form.tsx:49-53 | the code field keeps the first 6 digits of the text, in order: as many as there are, up to 6 |
| JoinOrgForm.SanitizeCodeIdempotent | components/organization/join-organization-form.tsx:49-53 | sanitising twice is sanitising once, and a clean code is kept |
| JoinOrgForm.CodeError | components/organization/join-organization-form.tsx:30-41 | no error iff the trimmed code is exactly 6 digits; "required" iff blank, otherwise "must be 6 digits" |
| JoinOrgForm.Validate | components/organization/join-organization-form.tsx:30-41 | the record holds the code's message under "invitationCode" or is empty |
| JoinOrgForm.DigitsAreTrimmed | components/organization/join-organization-form.tsx:35 | a digit string is its own trim |
| JoinOrgForm.ButtonAgreesWithRule | components/organization/join-organization-form.tsx:98 | for any code the field can hold, the button is enabled iff the code validates |
| JoinOrgForm.SubmitDisabled | components/organization/join-organization-form.tsx:98 | the button's `disabled` rule; `ButtonAgreesWithRule` relates it to the code rule |
| JoinOrgForm.JoinOrganizationForm.constructor | components/organization/join-organization-form.tsx:25-28 | the code starts empty with no errors |
| JoinOrgForm.JoinOrganizationForm.HandleInvitationCodeChange | components/organization/join-organization-form.tsx:49-53 | the field stores the sanitised code |
| JoinOrgForm.BuildRecord | components/organization/join-organization-form.tsx:30-38 | the checks build exactly the record `Validate` describes |
| JoinOrgForm.JoinOrganizationForm.ValidateForm | components/organization/join-organization-form.tsx:30-41 | the stored record is `Validate` of the code, true iff it validates |
| JoinOrgForm.JoinOrganizationForm.HandleSubmit | components/organization/join-organization-form.tsx:43-47 | `onSubmit` gets the code only when it is six digits |
| SetupMode.Next | components/organization/organization-setup.tsx:40-69 | an event offered on a screen always changes the mode; anything else leaves it |
| SetupMode.EnterJoin | components/organisation/organization-setup.tsx:161 | the join screen is reached only from choose, by its join button |
| SetupMode.EnterCreate | components/organisation/organization-setup.tsx:145 | the create screen is reached only from choose or, by "create instead" (line 350), from join |
| SetupMode.EnterChoose | components/organisation/organization-setup.tsx:198 | choose is reached only by Back (lines 198, 299) from create or join |
| SetupMode.CreateToJoinViaChoose | components/organisation/organization-setup.tsx:145-350 | there is no direct create-to-join step: every path from create to join passes through choose |
| OrganisationSetup.ErrorKeysDisjoint | components/organisation/organization-setup.tsx:61-93 | the create and join validators write disjoint keys into the shared record |
| OrganisationSetup.OrganisationSetup.constructor | components/organisation/organization-setup.tsx:39-48 | the screen starts on choose with empty forms and no errors |
| OrganisationSetup.OrganisationSetup.Press | components/organisation/organization-setup.tsx:145-350 | a mode button moves the mode as `Next` says and keeps both forms and the errors |
| OrganisationSetup.OrganisationSetup.ChangeName | components/organisation/organization-setup.tsx:51-59 | the name is stored and the domain follows the suggestion rule |
| OrganisationSetup.OrganisationSetup.ChangeDomain | components/organisation/organization-setup.tsx:228 | the domain stores the sanitised text |
| OrganisationSetup.OrganisationSetup.SelectType | components/organisation/organization-setup.tsx:245 | a type button changes only the type |
| OrganisationSetup.OrganisationSetup.SubmitCreate | components/organisation/organization-setup.tsx:95-99 | the record becomes the create rules' record (the name length counted in UTF-16 code units), with no code error; `onCreateOrganization` gets the form only when both rules pass |
| OrganisationSetup.OrganisationSetup.ChangeCode | components/organisation/organization-setup.tsx:318-321 | the code field stores at most six digits |
| OrganisationSetup.OrganisationSetup.SubmitJoin | components/organisation/organization-setup.tsx:101-105 | the record becomes the join rule's, with no name or domain error; `onJoinOrganization` gets the six-digit code only when it validates |
| OrganizationSetup.SelectorEvent | components/organization/organization-mode-selector.tsx:31-47 | each selector button is offered on choose and leads to its mode |
| OrganizationSetup.OrganizationSetup.constructor | components/organization/organization-setup.tsx:29 | the mode starts at choose |
| OrganizationSetup.OrganizationSetup.SelectMode | components/organization/organization-setup.tsx:45 | from choose the selector moves to create or join |
| OrganizationSetup.OrganizationSetup.Back | components/organization/organization-setup.tsx:54-64 | Back from create or join returns to choose |
| OrganizationSetup.OrganizationSetup.CreateInstead | components/organization/organization-setup.tsx:65 | "create instead" moves join to create |
| Org.AppUrl | components/organization/org-dashboard.tsx:69-76 | hotels open stay.tobiira.io, every other type one.tobiira.io |
| Org.AppName | components/organization/simple-org-dashboard.tsx:50-57 | hotels are "Tobiira Stay", every other type "Tobiira One" |
| Org.AppNameMatchesUrl | components/organization/simple-org-dashboard.tsx:50-57 | the app name and the app URL agree for every type |
| Org.MemberNoun | components/organization/org-dashboard.tsx:119 | "member" exactly for a count of 1, "members" otherwise |
| Org.FilterMembers | components/organization/simple-org-dashboard.tsx:69-73 | the result is a subsequence of the members, all matching the query, and contains every match |
| Org.FilterMembersEmptyQuery | components/organization/simple-org-dashboard.tsx:69-73 | an empty search lists every member |
| Org.CanManageIff | components/organization/google-drive-style-dashboard.tsx:53-54 | the user can manage iff the first member with their id is an owner or an admin |
| Org.CanManage | components/organization/google-drive-style-dashboard.tsx:53-54 | `canManage` as written; `CanManageIff` states when it holds |
| Org.OutsiderCannotManage | components/organization/google-drive-style-dashboard.tsx:53-54 | a user who is not a member can never manage |
| Org.MemberMenuRule | components/organization/google-drive-style-dashboard.tsx:298 | a member row has a menu iff the user can manage and the row is not the user's own |
| OrgDashboard.ActiveMembers | components/organization/org-dashboard.tsx:87 | the active members, in order, and all of them |
| OrgDashboard.CountRole | components/organization/org-dashboard.tsx:88-91 | the number of members with a role, at most the member count |
| OrgDashboard.CountRoleSnoc | components/organization/org-dashboard.tsx:88-91 | appending a member adds one to its role's count only |
| OrgDashboard.TallyCounts | components/organization/org-dashboard.tsx:88-91 | the `reduce` fold has a key exactly for the present roles, and its count is the role count |
| OrgDashboard.Tally | components/organization/org-dashboard.tsx:88-91 | the `reduce` fold as written; `TallyCounts` states its entries |
| OrgDashboard.MembersByRole | components/organization/org-dashboard.tsx:88-91 | the fold over the active members; `MembersByRoleCounts` states its entries |
| OrgDashboard.RoleCountsSum | components/organization/org-dashboard.tsx:88-91 | the four role counts add up to the member count |
| OrgDashboard.MembersByRoleCounts | components/organization/org-dashboard.tsx:87-91 | the per-role stats sum to the active count, list a role iff it has an active member, and count each role's active members |
| OrgDashboard.InactiveNotTallied | components/organization/org-dashboard.tsx:87-91 | with no active member the stats are empty |
| OrgDashboard.IsOwnerOrAdminIff | components/organization/org-dashboard.tsx:48-49 | the user is owner or admin iff the first member with their id has one of those roles |
| OrgDashboard.IsOwnerOrAdmin | components/organization/org-dashboard.tsx:48-49 | `isOwnerOrAdmin` as written; `IsOwnerOrAdminIff` states when it holds |
| OrgDashboard.HeaderNoun | components/organization/org-dashboard.tsx:119 | the header says "member" exactly for one active member |
| OrgDashboard.JoinedLine | components/organization/org-dashboard.tsx:228-233 | the "joined" line shows iff there are 2 or more members, counting all but one, with the matching noun |
| OrgDashboard.JoinedLineCountsInactive | components/organization/org-dashboard.tsx:228-233 | the joined line depends only on the member count, inactive members included |
| OrgDashboard.QuickActions | components/organization/org-dashboard.tsx:137-169 | "view members" is always offered; invite and settings iff the user is owner or admin |
| OrgDashboard.InviteNeedsPermission | components/organization/org-dashboard.tsx:282 | the members tab's invite button shows iff invite is a quick action |
| GoogleDriveDashboard.FilteredData | components/organization/google-drive-style-dashboard.tsx:79-98 | each tab lists its own kind of row; properties match on name, address or type, members through the member filter; the account tab lists nothing |
| GoogleDriveDashboard.EmptyQueryListsAll | components/organization/google-drive-style-dashboard.tsx:79-98 | an empty search lists every property or member |
| GoogleDriveDashboard.EmptyStateFor | components/organization/google-drive-style-dashboard.tsx:136-159 | the empty state offers its tab's action iff there is no search and the user can manage; the title says "found" under a search, "yet" otherwise |
| GoogleDriveDashboard.RenderContent | components/organization/google-drive-style-dashboard.tsx:161-239 | the account tab shows its panel; other tabs show the empty state iff the filtered list is empty, and the rows otherwise |
| GoogleDriveDashboard.EmptyStateActionNeedsManager | components/organization/google-drive-style-dashboard.tsx:136-159 | an empty-state action is only ever shown to a manager |
| GoogleDriveDashboard.MembersEmptyStateNeverInvites | components/organization/google-drive-style-dashboard.tsx:145-150 | the members tab's "Invite Member" empty-state action can never show: a manager is a member, so an unsearched list is not empty |
| GoogleDriveDashboard.PropertiesEmptyStateOffersAdd | components/organization/google-drive-style-dashboard.tsx:136-143 | a manager with no properties is offered "Add Property" |
| GoogleDriveDashboard.RowMenus | components/organization/google-drive-style-dashboard.tsx:259-298 | a member row menu implies property menus; the user's own row never has one; a manager sees every other row's menu |
| GoogleDriveDashboard.Fab | components/organization/google-drive-style-dashboard.tsx:347-349 | the floating button shows iff the user can manage and the tab is not account; it adds a property or invites a member by tab |
| GoogleDriveDashboard.FabAgreesWithEmptyState | components/organization/google-drive-style-dashboard.tsx:143-349 | an empty-state action is always the same as the floating button's |
| SimpleOrgDashboard.FilteredMembersSpec | components/organization/simple-org-dashboard.tsx:69-73 | a member is listed iff it matches the search, in the original order; an empty search lists everyone |
| SimpleOrgDashboard.HeaderLabel | components/organization/simple-org-dashboard.tsx:90 | the header counts every member, singular exactly for one |
| SimpleOrgDashboard.EmptyView | components/organization/simple-org-dashboard.tsx:123-137 | the empty note shows iff nothing matches, says "found" under a search, and offers "Invite First Member" iff unsearched and the user can invite |
| SimpleOrgDashboard.InviteFirstNeverShown | components/organization/simple-org-dashboard.tsx:129-135 | the "Invite First Member" button can never show: a user who can invite is a member, so an unsearched list is not empty |
| OrganizationList.FilterOrganizations | components/organization/organization-list.tsx:56-60 | the listed organisations are the matching ones, in order, all of them |
| OrganizationList.EmptyQueryKeepsAll | components/organization/organization-list.tsx:56-60 | an empty search lists every organisation |
| OrganizationList.RowFor | components/organization/organization-list.tsx:83-102 | a row is marked current iff its id is the current organisation's, links the type's app, and says "member" exactly for one |
| OrganizationList.Render | components/organization/organization-list.tsx:62-72 | the empty list shows iff nothing matches ("found" under a search, "yet" otherwise); otherwise one row per match in order |
| OrganizationList.AtMostOneCurrent | components/organization/organization-list.tsx:83-96 | with distinct ids, at most one row is marked current |
| OrganizationList.LaunchLink | components/organization/organization-list.tsx:134 | the launch link opens the type's app dashboard, stay.tobiira.io exactly for hotels |
| AccountSettings.Ids | components/accounts/account-settings.tsx:21-64 | one id per setting, in table order |
| AccountSettings.SettingsTable | components/accounts/account-settings.tsx:21-64 | the table holds profile, security, notifications, preferences, billing and privacy, in that order |
| AccountSettings.FilterSettings | components/accounts/account-settings.tsx:66-69 | the listed settings are the ones whose title or description matches, in order, all of them |
| AccountSettings.IdNotSearched | components/accounts/account-settings.tsx:66-69 | the search looks only at the title and description |
| AccountSettings.EmptyQueryListsAll | components/accounts/account-settings.tsx:66-69 | an empty search lists all six settings |
| AccountSettings.NoSettingsFoundIff | components/accounts/account-settings.tsx:89 | "No settings found" shows iff no setting matches |
| AccountSettings.Clicks | components/accounts/account-settings.tsx:101 | a click on a listed setting reports its id with "edit" |
| Text.KeepDigitsChar | components/organization/join-organization-form.tsx:51 | `replace(/\D/g, '')` keeps a digit and drops any other character |
| Text.KeepDigitsAppend | components/organization/join-organization-form.tsx:51 | the digit filter works piece by piece, so digits keep their order |
| Text.KeepLowerAlnumChar | components/organization/create-organization-form.tsx:111 | `replace(/[^a-z0-9]/g, '')` keeps a character of [a-z0-9] and drops any other |
| Text.KeepLowerAlnumAppend | components/organization/create-organization-form.tsx:111 | that filter works piece by piece too |
| Text.Utf16Length | components/auth/profile-setup-form.tsx:39 | `length` counts UTF-16 code units: between one and two per character, one each exactly when no character is above U+FFFF |
| Input.CollapseWhitespace | components/ui/input.tsx:27 | `replace(/\s+/g, '-')` leaves no whitespace, keeps whitespace-free text, and never lengthens |
| Input.CollapseRun | components/ui/input.tsx:27 | a whole whitespace run becomes a single '-' |
| Input.CollapseKeepsWords | components/ui/input.tsx:27 | the words around a run are kept and joined by one '-' |
| Input.Slug | components/ui/input.tsx:27 | a label's slug has no whitespace |
| Input.InputId | components/ui/input.tsx:27 | a non-empty id wins; otherwise the label's slug, and no id without a label |
| Input.DerivedIdHasNoWhitespace | components/ui/input.tsx:27 | an id derived from the label contains no whitespace |
| Input.ShownMessage | components/ui/input.tsx:76-88 | the error text wins over the helper text, and neither shows when both are absent or empty |

## Left out

- Rendering, styling, icons, colour lookups and the per-role stat labels are not modelled. They hold nothing to state.
- DOM plumbing is not modelled: focus calls on refs, the document mousedown listener (only its effect, `ClickOutside`, is kept) and `useEffect` scheduling. Each handler or effect is one sequential step on the state it reads.
- Timers are not modelled. The countdown is stepped by `ResendCode.ResendCode.Tick`.
- Asynchronous callbacks are not modelled; their outcomes are parameters or results. The same goes for the forwarding of submissions by components/organization/organization-setup.tsx:31-37: those two functions only await the parent callback with the data they receive.
- The child forms of components/organization/organization-setup.tsx are unmounted when the mode changes, so their typed data is lost. The model keeps only the mode of that screen.
- `toLowerCase` is modelled on ASCII letters only. Unicode case folding is not modelled.
- `\s` and `trim` are modelled as the ECMAScript white-space and line-terminator set.
- The regular expressions are written as character-class predicates. No general regex engine is modelled.
- Strings are sequences of Unicode characters, while JavaScript's `length` counts UTF-16 code units. The name rules (`ProfileSetupForm.NameError`, `CreateOrgForm.NameError`, and through it `OrganisationSetup.OrganisationSetup.SubmitCreate`) count code units with `Text.Utf16Length`. Every other length the model compares is taken of digits or of [a-z0-9] text, where the two counts agree.
- MaskShort (`OtpForm.MaskShort`): the model compares the username's length in characters with 2, while `username.length` counts UTF-16 code units. A username of two characters, at least one of them above U+FFFF, is 3 or 4 code units long, so the source masks it, while the model leaves it alone.
- MaskLong (`OtpForm.MaskLong`): the source masks by UTF-16 code unit, so for a username whose first or last character is above U+FFFF it keeps half a surrogate pair. A character in this model cannot be split, so the masking is stated only by whole characters. The model and the source agree on usernames without characters above U+FFFF.
- MaskEmail (`OtpForm.MaskEmail`): the same two limits as `MaskShort` and `MaskLong` apply to every lemma about the mask.
- MountKeepsComposedValue (`PhoneInput.MountKeepsComposedValue`): in the source, the mount effect and the sync effect run in the same commit, and the sync effect reads the state from before the parse. So a non-empty `value` first gets `onChange("")` (`PhoneInput.MountSyncSeesEmptyNumber`), and the composed value is sent again only on a later render. The class runs `ParseOnMount` and `SyncParent` as separate steps on the updated state, and what the parent does with the "" is not modelled.
- OtpInput.OtpInput.constructor: it requires `length >= 1`. The component does not check this, but with no cells there is no cell to type into.
- The dashboards' unused record fields are not modelled: joined dates, categories, the tab state, icons and descriptions.
- `maskEmail` on an address without '@' shows "@undefined". The model states results only for addresses with one '@' or a short username; the email form never lets other addresses through.
- The profile form keeps the phone rule as written (`ProfileSetupForm.ValidPhone`), so that it matches the code. The corrected rule is stated beside it; see Findings.

## Findings

| source | as written | input that shows it | evidently intended | confidence | as-written member | corrected member |
|---|---|---|---|---|---|---|
| components/auth/profile-setup-form.tsx:46 | the phone pattern requires a last group of 3 digits, but the phone field formats US and CA numbers 3-3-4 (components/ui/phone-input.tsx:98-100), so no number typed while US or CA is selected can pass (a number typed under another country and switched to +1 afterwards keeps its 3-3-3 grouping and is not covered) | US, typed 4155550123, reported as "+1 415 555 0123" and refused | accept the 3-3-4 grouping the phone field produces: a last group of 3 or 4 digits | high, not executed | ProfileSetupForm.PlusOneNeverValid | ProfileSetupForm.CompleteNumbersPass |
