/**
 * The code-entry step of sign-in: the masked address shown to the user, the
 * record of the completed code, and the manual verify button.
 */
module OtpForm {
  import opened Wrappers
  import opened Text
  import EmailForm
  import OtpInput

  datatype AuthMode = Login | Register

  /** `email.split('@')[0]`: the text before the first '@'. */
  function Username(email: string): (u: string)
    ensures |u| <= |email| && '@' !in u && u == email[..|u|]
    ensures |u| < |email| ==> email[|u|] == '@'
    ensures '@' !in email ==> u == email
  {
    match IndexOf(email, '@')
    case None => email
    case Some(i) => email[..i]
  }

  /** `email.split('@')[1]`: the text between the first and the second '@', or
      `undefined` when there is no '@'. */
  function DomainPart(email: string): Option<string> {
    match IndexOf(email, '@')
    case None => None
    case Some(i) => Some(Username(email[i + 1..]))
  }

  function Stars(n: nat): (r: string)
    ensures |r| == n && forall i :: 0 <= i < n ==> r[i] == '*'
  {
    seq(n, _ => '*')
  }

  /** `maskEmail`: a username of more than two characters keeps its first and last
      character with '*' in between; the domain follows after '@' (an absent domain
      prints as "undefined", as a template literal does). */
  function MaskEmail(email: string): string {
    var u := Username(email);
    if |u| <= 2 then email
    else [u[0]] + Stars(|u| - 2) + [u[|u| - 1]] + "@" + DomainPart(email).GetOr("undefined")
  }

  /** The masked form of a username of more than two characters. */
  predicate MaskOf(m: string, u: string) {
    && |m| == |u| && |u| > 2
    && m[0] == u[0] && m[|m| - 1] == u[|u| - 1]
    && forall i :: 0 < i < |m| - 1 ==> m[i] == '*'
  }

  /** An address with exactly one '@' is its username, '@', and its whole domain. */
  lemma OneAtSplit(e: string)
    requires CountChar(e, '@') == 1
    ensures var at := |Username(e)|;
      && at < |e| && e[at] == '@'
      && e == Username(e) + "@" + e[at + 1..]
      && '@' !in e[at + 1..]
      && DomainPart(e) == Some(e[at + 1..])
  {
    var at := IndexOf(e, '@').value;
    EmailForm.SingleAt(e, at);
    SplitAround(e, at);
  }

  /** A short username leaves the address unchanged. */
  lemma MaskShort(e: string)
    requires |Username(e)| <= 2
    ensures MaskEmail(e) == e
  {
  }

  /** The username of "<m>@<d>" is `m` when `m` has no '@'. */
  lemma UsernameOfJoin(m: string, d: string)
    requires '@' !in m
    ensures Username(m + "@" + d) == m
  {
    var x := m + "@" + d;
    assert x[|m|] == '@';
    assert x[..|m|] == m;
    IndexOfFirst(x, '@', |m|);
  }

  /** Masking a long username: the result starts with a username of the same length that
      keeps the first and last character and is '*' in between, followed by '@'. */
  lemma MaskLong(e: string)
    requires |Username(e)| > 2
    ensures var m := Username(MaskEmail(e));
      && MaskOf(m, Username(e))
      && MaskEmail(e) == m + "@" + DomainPart(e).GetOr("undefined")
  {
    var u := Username(e);
    var stars := Stars(|u| - 2);
    var m := [u[0]] + stars + [u[|u| - 1]];
    assert MaskOf(m, u) by {
      forall i | 0 < i < |m| - 1 ensures m[i] == '*' {
        assert m[i] == stars[i - 1];
      }
    }
    assert '@' !in m by {
      assert u[0] in u && u[|u| - 1] in u;
      forall i | 0 <= i < |m| ensures m[i] != '@' {
        if 0 < i < |m| - 1 { assert m[i] == stars[i - 1]; }
      }
    }
    UsernameOfJoin(m, DomainPart(e).GetOr("undefined"));
  }

  /** For an address with exactly one '@', masking keeps the length, the single '@'
      and the domain verbatim. */
  lemma MaskOneAt(e: string)
    requires CountChar(e, '@') == 1
    ensures |MaskEmail(e)| == |e|
    ensures CountChar(MaskEmail(e), '@') == 1
    ensures DomainPart(MaskEmail(e)) == DomainPart(e)
  {
    OneAtSplit(e);
    var u := Username(e);
    if |u| > 2 {
      MaskLong(e);
      var m := Username(MaskEmail(e));
      var d := e[|u| + 1..];
      assert MaskEmail(e) == m + "@" + d;
      CountCharAppend(m + "@", d, '@');
      CountCharAppend(m, "@", '@');
      assert (m + "@" + d)[|m| + 1..] == d;
      IndexOfFirst(MaskEmail(e), '@', |m|);
      assert (m + "@" + d)[|m|] == '@';
      assert MaskEmail(e)[|m| + 1..] == d;
      assert Username(d) == d;
    }
  }

  /** Masking is idempotent on addresses with exactly one '@'. */
  lemma MaskIdempotent(e: string)
    requires CountChar(e, '@') == 1
    ensures MaskEmail(MaskEmail(e)) == MaskEmail(e)
  {
    var u := Username(e);
    if |u| > 2 {
      MaskLong(e);
      MaskOneAt(e);
      var me := MaskEmail(e);
      var m := Username(me);
      MaskLong(me);
      var mm := Username(MaskEmail(me));
      assert mm == m;
    }
  }

  /** An address the sign-in form accepts is shown as its (possibly masked) username,
      '@', and its domain exactly as typed. */
  lemma MaskAcceptedAddress(e: string)
    requires EmailForm.ValidateEmail(e)
    ensures MaskEmail(e) == Username(MaskEmail(e)) + "@" + e[|Username(e)| + 1..]
  {
    EmailForm.EmailAcceptedIff(e);
    OneAtSplit(e);
    if |Username(e)| > 2 {
      MaskLong(e);
    } else {
      OneAtSplit(e);
    }
  }

  /** The page copy for each mode (`getContent`). */
  datatype Content = Content(title: string, subtitle: string, instruction: string)

  function GetContent(mode: AuthMode): (c: Content)
    ensures c.subtitle == "We sent a 6-digit verification code to"
  {
    if mode == Login then
      Content("Check your email", "We sent a 6-digit verification code to",
              "Enter the code below to sign in to your account")
    else
      Content("Verify your email", "We sent a 6-digit verification code to",
              "Enter the code below to complete your account setup")
  }

  /** The two modes share the subtitle and differ in title and instruction. */
  lemma ContentPerMode()
    ensures GetContent(Login).subtitle == GetContent(Register).subtitle
    ensures GetContent(Login).title != GetContent(Register).title
    ensures GetContent(Login).instruction != GetContent(Register).instruction
  {
    assert GetContent(Login).title[0] != GetContent(Register).title[0];
    assert GetContent(Login).instruction[24] != GetContent(Register).instruction[24];
  }

  /** The manual verify button is rendered only for a recorded code of six characters. */
  predicate ShowsVerifyButton(otp: string) {
    |otp| == 6
  }

  /** A code the six-cell entry reports as complete (every cell holding one digit) brings
      up the manual verify button once it is recorded. */
  lemma CompletedCodeShowsButton(cells: seq<string>)
    requires |cells| == 6 && OtpInput.AllCells(cells) && OtpInput.AllFilled(cells)
    ensures ShowsVerifyButton(OtpInput.Join(cells))
  {
    OtpInput.JoinFilled(cells);
  }

  function VerifyLabel(mode: AuthMode): (text: string)
    ensures mode == Login ==> text == "Sign In"
    ensures mode == Register ==> text == "Complete Setup"
  {
    if mode == Login then "Sign In" else "Complete Setup"
  }

  class OtpForm {
    /** The `otp` state: the last completed code. */
    var otp: string

    constructor ()
      ensures otp == ""
    {
      otp := "";
    }

    /** `handleOTPComplete`: records the code and forwards exactly it to `onVerify`. */
    method HandleOtpComplete(code: string) returns (verified: string)
      modifies this
      ensures otp == code && verified == code
    {
      otp := code;
      verified := code;
    }

    /** A click on the manual verify button, which is only there for a six-character code:
        the recorded code is passed to `onVerify` again. */
    method PressVerify() returns (verified: string)
      requires ShowsVerifyButton(otp)
      modifies this
      ensures otp == old(otp) && verified == old(otp)
    {
      verified := HandleOtpComplete(otp);
    }
  }
}
