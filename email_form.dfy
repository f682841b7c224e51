/**
 * The e-mail step of sign-in: the address pattern, the submit handler with
 * its error precedence, and clearing the error on typing.
 */
module EmailForm {
  import opened Wrappers
  import opened Text

  const RequiredError := "Email is required"
  const InvalidError := "Please enter a valid email address"
  const SubmitFailedError := "Something went wrong. Please try again."

  /** `[^\s@]+`: one or more characters, none of them whitespace or '@'. */
  predicate PlainRun(s: string) {
    |s| >= 1 && forall i :: 0 <= i < |s| ==> !IsWhitespace(s[i]) && s[i] != '@'
  }

  /** The pattern matches `e` with its '@' at `at` and its literal '.' at `dot`. */
  predicate MatchesAt(e: string, at: int, dot: int) {
    && 0 <= at < dot < |e|
    && e[at] == '@' && e[dot] == '.'
    && PlainRun(e[..at]) && PlainRun(e[at + 1..dot]) && PlainRun(e[dot + 1..])
  }

  /** `validateEmail`: `/^[^\s@]+@[^\s@]+\.[^\s@]+$/.test(email)`. */
  predicate ValidateEmail(e: string) {
    exists at, dot | 0 <= at < dot < |e| :: MatchesAt(e, at, dot)
  }

  /** A '.' with at least one character on each side. */
  predicate HasInnerDot(d: string) {
    exists i :: 0 < i < |d| - 1 && d[i] == '.'
  }

  /** The address in plain words: no whitespace, exactly one '@', something before it,
      and after it a '.' with text on both sides. */
  predicate WellFormedAddress(e: string) {
    && NoWhitespace(e)
    && CountChar(e, '@') == 1
    && var at := IndexOf(e, '@').value;
       at > 0 && HasInnerDot(e[at + 1..])
  }

  /** With one '@' at `at`, the rest of the address has none. */
  lemma SingleAt(e: string, at: nat)
    requires at < |e| && e[at] == '@' && CountChar(e, '@') == 1
    ensures '@' !in e[..at] && '@' !in e[at + 1..]
  {
    assert e == e[..at] + [e[at]] + e[at + 1..];
    CountCharAppend(e[..at] + [e[at]], e[at + 1..], '@');
    CountCharAppend(e[..at], [e[at]], '@');
  }

  /** Every match of the pattern is a well-formed address. */
  lemma MatchIsWellFormed(e: string, at: int, dot: int)
    requires MatchesAt(e, at, dot)
    ensures WellFormedAddress(e)
  {
    var tail := e[at + 1..];
    assert tail == e[at + 1..dot] + ['.'] + e[dot + 1..];
    assert '@' !in e[..at];
    assert '@' !in tail;
    assert e == e[..at] + [e[at]] + tail;
    CountCharAppend(e[..at] + [e[at]], tail, '@');
    CountCharAppend(e[..at], [e[at]], '@');
    IndexOfFirst(e, '@', at);
    assert tail[dot - at - 1] == '.';
    forall i | 0 <= i < |e| ensures !IsWhitespace(e[i]) {
      if i < at { assert e[i] == e[..at][i]; }
      else if at < i < dot { assert e[i] == e[at + 1..dot][i - at - 1]; }
      else if i > dot { assert e[i] == e[dot + 1..][i - dot - 1]; }
    }
  }

  /** Every well-formed address matches the pattern, splitting at its '@' and a '.' after it. */
  lemma WellFormedMatches(e: string)
    requires WellFormedAddress(e)
    ensures ValidateEmail(e)
  {
    var at := IndexOf(e, '@').value;
    SingleAt(e, at);
    var d := e[at + 1..];
    var i :| 0 < i < |d| - 1 && d[i] == '.';
    var dot := at + 1 + i;
    assert e[at + 1..dot] == d[..i];
    assert e[dot + 1..] == d[i + 1..];
    forall k | 0 <= k < |d| ensures d[k] != '@' && !IsWhitespace(d[k]) {
      assert d[k] == e[at + 1 + k];
      assert d[k] in d;
    }
    forall k | 0 <= k < at ensures e[..at][k] != '@' {
      assert e[..at][k] in e[..at];
    }
    assert MatchesAt(e, at, dot);
  }

  /** The regular expression accepts exactly the well-formed addresses. */
  lemma EmailAcceptedIff(e: string)
    ensures ValidateEmail(e) <==> WellFormedAddress(e)
  {
    if ValidateEmail(e) {
      var at, dot :| 0 <= at < dot < |e| && MatchesAt(e, at, dot);
      MatchIsWellFormed(e, at, dot);
    }
    if WellFormedAddress(e) {
      WellFormedMatches(e);
    }
  }

  /** The error shown: the `error` prop when present, otherwise the form's own. */
  function CurrentError(externalError: string, localError: string): (shown: string)
    ensures externalError != "" ==> shown == externalError
    ensures externalError == "" ==> shown == localError
  {
    if externalError != "" then externalError else localError
  }

  /** The submit button is disabled for a blank address or while loading. */
  predicate SubmitDisabled(email: string, loading: bool) {
    IsBlank(email) || loading
  }

  /** An address the pattern accepts is never blank, so the button is enabled for it
      while nothing is loading. */
  lemma AcceptedEnablesSubmit(e: string)
    requires ValidateEmail(e)
    ensures !SubmitDisabled(e, false)
  {
    EmailAcceptedIff(e);
    assert !IsWhitespace(e[0]);
    BlankIffAllWhitespace(e);
  }

  class EmailForm {
    /** The `email` state: the text as typed. */
    var email: string
    /** The `error` state: the form's own message, "" for none. */
    var error: string

    constructor ()
      ensures email == "" && error == ""
    {
      email := "";
      error := "";
    }

    /** `handleEmailChange`: store the text and clear the error. */
    method HandleEmailChange(value: string)
      modifies this
      ensures email == value && error == ""
    {
      email := value;
      if error != "" {
        error := "";
      }
    }

    /** `handleSubmit`. `onSubmitThrows` is the outcome of the awaited `onSubmit`;
        the result is the address passed to it, if it is called. */
    method HandleSubmit(onSubmitThrows: bool) returns (submitted: Option<string>)
      modifies this
      ensures email == old(email)
      ensures IsBlank(email) ==> error == RequiredError && submitted == None
      ensures !IsBlank(email) && !ValidateEmail(email) ==> error == InvalidError && submitted == None
      ensures !IsBlank(email) && ValidateEmail(email) ==>
        submitted == Some(email) && error == if onSubmitThrows then SubmitFailedError else ""
    {
      if IsBlank(email) {
        error := RequiredError;
        return None;
      }
      if !ValidateEmail(email) {
        error := InvalidError;
        return None;
      }
      error := "";
      submitted := Some(email);
      if onSubmitThrows {
        error := SubmitFailedError;
      }
    }
  }

  /** Whatever reaches `onSubmit` is a well-formed address, so it is never blank. */
  lemma SubmittedIsWellFormed(e: string)
    requires ValidateEmail(e)
    ensures WellFormedAddress(e) && !IsBlank(e)
  {
    EmailAcceptedIff(e);
    BlankIffAllWhitespace(e);
    assert !IsWhitespace(e[0]);
  }
}
