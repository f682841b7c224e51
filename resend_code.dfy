/**
 * The "resend code" control: a countdown in seconds and a loading flag. The
 * one-second timer is an explicit `Tick`; the awaited `onResend` call is split
 * into the step that starts it and the step that sees its outcome.
 */
module ResendCode {

  /** The default of the `initialDelay` prop, in seconds. */
  const DefaultDelay: int := 60

  /** What one timer tick does to the countdown. */
  function TickValue(t: int): int {
    if t > 0 then t - 1 else t
  }

  /** The countdown after `k` ticks. */
  function AfterTicks(t: int, k: nat): int {
    if k == 0 then t else AfterTicks(TickValue(t), k - 1)
  }

  /** `canResend`: the button is enabled. */
  predicate CanResend(timeLeft: int, loading: bool, disabled: bool) {
    timeLeft == 0 && !loading && !disabled
  }

  /** The guard at the top of `handleResend`: whether a click calls `onResend`. */
  predicate ResendAllowed(timeLeft: int, loading: bool, disabled: bool) {
    !(timeLeft > 0 || loading || disabled)
  }

  /** The button is rendered (instead of the countdown text) only once the countdown is over. */
  predicate ShowsButton(timeLeft: int) {
    !(timeLeft > 0)
  }

  /** Ticks count down by one to zero and then stop: from a non-negative start `t`,
      after `k` ticks the countdown reads `t - k`, or 0 once `k >= t`. */
  lemma {:induction false} AfterTicksValue(t: int, k: nat)
    requires t >= 0
    ensures AfterTicks(t, k) == if k <= t then t - k else 0
  {
    if k > 0 {
      AfterTicksValue(TickValue(t), k - 1);
    }
  }

  /** A negative countdown never moves. */
  lemma {:induction false} AfterTicksNegative(t: int, k: nat)
    requires t < 0
    ensures AfterTicks(t, k) == t
  {
    if k > 0 {
      AfterTicksNegative(t, k - 1);
    }
  }

  /** After `initialDelay` ticks with nothing in flight, an enabled control can resend;
      one tick earlier it cannot. */
  lemma CountdownEnablesResend(initialDelay: nat)
    ensures CanResend(AfterTicks(initialDelay, initialDelay), false, false)
    ensures initialDelay > 0 ==> !CanResend(AfterTicks(initialDelay, initialDelay - 1), false, false)
  {
    AfterTicksValue(initialDelay, initialDelay);
    if initialDelay > 0 {
      AfterTicksValue(initialDelay, initialDelay - 1);
    }
  }

  /** Whenever the button is enabled a click goes through, and the button is on screen. */
  lemma EnabledButtonResends(timeLeft: int, loading: bool, disabled: bool)
    requires CanResend(timeLeft, loading, disabled)
    ensures ResendAllowed(timeLeft, loading, disabled) && ShowsButton(timeLeft)
  {
  }

  /** The handler's guard and the button's enabled state differ only on a negative
      countdown, which arises only from a negative `initialDelay`. */
  lemma GuardAgreesWithButton(timeLeft: int, loading: bool, disabled: bool)
    requires timeLeft >= 0
    ensures ResendAllowed(timeLeft, loading, disabled) <==> CanResend(timeLeft, loading, disabled)
  {
  }

  class ResendCode {
    /** The `initialDelay` prop. */
    const initialDelay: int
    /** The `timeLeft` state, in seconds. */
    var timeLeft: int
    /** The `loading` state: an `onResend` call is in flight. */
    var loading: bool

    /** From a non-negative delay the countdown stays between 0 and the delay;
        from a negative one it stays where it started. */
    ghost predicate Valid()
      reads this
    {
      && (initialDelay >= 0 ==> 0 <= timeLeft <= initialDelay)
      && (initialDelay < 0 ==> timeLeft == initialDelay)
    }

    constructor (initialDelay: int := DefaultDelay)
      ensures Valid()
      ensures this.initialDelay == initialDelay && timeLeft == initialDelay && !loading
    {
      this.initialDelay := initialDelay;
      timeLeft := initialDelay;
      loading := false;
    }

    /** The timer effect firing once. */
    method Tick()
      requires Valid()
      modifies this
      ensures Valid()
      ensures timeLeft == TickValue(old(timeLeft)) && loading == old(loading)
    {
      if timeLeft > 0 {
        timeLeft := timeLeft - 1;
      }
    }

    /** A click on the button, up to the `await`: returns whether `onResend` is called. */
    method StartResend(disabled: bool) returns (called: bool)
      requires Valid()
      modifies this
      ensures Valid()
      ensures called == ResendAllowed(old(timeLeft), old(loading), disabled)
      ensures timeLeft == old(timeLeft)
      ensures loading == (old(loading) || called)
    {
      if timeLeft > 0 || loading || disabled {
        return false;
      }
      loading := true;
      called := true;
    }

    /** The rest of `handleResend` once `onResend` has settled: success restarts the
        countdown, failure leaves it; either way loading ends. */
    method FinishResend(succeeded: bool)
      requires Valid()
      modifies this
      ensures Valid()
      ensures timeLeft == if succeeded then initialDelay else old(timeLeft)
      ensures !loading
    {
      if succeeded {
        timeLeft := initialDelay;
      }
      loading := false;
    }
  }
}
