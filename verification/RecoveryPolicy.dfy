/** Failure kind to terminal/retry decision, wait class and availability horizon. */
module RecoveryPolicy {
  import opened Wrappers
  import opened CandidateAvailability

  /** `retryAfterMs` and `resetsAtMs` are None when absent or not usable as a number. */
  datatype Failure =
    | Overloaded
    | AuthFailure
    | CapabilityMismatch
    | RateLimit(retryAfterMs: Option<int>, resetsAtMs: Option<int>)
    | Transient
    | TimeoutFailure
    | ProtocolError
    | ContentPolicy
    | InputContextExhausted
    | OutputTokenLimitExceeded
    | LocalSetupError
    | ParseError
    | Cancelled
    | Unknown

  datatype FailureDecision =
    | Terminal(block: Option<Decision>)
    | RetryRateLimited(availability: Decision)
    | RetryOverloaded(retryDelayMs: int, availability: Decision)
    | RetryStandard(retryDelayMs: int, block: Option<Decision>)

  function Max(a: int, b: int): int { if a >= b then a else b }

  function Min(a: int, b: int): int { if a <= b then a else b }

  function RateLimitHorizon(
    retryAfterMs: Option<int>, resetsAtMs: Option<int>, recoveryDelayMs: int, nowMs: int): (untilMs: int)
    ensures untilMs > nowMs
    ensures retryAfterMs.Some? && retryAfterMs.value > 0 ==> untilMs == nowMs + retryAfterMs.value
    ensures !(retryAfterMs.Some? && retryAfterMs.value > 0) && resetsAtMs.Some? && resetsAtMs.value > nowMs ==>
              untilMs == resetsAtMs.value
    ensures nowMs >= 0 && (retryAfterMs.Some? ==> retryAfterMs.value <= 0) && (resetsAtMs.Some? ==> resetsAtMs.value <= nowMs) ==>
              untilMs == nowMs + Max(recoveryDelayMs, 60_000)
  {
    var stated :=
      if retryAfterMs.Some? && retryAfterMs.value > 0 then nowMs + retryAfterMs.value
      else if resetsAtMs.Some? && resetsAtMs.value > nowMs then resetsAtMs.value
      else 0;
    if stated <= nowMs then nowMs + Max(recoveryDelayMs, 60_000) else stated
  }

  function Cooldown(reason: Reason, recoveryDelayMs: int, nowMs: int): Decision {
    Decision(Cooling, nowMs + Max(recoveryDelayMs, 5_000), Some(reason))
  }

  function DecideFailure(
    failure: Failure, recoveryDelayMs: int, overloadDelayMs: int, nowMs: int): FailureDecision
  {
    match failure
    case Overloaded =>
      RetryOverloaded(overloadDelayMs, Decision(Cooling, nowMs + overloadDelayMs, Some(ServerOverloaded)))
    case AuthFailure =>
      Terminal(Some(Decision(BlockedUntil, nowMs + 3_600_000, Some(AuthPermanent))))
    case CapabilityMismatch => Terminal(None)
    case RateLimit(after, resets) =>
      RetryRateLimited(
        Decision(BlockedUntil, RateLimitHorizon(after, resets, recoveryDelayMs, nowMs), Some(RateLimited)))
    case Transient => RetryStandard(recoveryDelayMs, Some(Cooldown(ServerTransient, recoveryDelayMs, nowMs)))
    case TimeoutFailure => RetryStandard(recoveryDelayMs, Some(Cooldown(TimedOut, recoveryDelayMs, nowMs)))
    case ProtocolError => Terminal(None)
    case ContentPolicy => Terminal(None)
    case InputContextExhausted => Terminal(None)
    case OutputTokenLimitExceeded => Terminal(None)
    case LocalSetupError => Terminal(None)
    case ParseError => RetryStandard(recoveryDelayMs, None)
    case Cancelled => Terminal(None)
    case Unknown => RetryStandard(recoveryDelayMs, Some(Cooldown(UnknownFailure, recoveryDelayMs, nowMs)))
  }

  /** The block a failure puts in the shared store. */
  function DecisionBlock(d: FailureDecision): Option<Decision> {
    match d
    case Terminal(b) => b
    case RetryRateLimited(a) => Some(a)
    case RetryOverloaded(_, a) => Some(a)
    case RetryStandard(_, b) => b
  }

  /** The due time a retry decision sets. */
  function RetryUntil(d: FailureDecision, nowMs: int): int
    requires !d.Terminal?
  {
    match d
    case RetryRateLimited(a) => a.untilMs
    case RetryOverloaded(delayMs, _) => nowMs + delayMs
    case RetryStandard(delayMs, _) => nowMs + delayMs
  }

  /** A retry is always due in the future, and the block its failure put in the store is over by then
      exactly when the recovery delay covers the minimal cooldown (or the failure does not use it). */
  lemma OwnBlockIsOverWhenDue(failure: Failure, recoveryDelayMs: int, overloadDelayMs: int, nowMs: int)
    requires recoveryDelayMs > 0 && overloadDelayMs > 0
    ensures var d := DecideFailure(failure, recoveryDelayMs, overloadDelayMs, nowMs);
            var block := DecisionBlock(d);
            !d.Terminal? ==>
              && RetryUntil(d, nowMs) > nowMs
              && ((block.Some? ==> block.value.untilMs <= RetryUntil(d, nowMs)) <==>
                  recoveryDelayMs >= 5_000 || failure in {Overloaded, ParseError} || failure.RateLimit?)
  {
  }
}
