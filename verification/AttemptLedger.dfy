/** What a turn's history says about each record, independently of the record's own fields. */
module AttemptLedger {
  import opened Wrappers
  import opened RecoveryPolicy
  import opened AdmittedExecution

  predicate AttemptOn(e: Event, i: nat) {
    e.Attempted? && e.index == i
  }

  predicate OverloadFailure(o: AttemptOutcome) {
    o.Failed? && o.failure.Overloaded?
  }

  function AttemptCount(log: seq<Event>): nat {
    if log == [] then 0
    else AttemptCount(log[..|log| - 1]) + if log[|log| - 1].Attempted? then 1 else 0
  }

  /** Attempts of the turn, on any record, that ended in server overload. */
  function OverloadCount(log: seq<Event>): nat {
    if log == [] then 0
    else
      var e := log[|log| - 1];
      OverloadCount(log[..|log| - 1]) + if e.Attempted? && OverloadFailure(e.outcome) then 1 else 0
  }

  /** All other attempts. */
  function FiniteCount(log: seq<Event>): (n: nat)
    ensures n + OverloadCount(log) == AttemptCount(log)
  {
    if log == [] then 0
    else FiniteCount(log[..|log| - 1]) + if FiniteAttempt(log[|log| - 1]) then 1 else 0
  }

  predicate FiniteAttempt(e: Event) {
    e.Attempted? && !OverloadFailure(e.outcome)
  }

  function AttemptsOn(log: seq<Event>, i: nat): nat {
    if log == [] then 0
    else AttemptsOn(log[..|log| - 1], i) + if AttemptOn(log[|log| - 1], i) then 1 else 0
  }

  function OverloadsOn(log: seq<Event>, i: nat): nat {
    if log == [] then 0
    else
      var e := log[|log| - 1];
      OverloadsOn(log[..|log| - 1], i) + if AttemptOn(e, i) && OverloadFailure(e.outcome) then 1 else 0
  }

  /** Attempts of record `i` that did not end in server overload. */
  function FiniteOn(log: seq<Event>, i: nat): (n: nat)
    ensures n + OverloadsOn(log, i) == AttemptsOn(log, i)
  {
    if log == [] then 0
    else
      var e := log[|log| - 1];
      FiniteOn(log[..|log| - 1], i) + if AttemptOn(e, i) && !OverloadFailure(e.outcome) then 1 else 0
  }

  /** Overload failures of record `i` since its last other attempt. */
  function Streak(log: seq<Event>, i: nat): nat {
    if log == [] then 0
    else
      var e := log[|log| - 1];
      var before := Streak(log[..|log| - 1], i);
      if !AttemptOn(e, i) then before
      else if OverloadFailure(e.outcome) then before + 1
      else 0
  }

  function PowerOfTwo(k: nat): nat {
    if k == 0 then 1 else 2 * PowerOfTwo(k - 1)
  }

  /** The delay after the k-th overload failure in a row. */
  function Backoff(k: nat): int
    requires k >= 1
  {
    Min(600_000, 30_000 * PowerOfTwo(k - 1))
  }

  lemma BackoffDoubles(k: nat)
    requires k >= 1
    ensures Backoff(k + 1) == Doubled(Backoff(k))
    ensures 30_000 <= Backoff(k) <= 600_000
    ensures Backoff(k) in {30_000, 60_000, 120_000, 240_000, 480_000, 600_000}
  {
    assert PowerOfTwo(k) == 2 * PowerOfTwo(k - 1);
    if k > 1 { BackoffDoubles(k - 1); }
  }

  /** When a failure settled at `settledMs` may be retried. */
  function DueAfter(failure: Failure, streak: nat, settledMs: int): int
    requires failure.Overloaded? ==> streak >= 1
  {
    match failure
    case Overloaded => settledMs + Backoff(streak)
    case RateLimit(after, resets) => RateLimitHorizon(after, resets, 60_000, settledMs)
    case _ => settledMs + 60_000
  }

  predicate Retryable(failure: Failure) {
    match failure
    case Overloaded => true
    case RateLimit(_, _) => true
    case Transient => true
    case TimeoutFailure => true
    case ParseError => true
    case Unknown => true
    case _ => false
  }

  predicate RetryableFailure(o: AttemptOutcome) {
    o.Failed? && Retryable(o.failure)
  }

  /** When record `i` may be attempted again, if its last attempt failed retryably. */
  function Due(log: seq<Event>, i: nat): Option<int> {
    if log == [] then None
    else
      var e := log[|log| - 1];
      if !AttemptOn(e, i) then Due(log[..|log| - 1], i)
      else if RetryableFailure(e.outcome) then Some(DueAfter(e.outcome.failure, Streak(log, i), e.settledMs))
      else None
  }

  function PayloadsOf(e: Event): seq<string> {
    if !e.Attempted? then []
    else
      match e.outcome
      case Succeeded(payloads) => payloads
      case Failed(ProviderAttempt, _, payloads) => payloads
      case _ => []
  }

  /** Every exchange payload the attempts of the turn settled, in order. */
  function Payloads(log: seq<Event>): seq<string> {
    if log == [] then []
    else Payloads(log[..|log| - 1]) + PayloadsOf(log[|log| - 1])
  }

  lemma Snoc(log: seq<Event>, e: Event, i: nat)
    ensures FiniteCount(log + [e]) == FiniteCount(log) + if FiniteAttempt(e) then 1 else 0
    ensures OverloadCount(log + [e]) == OverloadCount(log) + if e.Attempted? && OverloadFailure(e.outcome) then 1 else 0
    ensures AttemptsOn(log + [e], i) == AttemptsOn(log, i) + if AttemptOn(e, i) then 1 else 0
    ensures OverloadsOn(log + [e], i) == OverloadsOn(log, i) + if AttemptOn(e, i) && OverloadFailure(e.outcome) then 1 else 0
    ensures FiniteOn(log + [e], i) == FiniteOn(log, i) + if AttemptOn(e, i) && !OverloadFailure(e.outcome) then 1 else 0
    ensures Streak(log + [e], i) ==
            if !AttemptOn(e, i) then Streak(log, i)
            else if OverloadFailure(e.outcome) then Streak(log, i) + 1 else 0
    ensures Due(log + [e], i) ==
            if !AttemptOn(e, i) then Due(log, i)
            else if RetryableFailure(e.outcome) then Some(DueAfter(e.outcome.failure, Streak(log + [e], i), e.settledMs))
            else None
    ensures Payloads(log + [e]) == Payloads(log) + PayloadsOf(e)
  {
    assert (log + [e])[..|log|] == log;
  }

  lemma IndexAppends(inputId: string, a: seq<string>, b: seq<string>)
    ensures IndexExchanges(inputId, 0, a) + IndexExchanges(inputId, |a|, b) == IndexExchanges(inputId, 0, a + b)
  {
  }
}
