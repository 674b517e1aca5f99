/** Bounded retry: which failures are tried again, and what a whole series of attempts comes to. */
module Recovery {
  import opened Wrappers
  import opened ExecutionLedger

  /** What an attempt threw. A timeout counts as transient: the attempt is abandoned, not stopped. */
  datatype AttemptError = AuthFailure | ValidationFailure | TransientFailure | UnknownFailure

  type AttemptResult = Result<nat, AttemptError>

  /** `terminal` tells the caller to keep everything downstream blocked. */
  datatype Outcome = Outcome(result: ActionResult, terminal: bool)

  function GiveUp(reason: Reason): Outcome {
    Outcome(Undelivered(reason), true)
  }

  /** What follows a settled attempt: another attempt (`None`), or the outcome of the run. */
  function Followed(r: AttemptResult, attempt: nat, maxAttempts: nat): Option<Outcome> {
    match r
    case Success(id) => Some(Outcome(Delivered(id), false))
    case Failure(AuthFailure) => Some(GiveUp(AuthRejected))
    case Failure(ValidationFailure) => Some(GiveUp(InvalidAction))
    case Failure(UnknownFailure) => Some(GiveUp(UnknownExecutionError))
    case Failure(TransientFailure) => if attempt < maxAttempts then None else Some(GiveUp(RetriesExhausted))
  }

  /** The first attempt in `1..maxAttempts` that does not fail transiently, if there is one. */
  ghost predicate Decisive(attempts: nat -> AttemptResult, maxAttempts: nat, n: nat) {
    && 1 <= n <= maxAttempts
    && attempts(n) != Failure(TransientFailure)
    && forall i: nat :: 1 <= i < n ==> attempts(i) == Failure(TransientFailure)
  }

  /**
   * `RecoveryService.run` over the results its attempts come to. It makes attempts up to the first one
   * that does not fail transiently, at most `maxAttempts`, and its outcome is that attempt's.
   */
  method Run(attempts: nat -> AttemptResult, maxAttempts: nat) returns (outcome: Outcome, made: nat)
    ensures made <= maxAttempts
    ensures forall n: nat :: Decisive(attempts, maxAttempts, n) ==>
              made == n && Followed(attempts(n), n, maxAttempts) == Some(outcome)
    ensures (forall n: nat :: !Decisive(attempts, maxAttempts, n)) ==>
              made == maxAttempts && outcome == GiveUp(RetriesExhausted)
    ensures !outcome.terminal <==> outcome.result.Delivered?
  {
    var attempt := 1;
    while attempt <= maxAttempts
      invariant 1 <= attempt <= maxAttempts + 1
      invariant forall i: nat :: 1 <= i < attempt ==> attempts(i) == Failure(TransientFailure)
    {
      var r := attempts(attempt);
      var next := Followed(r, attempt, maxAttempts);
      if next.Some? && r != Failure(TransientFailure) {
        assert Decisive(attempts, maxAttempts, attempt);
        return next.value, attempt;
      }
      attempt := attempt + 1;
    }
    return GiveUp(RetriesExhausted), maxAttempts;
  }
}
