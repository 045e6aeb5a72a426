/** runner.execute: one prompt on one worker, which is handed back exactly once. */
module Runner {
  import opened Wrappers
  import opened Errors
  import opened StreamParser

  /** How `await pool.acquire()` may end. */
  datatype AcquireEnd = Acquired(worker: nat) | Unavailable(message: string) | AcquireCancelled

  /** How `await worker.run(...)` may end. */
  datatype RunEnd = Replied(reply: Reply) | RunTimedOut | NoResult(message: string) | RunCancelled | RunRaised

  /** How the shielded wait for the release may end. */
  datatype ReleaseEnd = ReleaseDone | WaitCancelled

  /** How execute() ends. */
  datatype Ending = Returned(outcome: Outcome) | Cancelled | Raised

  /** What execute() does to the pool: the workers it hands to release_in_background,
      in order, and the error that /health shows. */
  class PoolPort {
    var released: seq<nat>
    var lastError: Option<Json>

    method ReleaseInBackground(worker: nat)
      modifies this
      ensures released == old(released) + [worker] && lastError == old(lastError)
    {
      released := released + [worker];
    }

    method Note(outcome: Outcome)
      modifies this
      ensures released == old(released)
      ensures lastError == if outcome.succeeded then None else Some(outcome.error)
    {
      lastError := if outcome.succeeded then None else Some(outcome.error);
    }
  }

  /** The outcome that a run on an acquired worker leads to, if it leads to one. */
  function OutcomeOf(run: RunEnd): Option<Outcome> {
    match run
    case RunTimedOut => Some(Failed(Str("worker timed out"), TIMED_OUT, Int(0)))
    case NoResult(message) => Some(Failed(Str(message), WORKER_FAILED, Int(0)))
    case Replied(r) =>
      (match VerdictOf(Some(r))
       case Success => Some(Ok(r.text, r.durationMs))
       case Failing(f) => Some(Failed(r.text, f, r.durationMs))
       case Unclassifiable => None)
    case RunCancelled => None
    case RunRaised => None
  }

  /** Whether the outcome is noted before the release is awaited: those returned from
      the except clauses are. */
  predicate NotedEarly(run: RunEnd) { run.RunTimedOut? || run.NoResult? }

  /** How execute() ends once the run and the wait for the release have ended. */
  function EndingOf(run: RunEnd, release: ReleaseEnd): Ending {
    if run.RunCancelled? || release.WaitCancelled? then Cancelled
    else match OutcomeOf(run)
      case None => Raised
      case Some(o) => Returned(o)
  }

  /** What each way a run can end leads to: a timeout is worth retrying, a run without a
      result line is not and carries its message, and a reply is a success exactly if it is
      not marked as an error, with its own text and duration either way. */
  lemma OutcomeMeans(run: RunEnd)
    ensures OutcomeOf(run).Some? ==>
              var o := OutcomeOf(run).value;
              && (o.succeeded <==> run.Replied? && !run.reply.isError)
              && (o.succeeded ==> o.text == run.reply.text && o.durationMs == run.reply.durationMs)
              && (!o.succeeded ==> o.failure.Some? && AsPublished(o.failure.value))
              && (run.RunTimedOut? ==>
                    && o.error == Str("worker timed out") && o.durationMs == Int(0)
                    && o.failure == Some(Failure("timeout", 504, true, None)))
              && (run.NoResult? ==>
                    && o.error == Str(run.message) && o.durationMs == Int(0)
                    && o.failure == Some(Failure("worker_failed", 502, false, None)))
              && (run.Replied? && run.reply.isError ==>
                    && o.error == run.reply.text && o.durationMs == run.reply.durationMs
                    && o.failure == Classify(run.reply.apiErrorStatus, run.reply.apiErrorCode))
    ensures OutcomeOf(run).None? <==>
              run.RunCancelled? || run.RunRaised?
              || (run.Replied? && run.reply.isError && run.reply.apiErrorStatus.Composite?)
  {
    KindsDiffer();
    if run.Replied? && run.reply.isError {
      ClassifyMeans(run.reply.apiErrorStatus, run.reply.apiErrorCode);
      if OutcomeOf(run).Some? { ClassifiedIsPublished(run.reply.apiErrorStatus, run.reply.apiErrorCode); }
    }
  }

  /** execute() turns a PoolUnavailableError into an outcome. */
  function Refused(message: string): Ending {
    Returned(Failed(Str(message), POOL_UNAVAILABLE, Int(0)))
  }

  /** A refusal is worth retrying, and carries the pool's message. */
  lemma RefusedMeans(message: string)
    ensures var o := Refused(message).outcome;
            && !o.succeeded && o.error == Str(message) && o.durationMs == Int(0)
            && o.failure == Some(Failure("pool_unavailable", 503, true, None)) && AsPublished(o.failure.value)
  {
    KindsDiffer();
  }

  /** Exactly-once release, on every path: whatever the run does and wherever the
      caller is cancelled, a worker that was acquired is handed back once, and without
      a worker there is nothing to hand back. A cancellation always surfaces as one,
      and a result is only returned after the release. */
  method Execute(pool: PoolPort, acquire: AcquireEnd, run: RunEnd, release: ReleaseEnd) returns (e: Ending)
    modifies pool
    ensures pool.released == old(pool.released) + (if acquire.Acquired? then [acquire.worker] else [])
    ensures e.Cancelled? <==>
              acquire.AcquireCancelled? || (acquire.Acquired? && (run.RunCancelled? || release.WaitCancelled?))
    ensures e.Returned? <==> acquire.Unavailable? || (acquire.Acquired? && release.ReleaseDone? && OutcomeOf(run).Some?)
    ensures acquire.Unavailable? ==> e == Refused(acquire.message)
    ensures acquire.Acquired? ==> e == EndingOf(run, release)
    ensures e.Returned? ==> pool.lastError == if e.outcome.succeeded then None else Some(e.outcome.error)
    ensures acquire.Acquired? && NotedEarly(run) ==> pool.lastError == Some(OutcomeOf(run).value.error)
    ensures !e.Returned? && !(acquire.Acquired? && NotedEarly(run)) ==> pool.lastError == old(pool.lastError)
  {
    match acquire
    case AcquireCancelled => return Cancelled;
    case Unavailable(message) =>
      var o := Failed(Str(message), POOL_UNAVAILABLE, Int(0));
      pool.Note(o);
      return Returned(o);
    case Acquired(worker) =>
      // The try and its except clauses.
      var pending: Ending;
      var reply: Option<Reply> := None;
      match run {
        case Replied(r) => reply := Some(r); pending := Raised;
        case RunTimedOut =>
          var o := Failed(Str("worker timed out"), TIMED_OUT, Int(0));
          pool.Note(o);
          pending := Returned(o);
        case NoResult(message) =>
          var o := Failed(Str(message), WORKER_FAILED, Int(0));
          pool.Note(o);
          pending := Returned(o);
        case RunCancelled => pending := Cancelled;
        case RunRaised => pending := Raised;
      }
      // The finally clause.
      pool.ReleaseInBackground(worker);
      if release.WaitCancelled? {
        return Cancelled;
      }
      if reply == None {
        return pending;
      }
      // After the try statement.
      var result := reply.value;
      if result.isError {
        match Classify(result.apiErrorStatus, result.apiErrorCode) {
          case None => return Raised;
          case Some(failure) =>
            var o := Failed(result.text, failure, result.durationMs);
            pool.Note(o);
            return Returned(o);
        }
      }
      var o := Ok(result.text, result.durationMs);
      pool.Note(o);
      return Returned(o);
  }
}
