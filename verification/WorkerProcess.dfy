/** One `claude` process: started, given one prompt, and killed. */
module WorkerProcess {
  import opened Wrappers
  import opened Errors
  import opened StreamParser
  import opened Runner
  import opened Transport

  /** The process as asyncio knows it: `Exited` once it has been reaped. */
  datatype Process = Unstarted | Up | Exited(code: int)

  /** How `communicate()` under its timeout ends. */
  datatype Communication =
    | Over(code: int, lines: seq<Line>, stderr: string)
    | OutOfTime
    | Interrupted

  function NoResultMessage(code: int, stderr: string): string {
    "worker exited with code " + Decimal(code) + " without a 'result' line: " + stderr
  }

  /** How run() ends on a started process. */
  function EndOf(c: Communication): RunEnd {
    match c
    case Interrupted => RunCancelled
    case OutOfTime => RunTimedOut
    case Over(code, lines, stderr) =>
      match RunReply(lines, code, stderr)
      case None => NoResult(NoResultMessage(code, stderr))
      case Some(reply) => Replied(reply)
  }

  class Worker {
    var process: Process
    var becameIdleAt: real

    constructor ()
      ensures process == Unstarted && becameIdleAt == 0.0
    {
      process, becameIdleAt := Unstarted, 0.0;
    }

    predicate IsAlive()
      reads this
    {
      process.Up?
    }

    /** start(): a process that cannot be executed leaves everything as it was. */
    method Start(execFails: bool, now: real) returns (started: bool)
      modifies this
      ensures started <==> !execFails
      ensures started ==> IsAlive() && becameIdleAt == now
      ensures !started ==> process == old(process) && becameIdleAt == old(becameIdleAt)
    {
      if execFails {
        return false;
      }
      process := Up;
      becameIdleAt := now;
      started := true;
    }

    /** kill() can be called at any time, any number of times, and returns with the
        process gone; an exit code that is known already is kept. */
    method Kill(code: int)
      modifies this`process
      ensures !IsAlive()
      ensures process == if old(IsAlive()) then Exited(code) else old(process)
    {
      if process.Up? {
        process := Exited(code);
      }
    }

    /** run(): the output decides, before the exit code is looked at. A timeout kills the
        process, a cancellation does not: that is left to the release. */
    method Run(end: Communication, killCode: int) returns (r: RunEnd)
      modifies this`process
      ensures old(process).Unstarted? ==> r == NoResult("worker not started") && process == old(process)
      ensures !old(process).Unstarted? && end.Over? ==>
                && process == (if old(IsAlive()) then Exited(end.code) else old(process))
                && r == EndOf(end.(code := process.code))
      ensures !old(process).Unstarted? && !end.Over? ==> r == EndOf(end)
      ensures !old(process).Unstarted? && end.Interrupted? ==> process == old(process)
      ensures IsAlive() ==> r.RunCancelled?
    {
      if process.Unstarted? {
        return NoResult("worker not started");
      }
      match end
      case Interrupted => return RunCancelled;
      case OutOfTime =>
        Kill(killCode);
        return RunTimedOut;
      case Over(code, lines, stderr) =>
        if process.Up? { process := Exited(code); }
        var resultLine, apiErrorCode := ParseStream(lines);
        if resultLine == None {
          return NoResult(NoResultMessage(process.code, stderr));
        }
        var p := resultLine.value;
        return Replied(Reply(
          Get(p, "result", Str("")), Get(p, "duration_ms", Int(0)), Truthy(Get(p, "is_error", Bool(false))),
          Get(p, "api_error_status", Null), apiErrorCode));
    }
  }

  /** Structured output decides the outcome of the whole call: two processes whose
      outputs have the same structured content give the caller the same success flag and
      the same failure, whatever they wrote besides and however they exited. */
  lemma OutcomeIgnoresWordingAndExit(a: Communication, b: Communication)
    requires a.Over? && b.Over? && Shapes(a.lines) == Shapes(b.lines)
    ensures OutcomeOf(EndOf(a)).Some? <==> OutcomeOf(EndOf(b)).Some?
    ensures OutcomeOf(EndOf(a)).Some? ==>
              OutcomeOf(EndOf(a)).value.succeeded == OutcomeOf(EndOf(b)).value.succeeded
              && OutcomeOf(EndOf(a)).value.failure == OutcomeOf(EndOf(b)).value.failure
  {
    WordingIsInert(a.lines, a.code, a.stderr, b.lines, b.code, b.stderr);
    VerdictOfEnd(a);
    VerdictOfEnd(b);
  }

  /** What the caller of execute() gets of an output whose first result line is the k-th: the
      text of that line's "result", as the answer or, if the line is marked as an error, as
      the message of the failure. */
  lemma CallerGetsTheResult(c: Communication, k: nat)
    requires c.Over? && k < |c.lines| && IsResult(c.lines[k]) && forall i :: 0 <= i < k ==> !IsResult(c.lines[i])
    requires OutcomeOf(EndOf(c)).Some?
    ensures var o, p := OutcomeOf(EndOf(c)).value, c.lines[k].fields;
            var text := if "result" in p then p["result"] else Str("");
            && (o.succeeded <==> !("is_error" in p && Truthy(p["is_error"])))
            && (o.succeeded ==> o.text == text)
            && (!o.succeeded ==> o.error == text)
            && o.durationMs == if "duration_ms" in p then p["duration_ms"] else Int(0)
  {
    ReplyMeans(c.lines, k, c.code, c.stderr);
    OutcomeMeans(EndOf(c));
  }

  /** And of an output without one: a failure that names the exit code and quotes the error
      stream. */
  lemma CallerGetsTheExitCode(c: Communication)
    requires c.Over? && forall i :: 0 <= i < |c.lines| ==> !IsResult(c.lines[i])
    ensures var o := OutcomeOf(EndOf(c));
            && o.Some? && !o.value.succeeded && o.value.failure == Some(Failure("worker_failed", 502, false, None))
            && o.value.error == Str("worker exited with code " + Decimal(c.code) + " without a 'result' line: "
                                    + c.stderr)
  {
    NoReplyIff(c.lines, c.code, c.stderr);
    OutcomeMeans(EndOf(c));
  }

  lemma VerdictOfEnd(c: Communication)
    requires c.Over?
    ensures var v := VerdictOf(RunReply(c.lines, c.code, c.stderr));
            var o := OutcomeOf(EndOf(c));
            && (o.None? <==> v.Unclassifiable?)
            && (o.Some? ==> (o.value.succeeded <==> v.Success?))
            && (o.Some? ==> o.value.failure == if v.Failing? then Some(v.failure) else None)
  {
  }
}
