/** Failures and how a failed run is classified. */
module Errors {
  import opened Wrappers

  /** A decoded JSON value, as far as the daemon and its client look into one. */
  datatype Json =
    | Null
    | Bool(b: bool)
    | Int(n: int)
    | Float(r: real)
    | Str(s: string)
    | Composite(nonEmpty: bool)   // an array or an object

  type Object = map<string, Json>

  /** dict.get with its default. */
  function Get(o: Object, key: string, default: Json): Json {
    if key in o then o[key] else default
  }

  /** bool(v) */
  function Truthy(v: Json): bool {
    match v
    case Null => false
    case Bool(b) => b
    case Int(n) => n != 0
    case Float(r) => r != 0.0
    case Str(s) => s != ""
    case Composite(nonEmpty) => nonEmpty
  }

  /** What counts as false: nothing, false, zero, and what is empty. */
  lemma FalsyValues(v: Json)
    ensures !Truthy(v) <==> v in {Null, Bool(false), Int(0), Float(0.0), Str(""), Composite(false)}
  {
  }

  /** v == n: integers and floats compare by value. */
  predicate Equals(v: Json, n: int) {
    v == Int(n) || v == Float(n as real)
  }

  datatype Failure = Failure(kind: string, status: int, retryable: bool, retryAfterSec: Option<int>)

  datatype Outcome = Outcome(succeeded: bool, text: Json, durationMs: Json, error: Json, failure: Option<Failure>)

  const DEFAULT_RETRY_AFTER_SEC := 60

  const POOL_UNAVAILABLE := Failure("pool_unavailable", 503, true, None)
  const TIMED_OUT := Failure("timeout", 504, true, None)
  const RATE_LIMITED := Failure("rate_limited", 429, true, Some(DEFAULT_RETRY_AFTER_SEC))
  const NOT_AUTHENTICATED := Failure("not_authenticated", 503, false, None)
  const WORKER_FAILED := Failure("worker_failed", 502, false, None)

  function Ok(text: Json, durationMs: Json): Outcome {
    Outcome(true, text, durationMs, Str(""), None)
  }

  function Failed(error: Json, failure: Failure, durationMs: Json): Outcome {
    Outcome(false, Str(""), durationMs, error, Some(failure))
  }

  /** classify(): None when the membership test raises, which it does for a status that
      cannot be hashed. */
  function Classify(status: Json, code: string): Option<Failure> {
    if status.Composite? then None
    else if Equals(status, 429) || Equals(status, 529) then Some(RATE_LIMITED)
    else if Equals(status, 401) || Equals(status, 403) || code == "authentication_failed" then Some(NOT_AUTHENTICATED)
    else Some(WORKER_FAILED)
  }

  /** The verdict a caller acts on, case by case: the two statuses that clear on their own
      come first and give a hint, then the credential statuses and code, which are a matter
      for a human, and everything else is a failed worker. A status may be an integer or a
      float. classify() promises never to raise; it keeps that promise exactly when the
      status is not an array or an object. */
  lemma ClassifyMeans(status: Json, code: string)
    ensures Classify(status, code).None? <==> status.Composite?
    ensures Classify(status, code).Some? ==>
              var f := Classify(status, code).value;
              var limited := status in {Int(429), Int(529), Float(429.0), Float(529.0)};
              var refused := status in {Int(401), Int(403), Float(401.0), Float(403.0)}
                             || code == "authentication_failed";
              && (f.retryable <==> limited)
              && (limited ==> f.kind == "rate_limited" && f.status == 429 && f.retryAfterSec == Some(60))
              && (!limited ==> f.retryAfterSec == None)
              && (!limited && refused ==> f.kind == "not_authenticated" && f.status == 503)
              && (!limited && !refused ==> f.kind == "worker_failed" && f.status == 502)
  {
  }

  /** A row of the failure kinds that the daemon publishes. */
  datatype Published = Published(kind: string, status: int, retryable: bool)

  /** The table in the API documentation, as far as it is about runs. */
  const FAILURE_KINDS := {
    Published("pool_unavailable", 503, true), Published("rate_limited", 429, true), Published("timeout", 504, true),
    Published("not_authenticated", 503, false), Published("worker_failed", 502, false)}

  /** The failure is one the documentation lists, with the hint it promises. */
  predicate AsPublished(f: Failure) {
    && Published(f.kind, f.status, f.retryable) in FAILURE_KINDS
    && f.retryAfterSec == if f.kind == "rate_limited" then Some(60) else None
  }

  lemma ClassifiedIsPublished(status: Json, code: string)
    requires Classify(status, code).Some?
    ensures AsPublished(Classify(status, code).value)
  {
    KindsDiffer();
    ClassifyMeans(status, code);
  }

  /** No two kinds are the same word. */
  lemma KindsDiffer()
    ensures "rate_limited" != "not_authenticated" && "rate_limited" != "worker_failed"
    ensures "rate_limited" != "timeout" && "rate_limited" != "pool_unavailable"
  {
    assert "rate_limited"[0] == 'r' && "not_authenticated"[0] == 'n' && "worker_failed"[0] == 'w'
           && "timeout"[0] == 't' && "pool_unavailable"[0] == 'p';
  }
}
