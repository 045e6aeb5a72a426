/** The two ways a failure reaches a client: as the HTTP response to a blocking call,
    and inside the body of a background job. */
module Transport {
  import opened Wrappers
  import opened Errors
  import opened Jobs

  // ---- decimal numerals ----

  function Digit(d: nat): char
    requires d < 10
  {
    "0123456789"[d]
  }

  function Numeral(n: nat): string {
    if n < 10 then [Digit(n)] else Numeral(n / 10) + [Digit(n % 10)]
  }

  /** How many digits CPython converts between int and str before it raises ValueError. */
  const MAX_STR_DIGITS := 4300

  /** Whether str(n) raises. */
  predicate TooLong(n: int) {
    |Numeral(if n < 0 then -n else n)| > MAX_STR_DIGITS
  }

  /** str(n), unless it raises. */
  function Decimal(n: int): string {
    if n < 0 then "-" + Numeral(-n) else Numeral(n)
  }

  predicate IsAsciiDigit(c: char) { '0' <= c <= '9' }

  /** str.isdigit() over the characters a header can carry: the superscripts count as
      digits although int() does not read them. */
  predicate IsDigit(c: char) {
    IsAsciiDigit(c) || c == '\U{B2}' || c == '\U{B3}' || c == '\U{B9}'
  }

  predicate AllDigits(s: string) {
    s != "" && forall i :: 0 <= i < |s| ==> IsDigit(s[i])
  }

  function Value(s: string): nat
    requires forall i :: 0 <= i < |s| ==> IsAsciiDigit(s[i])
  {
    if s == "" then 0
    else
      var last := s[|s| - 1];
      assert IsAsciiDigit(last);
      10 * Value(s[..|s| - 1]) + (last as int - '0' as int)
  }

  /** int(header) once isdigit() has said yes: None when it raises. */
  function ParseInt(s: string): Option<int> {
    if |s| <= MAX_STR_DIGITS && forall i :: 0 <= i < |s| ==> IsAsciiDigit(s[i]) then Some(Value(s)) else None
  }

  lemma {:induction false} NumeralRoundTrip(n: nat)
    ensures Numeral(n) != "" && (forall i :: 0 <= i < |Numeral(n)| ==> IsAsciiDigit(Numeral(n)[i]))
    ensures Value(Numeral(n)) == n
  {
    if n < 10 {
      assert [Digit(n)][..0] == "";
    } else {
      NumeralRoundTrip(n / 10);
      var s := Numeral(n);
      assert s[..|s| - 1] == Numeral(n / 10);
    }
  }

  // ---- the server ----

  datatype Response = Response(status: int, headers: map<string, string>, body: Object)

  /** _failure_response fills in body and headers field by field; a hint that str() does
      not convert makes it raise (None). */
  method FailureResponse(o: Outcome) returns (r: Option<Response>)
    requires o.failure.Some?
    ensures r == ResponseFor(o, o.failure.value)
  {
    var failure := o.failure.value;
    var body: Object := map["error" := o.error, "kind" := Str(failure.kind), "retryable" := Bool(failure.retryable)];
    if Truthy(o.durationMs) {
      body := body["duration_ms" := o.durationMs];
    }
    var headers: map<string, string> := map[];
    if failure.retryAfterSec.Some? {
      if TooLong(failure.retryAfterSec.value) {
        return None;
      }
      headers := headers["Retry-After" := Decimal(failure.retryAfterSec.value)];
    }
    r := Some(Response(failure.status, headers, body));
  }

  predicate HintIsTooLong(f: Failure) {
    f.retryAfterSec.Some? && TooLong(f.retryAfterSec.value)
  }

  function ResponseFor(o: Outcome, f: Failure): Option<Response> {
    var body: Object := map["error" := o.error, "kind" := Str(f.kind), "retryable" := Bool(f.retryable)];
    if HintIsTooLong(f) then None
    else Some(Response(
      f.status,
      if f.retryAfterSec.Some? then map["Retry-After" := Decimal(f.retryAfterSec.value)] else map[],
      if Truthy(o.durationMs) then body["duration_ms" := o.durationMs] else body))
  }

  /** The response on its own terms: the failure's status; the message, kind and flag, and
      the duration exactly if it is not zero; and a Retry-After header exactly if there is a
      hint, whose text is the hint in decimal. */
  lemma ResponseMeans(o: Outcome, f: Failure)
    requires !HintIsTooLong(f)
    ensures ResponseFor(o, f).Some?
    ensures var r := ResponseFor(o, f).value;
            && r.status == f.status
            && (r.body.Keys == {"error", "kind", "retryable"} + if Truthy(o.durationMs) then {"duration_ms"} else {})
            && r.body["error"] == o.error && r.body["kind"] == Str(f.kind) && r.body["retryable"] == Bool(f.retryable)
            && (Truthy(o.durationMs) ==> r.body["duration_ms"] == o.durationMs)
            && (f.retryAfterSec.None? ==> r.headers == map[])
            && (f.retryAfterSec.Some? && f.retryAfterSec.value >= 0 ==>
                  && r.headers.Keys == {"Retry-After"}
                  && ParseInt(r.headers["Retry-After"]) == Some(f.retryAfterSec.value))
            && (f.retryAfterSec.Some? && f.retryAfterSec.value < 0 ==>
                  && r.headers.Keys == {"Retry-After"} && |r.headers["Retry-After"]| > 1
                  && r.headers["Retry-After"][0] == '-'
                  && ParseInt(r.headers["Retry-After"][1..]) == Some(-f.retryAfterSec.value))
  {
    if f.retryAfterSec.Some? {
      var n := f.retryAfterSec.value;
      NumeralRoundTrip(if n < 0 then -n else n);
      assert n < 0 ==> Decimal(n)[1..] == Numeral(-n);
    }
  }

  /** Job.to_dict */
  function JobBody(j: Job): Object {
    var head: Object := map[
      "job_id" := Int(j.id), "status" := Str(StatusName(j.status)), "prompt_preview" := Str(j.promptPreview),
      "created_at" := Float(j.createdAt),
      "finished_at" := if j.finishedAt.Some? then Float(j.finishedAt.value) else Null];
    match j.status
    case Succeeded => head["text" := j.text]["duration_ms" := j.durationMs]
    case FailedStatus =>
      var body := head["error" := j.error]
        ["kind" := Str(if j.failure.Some? then j.failure.value.kind else "worker_failed")]
        ["retryable" := Bool(j.failure.Some? && j.failure.value.retryable)];
      var hinted := if j.failure.Some? && j.failure.value.retryAfterSec.Some?
                    then body["retry_after_sec" := Int(j.failure.value.retryAfterSec.value)] else body;
      if Truthy(j.durationMs) then hinted["duration_ms" := j.durationMs] else hinted
    case Running => head
    case CancelledStatus => head
  }

  /** A job's body on its own terms: what every body has, and what a succeeded one adds. */
  lemma JobBodyMeans(j: Job)
    ensures var b := JobBody(j);
            var common := {"job_id", "status", "prompt_preview", "created_at", "finished_at"};
            && common <= b.Keys
            && b["job_id"] == Int(j.id) && b["prompt_preview"] == Str(j.promptPreview)
            && b["created_at"] == Float(j.createdAt)
            && b["finished_at"] == (if j.finishedAt.Some? then Float(j.finishedAt.value) else Null)
            && (j.status.Running? || j.status.CancelledStatus? ==> b.Keys == common)
            && (j.status.Succeeded? ==>
                  && b.Keys == common + {"text", "duration_ms"}
                  && b["text"] == j.text && b["duration_ms"] == j.durationMs)
  {
  }

  /** And what a failed job's body adds: a hint only if there is one, a duration only if it
      is not zero. */
  lemma FailedBodyMeans(j: Job)
    requires j.status.FailedStatus?
    ensures var b := JobBody(j);
            var hinted := j.failure.Some? && j.failure.value.retryAfterSec.Some?;
            && b.Keys == {"job_id", "status", "prompt_preview", "created_at", "finished_at"}
                         + {"error", "kind", "retryable"} + (if hinted then {"retry_after_sec"} else {})
                         + (if Truthy(j.durationMs) then {"duration_ms"} else {})
            && b["error"] == j.error
            && b["kind"] == Str(if j.failure.Some? then j.failure.value.kind else "worker_failed")
            && b["retryable"] == Bool(j.failure.Some? && j.failure.value.retryable)
            && (hinted ==> b["retry_after_sec"] == Int(j.failure.value.retryAfterSec.value))
            && (Truthy(j.durationMs) ==> b["duration_ms"] == j.durationMs)
  {
  }

  /** The word for a status says which it is. */
  lemma StatusNamesDiffer(s: Status, t: Status)
    ensures StatusName(s) == StatusName(t) <==> s == t
    ensures StatusName(Running) == "running" && StatusName(Succeeded) == "succeeded"
            && StatusName(FailedStatus) == "failed" && StatusName(CancelledStatus) == "cancelled"
  {
    assert "running"[0] == 'r' && "succeeded"[0] == 's' && "failed"[0] == 'f' && "cancelled"[0] == 'c';
  }

  function StatusName(s: Status): string {
    match s
    case Running => "running"
    case Succeeded => "succeeded"
    case FailedStatus => "failed"
    case CancelledStatus => "cancelled"
  }

  // ---- the client ----

  /** What the raised ClaudePoolError carries. */
  datatype ClientError = ClientError(message: Json, kind: Json, retryable: bool, retryAfterSec: Json)

  /** _error_from: None when reading the Retry-After header raises. A body that is not
      JSON counts as an empty one. */
  function ErrorFrom(status: int, headers: map<string, string>, body: Option<Object>): Option<ClientError> {
    var b := if body.Some? then body.value else map[];
    var hint := Get(b, "retry_after_sec", Null);
    var message := Get(b, "error", Str("HTTP " + Decimal(status)));
    var kind := Get(b, "kind", Str("unknown"));
    var retryable := Truthy(Get(b, "retryable", Bool(false)));
    if hint != Null then Some(ClientError(message, kind, retryable, hint))
    else if "Retry-After" in headers && AllDigits(headers["Retry-After"]) then
      match ParseInt(headers["Retry-After"])
      case None => None
      case Some(n) => Some(ClientError(message, kind, retryable, Int(n)))
    else Some(ClientError(message, kind, retryable, Null))
  }

  datatype WaitResult = StillRunning | Text(text: Json) | Raises(error: ClientError)

  /** One poll of wait() on a job's body. */
  function Poll(body: Object): WaitResult {
    var status := Get(body, "status", Null);
    if status == Str("succeeded") then Text(Get(body, "text", Null))
    else if status == Str("failed") || status == Str("cancelled") then
      Raises(ClientError(
        Get(body, "error", status), Get(body, "kind", status), Truthy(Get(body, "retryable", Bool(false))),
        Get(body, "retry_after_sec", Null)))
    else StillRunning
  }

  // ---- the two encodings decode to the same error ----

  function ErrorOf(o: Outcome, f: Failure, hint: Json): ClientError {
    ClientError(o.error, Str(f.kind), f.retryable, hint)
  }

  lemma ResponseDecodes(o: Outcome, f: Failure)
    requires !HintIsTooLong(f)
    ensures var r := ResponseFor(o, f).value;
            ErrorFrom(r.status, r.headers, Some(r.body))
            == Some(ErrorOf(
                      o, f,
                      if f.retryAfterSec.Some? && f.retryAfterSec.value >= 0
                      then Int(f.retryAfterSec.value) else Null))
  {
    if f.retryAfterSec.Some? {
      var n := f.retryAfterSec.value;
      if n >= 0 {
        NumeralRoundTrip(n);
      } else {
        assert Decimal(n)[0] == '-' && !IsDigit('-');
      }
    }
  }

  lemma JobDecodes(j: Job, now: real, o: Outcome, f: Failure)
    requires !o.succeeded && o.failure == Some(f)
    ensures Poll(JobBody(FinishWith(j, now, o))) ==
            Raises(ErrorOf(o, f, if f.retryAfterSec.Some? then Int(f.retryAfterSec.value) else Null))
  {
  }

  /** Two transports, one error: for every failed outcome the client decodes the HTTP
      response and the body of the finished job to the same message, kind, retryable
      flag and retry hint, exactly when the hint is absent, or not negative and short
      enough for str(). */
  lemma TwoTransportsOneError(j: Job, now: real, o: Outcome, f: Failure)
    requires !o.succeeded && o.failure == Some(f)
    ensures OverHttp(o, f).Some? <==> !HintIsTooLong(f)
    ensures OverHttp(o, f).Some? && Poll(JobBody(FinishWith(j, now, o))) == Raises(OverHttp(o, f).value)
            <==> f.retryAfterSec.None? || (f.retryAfterSec.value >= 0 && !TooLong(f.retryAfterSec.value))
  {
    if !HintIsTooLong(f) {
      ResponseDecodes(o, f);
    }
    JobDecodes(j, now, o, f);
  }

  /** What a blocking caller's client raises; None if the response is never made or
      reading it raises something else. */
  function OverHttp(o: Outcome, f: Failure): Option<ClientError> {
    match ResponseFor(o, f)
    case None => None
    case Some(r) => ErrorFrom(r.status, r.headers, Some(r.body))
  }

  lemma MadeUpHintsAreShort(f: Failure)
    requires f.retryAfterSec.Some? ==> f.retryAfterSec.value == DEFAULT_RETRY_AFTER_SEC
    ensures !HintIsTooLong(f)
  {
    assert Numeral(6) == [Digit(6)];
    assert Numeral(60) == Numeral(6) + [Digit(0)];
  }

  /** Every failure the daemon itself makes up carries a usable hint or none, so for
      the outcomes of real runs the two transports always agree. */
  lemma ClassifiedFailuresAgree(j: Job, now: real, o: Outcome, status: Json, code: string)
    requires !o.succeeded && o.failure == Classify(status, code) && o.failure.Some?
    ensures OverHttp(o, o.failure.value).Some?
            && Poll(JobBody(FinishWith(j, now, o))) == Raises(OverHttp(o, o.failure.value).value)
  {
    MadeUpHintsAreShort(o.failure.value);
    TwoTransportsOneError(j, now, o, o.failure.value);
  }

  /** What a waiting client sees of a job: its text, its failure, a cancellation that is
      not worth retrying, or nothing yet; in one-to-one correspondence with the status. */
  lemma PollFollowsStatus(j: Job)
    ensures var p := Poll(JobBody(j));
            && (p.StillRunning? <==> !j.Terminal())
            && (p.Text? <==> j.status.Succeeded?) && (p.Text? ==> p.text == j.text)
            && (j.status.CancelledStatus? ==> p == Raises(ClientError(Str("cancelled"), Str("cancelled"), false, Null)))
  {
    assert Str("running") != Str("succeeded") && Str("running") != Str("failed")
           && Str("running") != Str("cancelled") by {
      assert "running"[0] != "succeeded"[0] && "running"[0] != "failed"[0] && "running"[0] != "cancelled"[0];
    }
  }

  /** Reading an error response raises something other than a ClaudePoolError exactly
      when the body gives no hint and the header is made of digits of which one is a
      superscript, or which are more than int() converts. */
  lemma ErrorFromRaisesIff(status: int, headers: map<string, string>, body: Option<Object>)
    ensures ErrorFrom(status, headers, body).None? <==>
            && (body.None? || Get(body.value, "retry_after_sec", Null) == Null)
            && "Retry-After" in headers && AllDigits(headers["Retry-After"])
            && (|headers["Retry-After"]| > MAX_STR_DIGITS
                || exists i :: 0 <= i < |headers["Retry-After"]| && !IsAsciiDigit(headers["Retry-After"][i]))
  {
  }

  /** What the client makes of an error response it can read: the body's own values, or for
      a body that lacks them, or is no JSON, the status code as the message, an unknown
      kind that is not worth retrying, and the header's number for the hint. */
  lemma ErrorFromMeans(status: int, headers: map<string, string>, body: Option<Object>)
    requires ErrorFrom(status, headers, body).Some?
    ensures var e := ErrorFrom(status, headers, body).value;
            var b := if body.Some? then body.value else map[];
            && e.message == (if "error" in b then b["error"] else Str("HTTP " + Decimal(status)))
            && e.kind == (if "kind" in b then b["kind"] else Str("unknown"))
            && (e.retryable <==> "retryable" in b && Truthy(b["retryable"]))
            && ("retry_after_sec" in b && b["retry_after_sec"] != Null ==> e.retryAfterSec == b["retry_after_sec"])
            && (("retry_after_sec" !in b || b["retry_after_sec"] == Null) ==>
                  e.retryAfterSec == if "Retry-After" in headers && AllDigits(headers["Retry-After"])
                                     then Int(Value(headers["Retry-After"])) else Null)
  {
  }

  /** For example a response without a usable body whose header has one digit too many. */
  lemma LongHeaderRaises(status: int)
    ensures ErrorFrom(status, map["Retry-After" := seq(MAX_STR_DIGITS + 1, _ => '1')], None).None?
  {
    var header := seq(MAX_STR_DIGITS + 1, _ => '1');
    assert AllDigits(header) && |header| > MAX_STR_DIGITS;
    ErrorFromRaisesIff(status, map["Retry-After" := header], None);
  }
}
