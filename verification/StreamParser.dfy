/** From a worker's output to a verdict. */
module StreamParser {
  import opened Wrappers
  import opened Errors

  /** One line of stream-json: either something the scan passes over (blank, or not
      JSON) or a decoded object. */
  datatype Line = Skipped(text: string) | Payload(fields: Object)

  predicate IsResult(l: Line) {
    l.Payload? && Get(l.fields, "type", Null) == Str("result")
  }

  predicate IsErrorCode(l: Line) {
    l.Payload? && Truthy(Get(l.fields, "is_api_error_message", Null)) && Get(l.fields, "error", Null).Str?
  }

  /** Where the first result line is, or the end. */
  function FirstResult(lines: seq<Line>): (k: nat)
    ensures k <= |lines|
    ensures k < |lines| ==> IsResult(lines[k])
    ensures forall i :: 0 <= i < k ==> !IsResult(lines[i])
  {
    if lines == [] || IsResult(lines[0]) then 0 else 1 + FirstResult(lines[1..])
  }

  /** The last API error code among the lines, or the empty string. */
  function LastCode(lines: seq<Line>): string {
    if lines == [] then ""
    else
      var k := |lines| - 1;
      if IsErrorCode(lines[k]) then lines[k].fields["error"].s else LastCode(lines[..k])
  }

  /** The part of the output that the scan looks at: up to the first result line. */
  function Scanned(lines: seq<Line>): seq<Line> {
    var k := FirstResult(lines);
    if k < |lines| then lines[..k + 1] else lines
  }

  function ResultLine(lines: seq<Line>): Option<Object> {
    var k := FirstResult(lines);
    if k < |lines| then Some(lines[k].fields) else None
  }

  /** _parse_stream: one pass that stops at the result line. It yields the first result
      line and the last error code up to and including it. */
  method ParseStream(lines: seq<Line>) returns (resultLine: Option<Object>, apiErrorCode: string)
    ensures resultLine == ResultLine(lines)
    ensures apiErrorCode == LastCode(Scanned(lines))
  {
    resultLine, apiErrorCode := None, "";
    var i := 0;
    while i < |lines|
      invariant 0 <= i <= |lines| && resultLine == None
      invariant forall j :: 0 <= j < i ==> !IsResult(lines[j])
      invariant apiErrorCode == LastCode(lines[..i])
    {
      var line := lines[i];
      assert lines[..i + 1][..i] == lines[..i];
      if line.Payload? {
        if Truthy(Get(line.fields, "is_api_error_message", Null)) && Get(line.fields, "error", Null).Str? {
          apiErrorCode := line.fields["error"].s;
        }
        if Get(line.fields, "type", Null) == Str("result") {
          resultLine := Some(line.fields);
          FirstResultIs(lines, i);
          return;
        }
      }
      i := i + 1;
    }
    FirstResultIs(lines, i);
    assert lines[..i] == lines;
  }

  lemma FirstResultIs(lines: seq<Line>, k: nat)
    requires k <= |lines| && (k < |lines| ==> IsResult(lines[k]))
    requires forall i :: 0 <= i < k ==> !IsResult(lines[i])
    ensures FirstResult(lines) == k
  {
    if k > 0 {
      FirstResultIs(lines[1..], k - 1);
    }
  }

  // ---- Worker.run and the verdict that execute() draws from it ----

  datatype Reply = Reply(text: Json, durationMs: Json, isError: bool, apiErrorStatus: Json, apiErrorCode: string)

  /** Worker.run after the process has ended: the reply, or WorkerError (None) when no
      result line was printed. The exit code plays no part once there is one. */
  function RunReply(lines: seq<Line>, exitCode: int, stderr: string): Option<Reply> {
    match ResultLine(lines)
    case None => None
    case Some(p) => Some(Reply(Get(p, "result", Str("")),
                                Get(p, "duration_ms", Int(0)), Truthy(Get(p, "is_error", Bool(false))),
                               Get(p, "api_error_status", Null), LastCode(Scanned(lines))))
  }

  lemma {:induction false} LastCodeIs(lines: seq<Line>, i: nat)
    requires i < |lines| && IsErrorCode(lines[i]) && forall j :: i < j < |lines| ==> !IsErrorCode(lines[j])
    ensures LastCode(lines) == lines[i].fields["error"].s
    decreases |lines|
  {
    if i < |lines| - 1 { LastCodeIs(lines[..|lines| - 1], i); }
  }

  lemma {:induction false} NoCode(lines: seq<Line>)
    requires forall j :: 0 <= j < |lines| ==> !IsErrorCode(lines[j])
    ensures LastCode(lines) == ""
    decreases |lines|
  {
    if lines != [] { NoCode(lines[..|lines| - 1]); }
  }

  /** What a reply says, line by line: everything but the code is read off the first result
      line, with a default for what that line does not have. */
  lemma ReplyMeans(lines: seq<Line>, k: nat, exitCode: int, stderr: string)
    requires k < |lines| && lines[k].Payload? && Get(lines[k].fields, "type", Null) == Str("result")
    requires forall i :: 0 <= i < k && lines[i].Payload? ==> Get(lines[i].fields, "type", Null) != Str("result")
    ensures RunReply(lines, exitCode, stderr).Some?
    ensures var r, p := RunReply(lines, exitCode, stderr).value, lines[k].fields;
            && r.text == (if "result" in p then p["result"] else Str(""))
            && r.durationMs == (if "duration_ms" in p then p["duration_ms"] else Int(0))
            && r.isError == ("is_error" in p && Truthy(p["is_error"]))
            && r.apiErrorStatus == (if "api_error_status" in p then p["api_error_status"] else Null)
  {
    FirstResultIs(lines, k);
  }

  /** And the code: it is the error of the last line, up to the first result line, that is
      marked as an API error message and has a string there; without one it is empty. */
  lemma ReplyCodeMeans(lines: seq<Line>, k: nat, i: nat, exitCode: int, stderr: string)
    requires k < |lines| && IsResult(lines[k]) && forall j :: 0 <= j < k ==> !IsResult(lines[j])
    requires i <= k + 1 && forall j :: i <= j <= k ==> !IsErrorCode(lines[j])
    requires i > 0 ==> IsErrorCode(lines[i - 1])
    ensures RunReply(lines, exitCode, stderr).Some?
    ensures RunReply(lines, exitCode, stderr).value.apiErrorCode
            == if i > 0 then lines[i - 1].fields["error"].s else ""
  {
    FirstResultIs(lines, k);
    assert Scanned(lines) == lines[..k + 1];
    if i > 0 { LastCodeIs(lines[..k + 1], i - 1); } else { NoCode(lines[..k + 1]); }
  }

  /** No reply at all comes exactly of an output without a result line. */
  lemma NoReplyIff(lines: seq<Line>, exitCode: int, stderr: string)
    ensures RunReply(lines, exitCode, stderr).None? <==> forall i :: 0 <= i < |lines| ==> !IsResult(lines[i])
  {
  }

  /** What the caller is told to act on: success, a classified failure, or (Unclassifiable) an
      exception out of classify(). */
  datatype Verdict = Success | Failing(failure: Failure) | Unclassifiable

  function VerdictOf(reply: Option<Reply>): Verdict {
    match reply
    case None => Failing(WORKER_FAILED)
    case Some(r) =>
      if !r.isError then Success
      else match Classify(r.apiErrorStatus, r.apiErrorCode)
        case None => Unclassifiable
        case Some(f) => Failing(f)
  }

  // ---- wording is inert ----

  /** The five fields that may influence the verdict. */
  datatype Shape = Shape(kind: Json, isError: bool, status: Json, isApiError: bool, error: Json)

  function ShapeOf(fields: Object): Shape {
    Shape(Get(fields, "type", Null), Truthy(Get(fields, "is_error", Bool(false))),
          Get(fields, "api_error_status", Null),
          Truthy(Get(fields, "is_api_error_message", Null)), Get(fields, "error", Null))
  }

  /** The structured content of an output: the shapes of its objects, in order. */
  function Shapes(lines: seq<Line>): seq<Shape> {
    if lines == [] then []
    else if lines[0].Skipped? then Shapes(lines[1..])
    else [ShapeOf(lines[0].fields)] + Shapes(lines[1..])
  }

  predicate ShapeIsResult(s: Shape) { s.kind == Str("result") }

  /** The verdict computed from the shapes alone, carrying the code seen so far. */
  function ShapeVerdict(shapes: seq<Shape>, code: string): Verdict {
    if shapes == [] then Failing(WORKER_FAILED)
    else
      var s := shapes[0];
      var next := if s.isApiError && s.error.Str? then s.error.s else code;
      if ShapeIsResult(s) then
        if !s.isError then Success
        else match Classify(s.status, next)
          case None => Unclassifiable
          case Some(f) => Failing(f)
      else ShapeVerdict(shapes[1..], next)
  }

  /** The last code of an output that was preceded by `code`. */
  function CodeFrom(lines: seq<Line>, code: string): string {
    if lines == [] then code
    else CodeFrom(lines[1..], if IsErrorCode(lines[0]) then lines[0].fields["error"].s else code)
  }

  lemma {:induction false} CodeFromSnoc(lines: seq<Line>, l: Line, code: string)
    ensures CodeFrom(lines + [l], code) == if IsErrorCode(l) then l.fields["error"].s else CodeFrom(lines, code)
    decreases |lines|
  {
    if lines == [] {
      assert [l][1..] == [] && lines + [l] == [l];
    } else {
      assert (lines + [l])[1..] == lines[1..] + [l];
      CodeFromSnoc(lines[1..], l, if IsErrorCode(lines[0]) then lines[0].fields["error"].s else code);
    }
  }

  lemma {:induction false} LastCodeIsCodeFrom(lines: seq<Line>)
    ensures LastCode(lines) == CodeFrom(lines, "")
  {
    if lines != [] {
      var k := |lines| - 1;
      LastCodeIsCodeFrom(lines[..k]);
      CodeFromSnoc(lines[..k], lines[k], "");
      assert lines[..k] + [lines[k]] == lines;
    }
  }

  /** The verdict with a code carried in, line by line. */
  function LineVerdict(lines: seq<Line>, code: string): Verdict {
    match ResultLine(lines)
    case None => Failing(WORKER_FAILED)
    case Some(p) =>
      if !Truthy(Get(p, "is_error", Bool(false))) then Success
      else match Classify(Get(p, "api_error_status", Null), CodeFrom(Scanned(lines), code))
        case None => Unclassifiable
        case Some(f) => Failing(f)
  }

  lemma {:induction false} LinesToShapes(lines: seq<Line>, code: string)
    ensures LineVerdict(lines, code) == ShapeVerdict(Shapes(lines), code)
    decreases |lines|
  {
    if lines != [] {
      var next := if IsErrorCode(lines[0]) then lines[0].fields["error"].s else code;
      LinesToShapes(lines[1..], next);
      if IsResult(lines[0]) {
        assert Scanned(lines) == [lines[0]] && [lines[0]][1..] == [];
        assert CodeFrom(Scanned(lines), code) == next;
      } else {
        assert FirstResult(lines) == 1 + FirstResult(lines[1..]);
        assert ResultLine(lines) == ResultLine(lines[1..]);
        assert Scanned(lines)[1..] == Scanned(lines[1..]);
        assert LineVerdict(lines, code) == LineVerdict(lines[1..], next);
      }
    }
  }

  /** The verdict is a function of the shapes. */
  lemma VerdictFromShapes(lines: seq<Line>, exitCode: int, stderr: string)
    ensures VerdictOf(RunReply(lines, exitCode, stderr)) == ShapeVerdict(Shapes(lines), "")
  {
    LinesToShapes(lines, "");
    LastCodeIsCodeFrom(Scanned(lines));
  }

  /** Wording is inert: two outputs whose objects agree on the five structured fields
      get the same verdict, whatever else they say, whatever is skipped between them,
      and whatever the exit codes and error streams were. */
  lemma WordingIsInert(lines1: seq<Line>, exit1: int, stderr1: string, lines2: seq<Line>, exit2: int, stderr2: string)
    requires Shapes(lines1) == Shapes(lines2)
    ensures VerdictOf(RunReply(lines1, exit1, stderr1)) == VerdictOf(RunReply(lines2, exit2, stderr2))
  {
    VerdictFromShapes(lines1, exit1, stderr1);
    VerdictFromShapes(lines2, exit2, stderr2);
  }
}
