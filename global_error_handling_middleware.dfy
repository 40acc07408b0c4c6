/**
 * `GlobalErrorHandlingMiddleware`: runs the rest of the pipeline and, when
 * it throws, classifies the exception by its exact runtime type into an
 * HTTP status code and writes one error response, either a serialized
 * `ProblemDetails` or a flat text rendering of the same fields.
 *
 * The request identifiers come in as optional strings (`None` for null).
 * `HttpStatusCode.ToNormalizedString()` is an Atc helper outside this
 * model and is given as the function `titleOf`; the two `GetMessage`
 * texts are carried by each `Exception` value.
 */
module GlobalErrorHandlingMiddleware {
  import opened Wrappers
  import opened Exceptions
  import opened Strings

  // ---------------------------------------------------------------------
  // Classification
  // ---------------------------------------------------------------------

  /** The status codes the middleware produces. */
  datatype HttpStatusCode = BadRequest | Unauthorized | Conflict | NotImplemented | InternalServerError

  /** `(int)statusCode`. */
  function Code(statusCode: HttpStatusCode): int {
    match statusCode
    case BadRequest => 400
    case Unauthorized => 401
    case Conflict => 409
    case NotImplemented => 501
    case InternalServerError => 500
  }

  /**
   * `GetHttpStatusCodeByExceptionType`: the two validation exceptions and
   * `BadHttpRequestException` are bad requests, `UnauthorizedAccessException`
   * is unauthorized, `InvalidOperationException` a conflict,
   * `NotImplementedException` not implemented; every other runtime type,
   * subclasses of these included, is an internal server error.
   */
  function GetHttpStatusCodeByExceptionType(kind: ExceptionKind): (statusCode: HttpStatusCode)
    ensures Code(statusCode) == 400 <==>
      kind in {FluentValidationException, DataAnnotationsValidationException, BadHttpRequestException}
    ensures Code(statusCode) == 401 <==> kind == UnauthorizedAccessException
    ensures Code(statusCode) == 409 <==> kind == InvalidOperationException
    ensures Code(statusCode) == 501 <==> kind == NotImplementedException
    ensures Code(statusCode) == 500 <==> kind.OtherException?
  {
    if kind == FluentValidationException || kind == DataAnnotationsValidationException || kind == BadHttpRequestException then
      BadRequest
    else if kind == UnauthorizedAccessException then Unauthorized
    else if kind == InvalidOperationException then Conflict
    else if kind == NotImplementedException then NotImplemented
    else InternalServerError
  }

  /** `UseSimpleMessage`: the kinds whose own message is always enough. */
  predicate UseSimpleMessage(kind: ExceptionKind) {
    kind == BadHttpRequestException || kind == UnauthorizedAccessException || kind == NotImplementedException
  }

  // ---------------------------------------------------------------------
  // Options and request
  // ---------------------------------------------------------------------

  datatype GlobalErrorHandlingOptions =
    GlobalErrorHandlingOptions(includeException: bool, useProblemDetailsAsResponseBody: bool)

  /** `new GlobalErrorHandlingOptions()`. */
  const DefaultOptions := GlobalErrorHandlingOptions(false, true)

  /** What the middleware reads from the request: the correlation id and
      request id headers and `HttpContext.TraceIdentifier`. */
  datatype RequestInfo = RequestInfo(correlationId: Option<string>, requestId: Option<string>,
                                     traceIdentifier: Option<string>)

  predicate IsNullOrEmpty(s: Option<string>) {
    s.None? || |s.value| == 0
  }

  /** The detail text: the verbose message only when exceptions are to be
      included and the kind is not one of the simple ones. */
  function Detail(options: GlobalErrorHandlingOptions, exception: Exception): string {
    if UseSimpleMessage(exception.kind) then exception.message
    else if options.includeException then exception.detailedMessage
    else exception.message
  }

  /** The identifiers that are present, in the order the middleware adds them. */
  function ExtensionFields(request: RequestInfo): (fields: seq<(string, string)>)
    ensures |fields| <= 3
  {
    IdField("correlationId", request.correlationId) + IdField("requestId", request.requestId) +
    IdField("traceId", request.traceIdentifier)
  }

  /** An identifier under its name, when it is neither null nor empty. */
  function IdField(name: string, id: Option<string>): seq<(string, string)> {
    if IsNullOrEmpty(id) then [] else [(name, id.value)]
  }

  // ---------------------------------------------------------------------
  // The problem details body
  // ---------------------------------------------------------------------

  /** `problemDetails.Extensions[key] = value` on an insertion-ordered dictionary:
      an existing key keeps its place and gets the new value, a new key is
      appended. */
  function Assign(extensions: seq<(string, string)>, key: string, value: string): (r: seq<(string, string)>)
    ensures (forall i :: 0 <= i < |extensions| ==> extensions[i].0 != key) ==> r == extensions + [(key, value)]
    ensures (exists i :: 0 <= i < |extensions| && extensions[i].0 == key) ==> |r| == |extensions|
  {
    if |extensions| == 0 then [(key, value)]
    else if extensions[0].0 == key then [(key, value)] + extensions[1..]
    else
      var rest := Assign(extensions[1..], key, value);
      assert (exists i :: 0 <= i < |extensions| && extensions[i].0 == key) ==>
        (exists i :: 0 <= i < |extensions[1..]| && extensions[1..][i].0 == key) by {
        if exists i :: 0 <= i < |extensions| && extensions[i].0 == key {
          var i :| 0 <= i < |extensions| && extensions[i].0 == key;
          assert extensions[1..][i - 1].0 == key;
        }
      }
      [extensions[0]] + rest
  }

  /** The first position holding `key` among the extension names, or -1 when
      no entry holds it. */
  function KeyIndex(extensions: seq<(string, string)>, key: string): (i: int)
    ensures -1 <= i < |extensions|
    ensures i == -1 <==> forall j :: 0 <= j < |extensions| ==> extensions[j].0 != key
    ensures 0 <= i ==> extensions[i].0 == key && forall j :: 0 <= j < i ==> extensions[j].0 != key
    decreases |extensions|
  {
    if |extensions| == 0 then -1
    else if extensions[0].0 == key then 0
    else
      var k := KeyIndex(extensions[1..], key);
      assert forall j :: 1 <= j < |extensions| ==> extensions[j] == extensions[1..][j - 1];
      if k == -1 then -1 else k + 1
  }

  /** Assigning a key that is present overwrites its first entry in place
      and leaves every other entry as it was. */
  lemma {:induction false} AssignExisting(extensions: seq<(string, string)>, key: string, value: string)
    requires exists i :: 0 <= i < |extensions| && extensions[i].0 == key
    ensures 0 <= KeyIndex(extensions, key)
    ensures Assign(extensions, key, value) == extensions[KeyIndex(extensions, key) := (key, value)]
    decreases |extensions|
  {
    if extensions[0].0 != key {
      var tail := extensions[1..];
      var k :| 0 <= k < |extensions| && extensions[k].0 == key;
      assert tail[k - 1].0 == key;
      AssignExisting(tail, key, value);
      assert extensions == [extensions[0]] + tail;
    }
  }

  /** Several assignments in turn. */
  function AssignAll(extensions: seq<(string, string)>, fields: seq<(string, string)>): seq<(string, string)>
    decreases |fields|
  {
    if |fields| == 0 then extensions
    else AssignAll(Assign(extensions, fields[0].0, fields[0].1), fields[1..])
  }

  /** What `JsonSerializer.Serialize` writes of a `ProblemDetails`. */
  datatype ProblemValue = ProblemValue(status: int, title: string, detail: Option<string>,
                                       extensions: seq<(string, string)>)

  /** The `ProblemDetails` object the middleware fills in. */
  class ProblemDetails {
    var status: int
    var title: string
    var detail: Option<string>
    var extensions: seq<(string, string)>

    /** `new ProblemDetails { Status = status, Title = title }`. */
    constructor(status: int, title: string)
      ensures this.status == status && this.title == title
      ensures detail == None && extensions == []
    {
      this.status := status;
      this.title := title;
      detail := None;
      extensions := [];
    }

    function Value(): ProblemValue
      reads this
    {
      ProblemValue(status, title, detail, extensions)
    }
  }

  /** `SetExtensionFields`: each present identifier is assigned in turn. */
  method SetExtensionFields(problemDetails: ProblemDetails, request: RequestInfo)
    modifies problemDetails
    ensures problemDetails.extensions == AssignAll(old(problemDetails.extensions), ExtensionFields(request))
    ensures problemDetails.status == old(problemDetails.status) && problemDetails.title == old(problemDetails.title)
    ensures problemDetails.detail == old(problemDetails.detail)
  {
    var correlationId := request.correlationId;
    var requestId := request.requestId;
    var traceId := request.traceIdentifier;
    ghost var fields: seq<(string, string)> := [];
    ghost var start := problemDetails.extensions;
    if !IsNullOrEmpty(correlationId) {
      problemDetails.extensions := Assign(problemDetails.extensions, "correlationId", correlationId.value);
      fields := fields + [("correlationId", correlationId.value)];
      AssignAllSnoc(start, [], "correlationId", correlationId.value);
    }
    assert problemDetails.extensions == AssignAll(start, fields);
    if !IsNullOrEmpty(requestId) {
      AssignAllSnoc(start, fields, "requestId", requestId.value);
      problemDetails.extensions := Assign(problemDetails.extensions, "requestId", requestId.value);
      fields := fields + [("requestId", requestId.value)];
    }
    assert problemDetails.extensions == AssignAll(start, fields);
    if !IsNullOrEmpty(traceId) {
      AssignAllSnoc(start, fields, "traceId", traceId.value);
      problemDetails.extensions := Assign(problemDetails.extensions, "traceId", traceId.value);
      fields := fields + [("traceId", traceId.value)];
    }
    assert fields == ExtensionFields(request);
  }

  /** One more assignment after several. */
  lemma {:induction false} AssignAllSnoc(extensions: seq<(string, string)>, fields: seq<(string, string)>,
                                         key: string, value: string)
    ensures AssignAll(extensions, fields + [(key, value)]) == Assign(AssignAll(extensions, fields), key, value)
    decreases |fields|
  {
    if |fields| > 0 {
      assert (fields + [(key, value)])[1..] == fields[1..] + [(key, value)];
      AssignAllSnoc(Assign(extensions, fields[0].0, fields[0].1), fields[1..], key, value);
    }
  }

  /** Assigning fields with new, distinct keys appends them in order. */
  lemma {:induction false} AssignAllFresh(extensions: seq<(string, string)>, fields: seq<(string, string)>)
    requires forall i, j :: 0 <= i < |extensions| && 0 <= j < |fields| ==> extensions[i].0 != fields[j].0
    requires forall i, j :: 0 <= i < j < |fields| ==> fields[i].0 != fields[j].0
    ensures AssignAll(extensions, fields) == extensions + fields
    decreases |fields|
  {
    if |fields| > 0 {
      var next := Assign(extensions, fields[0].0, fields[0].1);
      assert next == extensions + [fields[0]];
      forall i, j | 0 <= i < |next| && 0 <= j < |fields[1..]| ensures next[i].0 != fields[1..][j].0 {
        assert fields[1..][j] == fields[j + 1];
      }
      AssignAllFresh(next, fields[1..]);
      assert extensions + fields == next + fields[1..];
    }
  }

  /** The body `CreateProblemDetails` builds for an exception. */
  function Problem(options: GlobalErrorHandlingOptions, request: RequestInfo, exception: Exception,
                   statusCode: HttpStatusCode, titleOf: HttpStatusCode -> string): ProblemValue
  {
    ProblemValue(Code(statusCode), titleOf(statusCode), Some(Detail(options, exception)), ExtensionFields(request))
  }

  // ---------------------------------------------------------------------
  // The flat text body
  // ---------------------------------------------------------------------

  /** `Environment.NewLine`, fixed here to a single line feed. */
  const NewLine: string := "\n"

  /** `int.ToString` in the invariant (English) culture, for a non-negative value. */
  function DecimalString(n: nat): (s: string)
    ensures |s| > 0 && forall c :: c in s ==> '0' <= c <= '9'
    ensures forall i :: 0 <= i < |s| ==> '0' <= s[i] <= '9'
  {
    var digit := ['0' + (n % 10) as char];
    if n < 10 then digit else DecimalString(n / 10) + digit
  }

  /** The number a string of decimal digits spells, most significant digit first. */
  function DigitsValue(s: string): nat
    requires forall i :: 0 <= i < |s| ==> '0' <= s[i] <= '9'
    decreases |s|
  {
    if |s| == 0 then 0
    else 10 * DigitsValue(s[..|s| - 1]) + (s[|s| - 1] as int - '0' as int)
  }

  /** The digits spell `n` back, with no leading zero. */
  lemma {:induction false} DecimalStringValue(n: nat)
    ensures DigitsValue(DecimalString(n)) == n
    ensures |DecimalString(n)| > 1 ==> DecimalString(n)[0] != '0'
    decreases n
  {
    var s := DecimalString(n);
    if n >= 10 {
      DecimalStringValue(n / 10);
      assert s[..|s| - 1] == DecimalString(n / 10);
    }
  }

  /** The status line for an `InvalidOperationException` reads `409`. */
  lemma ConflictStatusDigits()
    ensures DecimalString(Code(GetHttpStatusCodeByExceptionType(InvalidOperationException)) as nat) == "409"
  {
  }

  /** `sb.Append(2, name + ": ")` then `sb.AppendLine(value)`. */
  function Field(name: string, value: string): string {
    "  " + name + ": " + value
  }

  /** The lines between the braces of the flat text, in order. */
  function MessageLines(options: GlobalErrorHandlingOptions, request: RequestInfo, exception: Exception,
                        statusCode: HttpStatusCode, titleOf: HttpStatusCode -> string): seq<string>
  {
    [Field("status", DecimalString(Code(statusCode) as nat)), Field("title", titleOf(statusCode)),
     Field("detail", Detail(options, exception))] + FieldLines(ExtensionFields(request))
  }

  function FieldLines(fields: seq<(string, string)>): (lines: seq<string>)
    ensures |lines| == |fields|
    ensures forall i :: 0 <= i < |fields| ==> lines[i] == Field(fields[i].0, fields[i].1)
  {
    seq(|fields|, i requires 0 <= i < |fields| => Field(fields[i].0, fields[i].1))
  }

  /** Lines each followed by a line break, as `AppendLine` writes them. */
  function Lines(lines: seq<string>): string
    decreases |lines|
  {
    if |lines| == 0 then "" else Lines(lines[..|lines| - 1]) + lines[|lines| - 1] + NewLine
  }

  /** The text `CreateMessage` builds: an opening brace line, the lines,
      and a closing brace with no line break after it. */
  function MessageText(lines: seq<string>): string {
    "{" + NewLine + Lines(lines) + "}"
  }

  /** Writing one more line after the lines written so far. */
  lemma LinesSnoc(lines: seq<string>, line: string)
    ensures Lines(lines + [line]) == Lines(lines) + line + NewLine
  {
    assert (lines + [line])[..|lines|] == lines;
  }

  /** `sb.Append(2, name + ": ")` followed by `sb.AppendLine(value)` on the
      builder of the flat text. */
  method AppendField(sb: string, ghost lines: seq<string>, name: string, value: string)
    returns (sb': string, ghost lines': seq<string>)
    requires sb == "{" + NewLine + Lines(lines)
    ensures lines' == lines + [Field(name, value)]
    ensures sb' == "{" + NewLine + Lines(lines')
  {
    var line := Field(name, value);
    LinesSnoc(lines, line);
    sb' := sb + line + NewLine;
    lines' := lines + [line];
  }

  /** An identifier's line, appended only when the identifier is neither
      null nor empty. */
  method AppendIdentifier(sb: string, ghost lines: seq<string>, name: string, id: Option<string>)
    returns (sb': string, ghost lines': seq<string>)
    requires sb == "{" + NewLine + Lines(lines)
    ensures lines' == lines + FieldLines(IdField(name, id))
    ensures sb' == "{" + NewLine + Lines(lines')
  {
    if !IsNullOrEmpty(id) {
      sb', lines' := AppendField(sb, lines, name, id.value);
    } else {
      sb', lines' := sb, lines;
    }
  }

  /** The opening brace and the status, title and detail lines. */
  method AppendHeader(options: GlobalErrorHandlingOptions, exception: Exception,
                      statusCode: HttpStatusCode, titleOf: HttpStatusCode -> string)
    returns (sb: string, ghost lines: seq<string>)
    ensures lines == [Field("status", DecimalString(Code(statusCode) as nat)), Field("title", titleOf(statusCode)),
                      Field("detail", Detail(options, exception))]
    ensures sb == "{" + NewLine + Lines(lines)
  {
    var status, title, detail := DecimalString(Code(statusCode) as nat), titleOf(statusCode), Detail(options, exception);
    sb := "{" + NewLine;
    lines := [];
    assert sb == "{" + NewLine + Lines(lines);
    sb, lines := AppendField(sb, lines, "status", status);
    assert lines == [Field("status", status)];
    sb, lines := AppendField(sb, lines, "title", title);
    assert lines == [Field("status", status), Field("title", title)];
    sb, lines := AppendField(sb, lines, "detail", detail);
  }

  /**
   * `CreateMessage`: the flat text, appended to a `StringBuilder` line by
   * line; each identifier line is appended only when the identifier is
   * neither null nor empty.
   */
  method CreateMessage(options: GlobalErrorHandlingOptions, request: RequestInfo, exception: Exception,
                       statusCode: HttpStatusCode, titleOf: HttpStatusCode -> string) returns (text: string)
    ensures text == MessageText(MessageLines(options, request, exception, statusCode, titleOf))
  {
    var sb;
    ghost var lines;
    sb, lines := AppendHeader(options, exception, statusCode, titleOf);
    ghost var fixedLines := lines;
    sb, lines := AppendIdentifier(sb, lines, "correlationId", request.correlationId);
    sb, lines := AppendIdentifier(sb, lines, "requestId", request.requestId);
    sb, lines := AppendIdentifier(sb, lines, "traceId", request.traceIdentifier);
    IdentifierLines(fixedLines, request);
    assert lines == MessageLines(options, request, exception, statusCode, titleOf);
    text := sb + "}";
  }

  // ---------------------------------------------------------------------
  // The response
  // ---------------------------------------------------------------------

  /** `MediaTypeNames.Application.Json`. */
  const ApplicationJson: string := "application/json"

  /** The parts of `HttpContext.Response` the middleware sets: the content
      type, the status code, and the texts written to the body, in order. */
  class HttpResponse {
    var contentType: Option<string>
    var statusCode: int
    var written: seq<string>

    /** A response nothing has been set on yet. */
    constructor()
      ensures contentType == None && statusCode == 200 && written == []
    {
      contentType := None;
      statusCode := 200;
      written := [];
    }
  }

  /**
   * The text the middleware writes for an exception: the serialized problem
   * details, or the flat text. `JsonSerializer.Serialize` is outside this
   * model and is given as `serialize`.
   */
  function ResponseText(options: GlobalErrorHandlingOptions, request: RequestInfo, exception: Exception,
                        titleOf: HttpStatusCode -> string, serialize: ProblemValue -> string): string
  {
    var statusCode := GetHttpStatusCodeByExceptionType(exception.kind);
    if options.useProblemDetailsAsResponseBody then serialize(Problem(options, request, exception, statusCode, titleOf))
    else MessageText(MessageLines(options, request, exception, statusCode, titleOf))
  }

  /**
   * `CreateProblemDetails`: a new `ProblemDetails` with the status code and
   * its name, the detail text, and the identifiers that are present.
   */
  method CreateProblemDetails(options: GlobalErrorHandlingOptions, request: RequestInfo, exception: Exception,
                              statusCode: HttpStatusCode, titleOf: HttpStatusCode -> string)
    returns (result: ProblemDetails)
    ensures fresh(result)
    ensures result.Value() == Problem(options, request, exception, statusCode, titleOf)
  {
    result := new ProblemDetails(Code(statusCode), titleOf(statusCode));
    if UseSimpleMessage(exception.kind) {
      result.detail := Some(exception.message);
    } else {
      result.detail := Some(if options.includeException then exception.detailedMessage else exception.message);
    }
    SetExtensionFields(result, request);
    ExtensionFieldsDistinct(request);
    AssignAllFresh([], ExtensionFields(request));
    assert [] + ExtensionFields(request) == ExtensionFields(request);
  }

  /** The three identifier names differ, so each is assigned afresh. */
  lemma ExtensionFieldsDistinct(request: RequestInfo)
    ensures forall i, j :: 0 <= i < j < |ExtensionFields(request)| ==>
      ExtensionFields(request)[i].0 != ExtensionFields(request)[j].0
  {
  }

  /** The middleware with its options; `null` options are the defaults. */
  class Middleware {
    const options: GlobalErrorHandlingOptions

    /** `new GlobalErrorHandlingMiddleware(next, options)`. */
    constructor(options: Option<GlobalErrorHandlingOptions>)
      ensures this.options == options.GetOr(DefaultOptions)
    {
      this.options := options.GetOr(DefaultOptions);
    }

    /**
     * `HandleExceptionAsync`: the response gets the JSON content type and the
     * classified status code, and exactly one text is written to its body.
     */
    method HandleExceptionAsync(request: RequestInfo, response: HttpResponse, exception: Exception,
                                titleOf: HttpStatusCode -> string, serialize: ProblemValue -> string)
      modifies response
      ensures response.contentType == Some(ApplicationJson)
      ensures response.statusCode == Code(GetHttpStatusCodeByExceptionType(exception.kind))
      ensures response.written == old(response.written) + [ResponseText(options, request, exception, titleOf, serialize)]
    {
      var statusCode := GetHttpStatusCodeByExceptionType(exception.kind);
      response.contentType := Some(ApplicationJson);
      response.statusCode := Code(statusCode);
      var exceptionResult: string;
      if options.useProblemDetailsAsResponseBody {
        var problemDetails := CreateProblemDetails(options, request, exception, statusCode, titleOf);
        exceptionResult := serialize(problemDetails.Value());
      } else {
        exceptionResult := CreateMessage(options, request, exception, statusCode, titleOf);
      }
      response.written := response.written + [exceptionResult];
    }

    /**
     * `Invoke`: runs the rest of the pipeline, whose outcome is given as the
     * exception it threw (`None` when it completed). A completed pipeline
     * leaves the response to it; an exception is handled with one response.
     */
    method Invoke(request: RequestInfo, response: HttpResponse, nextThrew: Option<Exception>,
                  titleOf: HttpStatusCode -> string, serialize: ProblemValue -> string)
      modifies response
      ensures nextThrew.None? ==> unchanged(response)
      ensures nextThrew.Some? ==>
        response.contentType == Some(ApplicationJson) &&
        response.statusCode == Code(GetHttpStatusCodeByExceptionType(nextThrew.value.kind)) &&
        response.written == old(response.written) + [ResponseText(options, request, nextThrew.value, titleOf, serialize)]
    {
      if nextThrew.Some? {
        HandleExceptionAsync(request, response, nextThrew.value, titleOf, serialize);
      }
    }
  }

  // ---------------------------------------------------------------------
  // What the middleware promises
  // ---------------------------------------------------------------------

  /** The fields of a problem body, in the order the flat text lists them;
      the detail only when there is one. */
  function ProblemFields(problem: ProblemValue): seq<(string, string)>
    requires problem.status >= 0
  {
    [("status", DecimalString(problem.status)), ("title", problem.title)] +
    (if problem.detail.Some? then [("detail", problem.detail.value)] else []) +
    problem.extensions
  }

  /** The flat text lists exactly the fields of the problem body, in order:
      status, title, detail, then the identifiers that are present. */
  lemma FlatTextMatchesProblem(options: GlobalErrorHandlingOptions, request: RequestInfo, exception: Exception,
                               statusCode: HttpStatusCode, titleOf: HttpStatusCode -> string)
    ensures MessageLines(options, request, exception, statusCode, titleOf) ==
      FieldLines(ProblemFields(Problem(options, request, exception, statusCode, titleOf)))
  {
    var problem := Problem(options, request, exception, statusCode, titleOf);
    var head := [("status", DecimalString(problem.status)), ("title", problem.title), ("detail", problem.detail.value)];
    assert ProblemFields(problem) == head + ExtensionFields(request);
    FieldLinesAppend(head, ExtensionFields(request));
  }

  /** The identifier lines appended one by one are the lines of the
      extension fields. */
  lemma IdentifierLines(lines: seq<string>, request: RequestInfo)
    ensures lines + FieldLines(IdField("correlationId", request.correlationId))
                  + FieldLines(IdField("requestId", request.requestId))
                  + FieldLines(IdField("traceId", request.traceIdentifier))
            == lines + FieldLines(ExtensionFields(request))
  {
    var c, r, t := IdField("correlationId", request.correlationId), IdField("requestId", request.requestId),
                   IdField("traceId", request.traceIdentifier);
    FieldLinesAppend(c, r);
    FieldLinesAppend(c + r, t);
  }

  lemma FieldLinesAppend(a: seq<(string, string)>, b: seq<(string, string)>)
    ensures FieldLines(a + b) == FieldLines(a) + FieldLines(b)
  {
  }

  /** Joining `{`, some lines, with line breaks, gives the text the builder
      holds before its closing brace. */
  lemma {:induction false} JoinedLines(lines: seq<string>)
    ensures Join(["{"] + lines, '\n') + NewLine == "{" + NewLine + Lines(lines)
    decreases |lines|
  {
    if |lines| > 0 {
      var init, last := lines[..|lines| - 1], lines[|lines| - 1];
      JoinedLines(init);
      assert ["{"] + lines == (["{"] + init) + [last];
      JoinSnoc(["{"] + init, last, '\n');
    }
  }

  /** A flat text whose lines hold no line break splits back into its lines,
      between the brace lines. */
  lemma FlatTextLines(lines: seq<string>)
    requires forall i :: 0 <= i < |lines| ==> '\n' !in lines[i]
    ensures Split(MessageText(lines), '\n') == ["{"] + lines + ["}"]
  {
    JoinedLines(lines);
    JoinSnoc(["{"] + lines, "}", '\n');
    var parts := ["{"] + lines + ["}"];
    forall k | 0 <= k < |parts| ensures '\n' !in parts[k] {
      if 0 < k < |parts| - 1 {
        assert parts[k] == lines[k - 1];
      }
    }
    SplitJoin(parts, '\n');
  }

  /** A field line has a line break only where its name or value has one. */
  lemma FieldLineBreaks(name: string, value: string)
    requires '\n' !in name && '\n' !in value
    ensures '\n' !in Field(name, value)
  {
  }

  /** When no title, message or identifier holds a line break, the flat text
      reads back, line by line, as the fields of the problem body. */
  lemma FlatTextReadsAsProblem(options: GlobalErrorHandlingOptions, request: RequestInfo, exception: Exception,
                               statusCode: HttpStatusCode, titleOf: HttpStatusCode -> string)
    requires '\n' !in titleOf(statusCode)
    requires '\n' !in exception.message && '\n' !in exception.detailedMessage
    requires forall id :: id in [request.correlationId, request.requestId, request.traceIdentifier] && id.Some? ==>
      '\n' !in id.value
    ensures var problem := Problem(options, request, exception, statusCode, titleOf);
      Split(MessageText(MessageLines(options, request, exception, statusCode, titleOf)), '\n') ==
        ["{"] + FieldLines(ProblemFields(problem)) + ["}"]
  {
    var lines := MessageLines(options, request, exception, statusCode, titleOf);
    FlatTextMatchesProblem(options, request, exception, statusCode, titleOf);
    var fields := ProblemFields(Problem(options, request, exception, statusCode, titleOf));
    forall i | 0 <= i < |lines| ensures '\n' !in lines[i] {
      assert lines[i] == Field(fields[i].0, fields[i].1);
      assert '\n' !in fields[i].0 && '\n' !in fields[i].1 by {
        if i == 0 {
          DecimalDigits(Code(statusCode) as nat);
        }
      }
    }
    FlatTextLines(lines);
  }

  /** A decimal number has no line break. */
  lemma DecimalDigits(n: nat)
    ensures '\n' !in DecimalString(n)
  {
  }

  /** An identifier is in the problem body exactly when it is neither null
      nor empty, under its own name and with its own value. */
  lemma ExtensionFieldsPresent(request: RequestInfo)
    ensures !IsNullOrEmpty(request.correlationId) <==>
      ("correlationId", request.correlationId.GetOr("")) in ExtensionFields(request)
    ensures !IsNullOrEmpty(request.requestId) <==>
      ("requestId", request.requestId.GetOr("")) in ExtensionFields(request)
    ensures !IsNullOrEmpty(request.traceIdentifier) <==>
      ("traceId", request.traceIdentifier.GetOr("")) in ExtensionFields(request)
    ensures forall f :: f in ExtensionFields(request) ==>
      (f.0 == "correlationId" && request.correlationId == Some(f.1) && |f.1| > 0) ||
      (f.0 == "requestId" && request.requestId == Some(f.1) && |f.1| > 0) ||
      (f.0 == "traceId" && request.traceIdentifier == Some(f.1) && |f.1| > 0)
  {
  }

  /** The verbose detail (inner message and exception name) is used exactly
      when exceptions are to be included and the kind is not a simple one;
      every other time the detail is the exception's own message. */
  lemma VerboseDetail(options: GlobalErrorHandlingOptions, exception: Exception)
    ensures options.includeException && !UseSimpleMessage(exception.kind) ==>
      Detail(options, exception) == exception.detailedMessage
    ensures !(options.includeException && !UseSimpleMessage(exception.kind)) ==>
      Detail(options, exception) == exception.message
  {
  }

  /** With default options no response reveals more than the exception's
      own message, and the body is problem details. */
  lemma DefaultOptionsHideException(request: RequestInfo, exception: Exception, statusCode: HttpStatusCode,
                                    titleOf: HttpStatusCode -> string)
    ensures Problem(DefaultOptions, request, exception, statusCode, titleOf).detail == Some(exception.message)
    ensures DefaultOptions.useProblemDetailsAsResponseBody
  {
  }
}
