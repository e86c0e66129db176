/**
 * The call analyzer (`analyze_call`): format the questions, build the
 * analysis request body, post it, and turn the response into a result by
 * looking at the status code first and at the decoded body second.
 */
module CallAnalyzer {
  import opened Wrappers
  import opened Json
  import opened Http
  import opened QuestionFormatter
  import CallInitiator

  /** The request body of `POST /v1/calls/{call_id}/analyze`. */
  function AnalysisPayload(goal: string, questions: string, types: string): Json {
    Obj(map[
      "goal" := Str(goal),
      "questions" := Arr(FromStringRows(Formatted(questions, types)))
    ])
  }

  /** How the receiver reads the request back: the goal and the question pairs. */
  function ReadAnalysisRequest(body: Json): Option<(string, seq<seq<string>>)> {
    match (Get(body, "goal"), Get(body, "questions"))
    case (Some(Str(goal)), Some(Arr(items))) =>
      (match ToStringRows(items)
       case Some(pairs) => Some((goal, pairs))
       case None => None)
    case _ => None
  }

  /**
   * The goal is forwarded verbatim and the questions are exactly what the
   * formatter makes of the two input strings.
   */
  lemma AnalysisPayloadForwardsArguments(goal: string, questions: string, types: string)
    ensures ReadAnalysisRequest(AnalysisPayload(goal, questions, types))
         == Some((goal, Formatted(questions, types)))
  {
    StringRowsRoundTrip(Formatted(questions, types));
  }

  /** The body has just the two members `goal` and `questions`. */
  lemma AnalysisPayloadKeys(goal: string, questions: string, types: string)
    ensures AnalysisPayload(goal, questions, types).members.Keys == {"goal", "questions"}
  {
  }

  /** `{"error": "Invalid JSON response received"}` */
  const InvalidJsonError: Json := Obj(map["error" := Str("Invalid JSON response received")])

  /** `{"error": "API call failed", "status_code": status}` */
  function ApiCallFailed(status: int): Json {
    Obj(map["error" := Str("API call failed"), "status_code" := Int(status)])
  }

  /** The result `analyze_call` returns for a given response. */
  function AnalysisOutcome(response: Response): Json {
    if response.statusCode == Ok200 then
      match response.decoded
      case Some(body) => body
      case None => InvalidJsonError
    else ApiCallFailed(response.statusCode)
  }

  /**
   * `analyze_call` with the network abstracted as `post`, which maps the
   * request body to the response the service gives. It formats the
   * questions with the imperative formatter, as the source does.
   */
  method AnalyzeCall(goal: string, questions: string, types: string, post: Json -> Response)
    returns (result: Json)
    ensures result == AnalysisOutcome(post(AnalysisPayload(goal, questions, types)))
  {
    var formattedQuestions := FormatQuestions(questions, types);
    var payload := Obj(map["goal" := Str(goal), "questions" := Arr(FromStringRows(formattedQuestions))]);
    var response := post(payload);
    if response.statusCode == Ok200 {
      match response.decoded
      case Some(body) => result := body;
      case None => result := InvalidJsonError;
    } else {
      result := ApiCallFailed(response.statusCode);
    }
  }

  /** On status 200 with a decodable body, that body is the result. */
  lemma SuccessReturnsBody(body: Json)
    ensures AnalysisOutcome(Response(200, Some(body))) == body
  {
  }

  /**
   * On status 200 with a body that does not decode, the result is the
   * single-member invalid-JSON error, with no status code in it.
   */
  lemma UndecodableBodyIsInvalidJson()
    ensures var r := AnalysisOutcome(Response(200, None));
      && Get(r, "error") == Some(Str("Invalid JSON response received"))
      && r.members.Keys == {"error"}
  {
  }

  /**
   * On any other status the result reports the failure and carries the
   * status code, and the body is discarded: it does not matter whether or
   * to what it decoded.
   */
  lemma FailureReportsStatus(status: int, decoded: Option<Json>, decoded': Option<Json>)
    requires status != 200
    ensures var r := AnalysisOutcome(Response(status, decoded));
      && Get(r, "error") == Some(Str("API call failed"))
      && Get(r, "status_code") == Some(Int(status))
      && r.members.Keys == {"error", "status_code"}
      && r == AnalysisOutcome(Response(status, decoded'))
  {
  }

  /**
   * The two operations agree exactly on status 200 with a decodable body:
   * the call initiator also returns the body there.
   */
  lemma OperationsAgreeOnSuccess(response: Response)
    requires response.statusCode == 200 && response.decoded.Some?
    ensures CallInitiator.CallOutcome(response) == Ok(AnalysisOutcome(response))
  {
  }

  /**
   * The asymmetry between the two operations: on a rejected call the
   * initiator hands back the decoded body, the analyzer a failure record;
   * on an undecodable 200 response the initiator fails, the analyzer
   * returns an error object.
   */
  lemma OperationsDisagreeOffSuccess(status: int, body: Json)
    requires status != 200
    ensures CallInitiator.CallOutcome(Response(status, Some(body))) == Ok(body)
    ensures AnalysisOutcome(Response(status, Some(body))) == ApiCallFailed(status)
    ensures CallInitiator.CallOutcome(Response(200, None)).Err?
    ensures AnalysisOutcome(Response(200, None)) == InvalidJsonError
  {
  }

  /**
   * A caller cannot tell a local error from a remote body of the same
   * shape: a 200 response whose body is a failure record gives the same
   * result as a real failure.
   */
  lemma ErrorShapesAreAmbiguous(status: int)
    requires status != 200
    ensures AnalysisOutcome(Response(200, Some(ApiCallFailed(status))))
         == AnalysisOutcome(Response(status, None))
  {
  }
}
