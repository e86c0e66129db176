/**
 * The call initiator (`make_api_call`): build the fixed "start a call"
 * request body around the caller's task and phone number, post it, and
 * hand back the decoded response body whatever the status code.
 */
module CallInitiator {
  import opened Wrappers
  import opened Json
  import opened Http

  /** The cap on call length, in minutes, that every call is sent with. */
  const MaxDuration: int := 12

  /** The interruption threshold every call is sent with. */
  const InterruptionThreshold: int := 100

  /** The request body of `POST /v1/calls`. */
  function CallPayload(prompt: string, phoneNumber: string): Json {
    Obj(map[
      "phone_number" := Str(phoneNumber),
      "from" := Null,
      "task" := Str(prompt),
      "model" := Str("enhanced"),
      "language" := Str("eng"),
      "voice" := Str("maya"),
      "voice_settings" := Obj(map[]),
      "local_dialing" := Bool(false),
      "max_duration" := Int(MaxDuration),
      "answered_by_enabled" := Bool(false),
      "wait_for_greeting" := Bool(false),
      "record" := Bool(false),
      "amd" := Bool(false),
      "interruption_threshold" := Int(InterruptionThreshold),
      "temperature" := Null,
      "transfer_list" := Obj(map[]),
      "metadata" := Obj(map[]),
      "pronunciation_guide" := Arr([]),
      "start_time" := Null,
      "request_data" := Obj(map[]),
      "tools" := Arr([]),
      "webhook" := Null
    ])
  }

  /** How the receiver reads the caller's fields back: (task, phone number). */
  function ReadCallRequest(body: Json): Option<(string, string)> {
    match (Get(body, "task"), Get(body, "phone_number"))
    case (Some(Str(task)), Some(Str(phone))) => Some((task, phone))
    case _ => None
  }

  /** The task and the phone number are forwarded verbatim. */
  lemma CallPayloadForwardsArguments(prompt: string, phoneNumber: string)
    ensures ReadCallRequest(CallPayload(prompt, phoneNumber)) == Some((prompt, phoneNumber))
  {
  }

  /**
   * Every member is sent, the unset ones included: the remote service
   * expects all of them to be present.
   */
  lemma CallPayloadKeys(prompt: string, phoneNumber: string)
    ensures CallPayload(prompt, phoneNumber).members.Keys == {
      "phone_number", "from", "task", "model", "language", "voice",
      "voice_settings", "local_dialing", "max_duration", "answered_by_enabled",
      "wait_for_greeting", "record", "amd", "interruption_threshold",
      "temperature", "transfer_list", "metadata", "pronunciation_guide",
      "start_time", "request_data", "tools", "webhook"}
  {
  }

  /** The call is capped at 12 minutes with an interruption threshold of 100. */
  lemma CallPayloadLimits(prompt: string, phoneNumber: string)
    ensures var body := CallPayload(prompt, phoneNumber);
      Get(body, "max_duration") == Some(Int(12))
      && Get(body, "interruption_threshold") == Some(Int(100))
  {
  }

  /** Recording, answering-machine detection, greeting wait, local dialing and answered-by detection are all off. */
  lemma CallPayloadFlagsOff(prompt: string, phoneNumber: string)
    ensures var body := CallPayload(prompt, phoneNumber);
      Get(body, "record") == Some(Bool(false))
      && Get(body, "amd") == Some(Bool(false))
      && Get(body, "wait_for_greeting") == Some(Bool(false))
      && Get(body, "local_dialing") == Some(Bool(false))
      && Get(body, "answered_by_enabled") == Some(Bool(false))
  {
  }

  /** The unset optional members are sent as explicit nulls. */
  lemma CallPayloadNulls(prompt: string, phoneNumber: string)
    ensures var body := CallPayload(prompt, phoneNumber);
      Get(body, "from") == Some(Null)
      && Get(body, "temperature") == Some(Null)
      && Get(body, "start_time") == Some(Null)
      && Get(body, "webhook") == Some(Null)
  {
  }

  /** Apart from the task and the phone number, the body is a constant. */
  lemma CallPayloadOnlyArgumentsVary(prompt: string, phoneNumber: string,
                                     prompt': string, phoneNumber': string, key: string)
    requires key != "task" && key != "phone_number"
    ensures Get(CallPayload(prompt, phoneNumber), key) == Get(CallPayload(prompt', phoneNumber'), key)
  {
  }

  /** The decode error that `make_api_call` lets escape to its caller. */
  datatype CallError = InvalidJsonBody

  /**
   * The result of `make_api_call` for a given response: the decoded body,
   * or the decode error; the status code is never looked at.
   */
  function CallOutcome(response: Response): Result<Json, CallError> {
    match response.decoded
    case Some(body) => Ok(body)
    case None => Err(InvalidJsonBody)
  }

  /**
   * `make_api_call` with the network abstracted as `post`, which maps the
   * request body to the response the service gives.
   */
  function MakeApiCall(prompt: string, phoneNumber: string, post: Json -> Response): (r: Result<Json, CallError>)
    ensures var response := post(CallPayload(prompt, phoneNumber));
      && (r.Ok? <==> response.decoded.Some?)
      && (r.Ok? ==> r.value == response.decoded.value)
  {
    CallOutcome(post(CallPayload(prompt, phoneNumber)))
  }

  /** No status branching: two responses with the same body give the same result. */
  lemma CallOutcomeIgnoresStatus(status: int, status': int, decoded: Option<Json>)
    ensures CallOutcome(Response(status, decoded)) == CallOutcome(Response(status', decoded))
  {
  }
}
