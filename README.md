# ai-phone-agent: a verified model of the request-building core

The repository is a small form front end to a third-party voice-agent HTTP
service. It offers two actions: placing an automated phone call
(`make_api_call`) and analysing a completed call (`analyze_call`). The second
one first runs the question formatter `format_questions`. This project models
the three pieces of `main.py` that hold logic, and proves properties of them:

- **Question formatter** (`text.dfy`, `question_formatter.dfy`). Python's
  `str.split(';')` and `str.strip()` are modelled exactly. Split gives n + 1
  pieces for n separators, so `""` gives `[""]`. Strip removes the characters
  for which `str.isspace()` holds. `FormatQuestions` is the source's loop,
  proved equal to the functional specification `Formatted`.
- **Request bodies** (`call_initiator.dfy`, `call_analyzer.dfy`). The body of
  `POST /v1/calls` and the body of `POST /v1/calls/{call_id}/analyze` are JSON
  values (`json.dfy`). The caller's fields are forwarded verbatim and every
  other member is a constant.
- **Outcome decision** (`http.dfy`, `call_initiator.dfy`, `call_analyzer.dfy`).
  A response is abstracted as a status code plus an optional decoded body
  (None when `response.json()` raises). `analyze_call` branches on the status
  and then on decoding. `make_api_call` never looks at the status, and a
  decode error escapes it as an error value (`CallError.InvalidJsonBody`).

The network is a parameter `post: Json -> Response`, which maps a request
body to the service's response. `CallInitiator.MakeApiCall` and
`CallAnalyzer.AnalyzeCall` take it as an argument.

One edge case is easy to get wrong: `format_questions("", "")` returns
`[["", ""]]`, not `[]`, because `"".split(';')` is `[""]`. The model follows
the code, and `QuestionFormatter.FormattedEmpty` proves this behaviour.

## Model

| member | source | states |
|---|---|---|
| Text.Split | main.py:75-76 | `s.split(';')` gives one piece more than `s` has separators, and no piece contains a separator |
| Text.JoinSplit | main.py:75-76 | joining the pieces of `s` with `;` gives `s` back |
| Text.SplitJoin | main.py:75-76 | splitting the `;`-join of any non-empty list of separator-free strings gives that list back, so Split is fully determined |
| Text.SplitAppend | main.py:75-76 | the pieces of `a;b` are the pieces of `a` followed by the pieces of `b` |
| Text.Strip | main.py:81 | `s.strip()` has no whitespace at either end and is no longer than `s` |
| Text.StripRemovesOnlySpace | main.py:81 | `s` is leading whitespace, then `s.strip()`, then trailing whitespace |
| Text.StripUnique | main.py:81 | for whitespace `a`, `b` and a stripped `m`, stripping `a + m + b` gives exactly `m` |
| Text.StripIdempotent | main.py:81 | stripping twice is the same as stripping once |
| Text.StripKeepsSepOut | main.py:75-81 | stripping a separator-free piece leaves it separator-free |
| QuestionFormatter.PairUp | main.py:80-81 | zipping two lists gives as many pairs as the shorter list has entries, pair k being the two stripped entries k |
| QuestionFormatter.Formatted | main.py:73-83 | the result has min(separators in questions, separators in types) + 1 pairs, so it is never empty; pair k is `[strip(question k), strip(type k)]` |
| QuestionFormatter.FormatQuestions | main.py:73-83 | the split-then-append loop returns exactly `Formatted(questions, types)` |
| QuestionFormatter.FormattedIsClean | main.py:81 | every string in the result is stripped, stripping it again changes nothing, and it contains no separator |
| QuestionFormatter.FormattedEmpty | main.py:75-81 | `("", "")` gives one pair of empty strings, not an empty list |
| QuestionFormatter.FormattedJoin | main.py:75-81 | formatting the `;`-joins of two lists of separator-free pieces zips those very pieces |
| QuestionFormatter.PairUpIgnoresLongerTail | main.py:80 | zip ignores entries appended to the longer first list |
| QuestionFormatter.PairUpIgnoresLongerTypes | main.py:80 | zip ignores entries appended to the longer second list |
| QuestionFormatter.ExtraQuestionsDropped | main.py:75-80 | appending `;extra` to a question list that is not shorter leaves the result unchanged |
| QuestionFormatter.ExtraTypesDropped | main.py:75-80 | appending `;extra` to a type list that is not shorter leaves the result unchanged |
| Json.StringsRoundTrip | main.py:53 | decoding the JSON array built from a list of strings gives that list |
| Json.StringRowsRoundTrip | main.py:53 | decoding the JSON array of arrays built from the question pairs gives those pairs |
| CallInitiator.CallPayloadForwardsArguments | main.py:16-19 | the receiver reads back exactly the caller's task and phone number |
| CallInitiator.CallPayloadKeys | main.py:16-39 | all 22 members are present, unset ones included |
| CallInitiator.CallPayloadLimits | main.py:25-30 | `max_duration` is 12 and `interruption_threshold` is 100 |
| CallInitiator.CallPayloadFlagsOff | main.py:24-29 | `record`, `amd`, `wait_for_greeting`, `local_dialing` and `answered_by_enabled` are false |
| CallInitiator.CallPayloadNulls | main.py:18-38 | `from`, `temperature`, `start_time` and `webhook` are null |
| CallInitiator.CallPayloadOnlyArgumentsVary | main.py:16-39 | every member other than `task` and `phone_number` is the same whatever the arguments |
| CallInitiator.MakeApiCall | main.py:9-43 | the call posts `CallPayload(prompt, phone_number)` and succeeds exactly when the service's body decodes, returning that body |
| CallInitiator.CallOutcomeIgnoresStatus | main.py:41-43 | `make_api_call` does no status branching: the status code never changes its result |
| CallAnalyzer.AnalysisPayloadForwardsArguments | main.py:48-54 | the receiver reads back the caller's goal and exactly `Formatted(questions, types)` |
| CallAnalyzer.AnalysisPayloadKeys | main.py:51-54 | the analysis body has exactly the members `goal` and `questions` |
| CallAnalyzer.AnalyzeCall | main.py:45-71 | formatting with the loop, building the body, posting it and deciding gives `AnalysisOutcome` of the service's response to `AnalysisPayload` |
| CallAnalyzer.SuccessReturnsBody | main.py:61-65 | status 200 with a decodable body returns that body |
| CallAnalyzer.UndecodableBodyIsInvalidJson | main.py:66-68 | status 200 with an undecodable body returns exactly `{"error": "Invalid JSON response received"}` |
| CallAnalyzer.FailureReportsStatus | main.py:69-71 | any other status returns exactly `{"error": "API call failed", "status_code": status}`, whatever the body |
| CallAnalyzer.OperationsAgreeOnSuccess | main.py:61-65 | on status 200 with a decodable body both operations return the body |
| CallAnalyzer.OperationsDisagreeOffSuccess | main.py:61-71 | on a non-200 response the initiator returns the body and the analyzer a failure record; on an undecodable 200 response the initiator fails and the analyzer returns an error object |
| CallAnalyzer.ErrorShapesAreAmbiguous | main.py:61-71 | a 200 response whose body is a failure record gives the same result as a real failure |

## Left out

- The HTTP calls themselves (`requests.post`) and real JSON decoding. The service is the parameter `post`, and a response is a status code plus an optional decoded value.
- Transport errors such as network, DNS and timeout failures. They propagate out of both operations in the source and are not modelled.
- The request URLs, including the `call_id` in the analysis URL. Also left out are the `Authorization` and `Content-Type` headers: the authorization key is only forwarded verbatim as a header.
- The order of members in a JSON object. Objects are maps. The dict insertion order, which fixes the member order in the sent body, is not modelled.
- Floating-point detail of decoded numbers. A non-integer number in a response body is an exact `real` (`Json.Num`). Rounding to a double is not modelled, and neither are the `NaN` and `Infinity` values that Python's decoder also accepts.
- `make_api_call` decodes the body twice, once for the log line and once for the return. The model decodes it once, since both calls see the same body.
- Logging (basic configuration, info and error lines). It has no effect on results.
- The Gradio interfaces, the tabbed layout and `demo.launch()`, which are user-interface plumbing.
