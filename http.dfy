/**
 * What the model keeps of an HTTP exchange with the remote voice-agent
 * service: the status code, and whether the body decoded as JSON.
 */
module Http {
  import opened Wrappers
  import opened Json

  /** `decoded` is the result of `response.json()`: None when it raises. */
  datatype Response = Response(statusCode: int, decoded: Option<Json>)

  /** The status code both operations treat as success. */
  const Ok200: int := 200
}
