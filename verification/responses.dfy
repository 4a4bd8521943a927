/** The envelopes every tool answers with, and the decorator that turns the
    exceptions a tool raises into error envelopes. An envelope is the JSON
    object before `json.dumps`: `{data, message}` on success,
    `{error[, action_required]}` on failure. */
module Responses {
  import opened Base
  import opened Json
  import opened Errors

  const DefaultMessage: string := "success"
  const LoginAction: string := "Please call the graph_auth_login tool first."

  /** What an envelope says, read back from its JSON object. */
  datatype Envelope =
    | Success(data: Value, message: string)
    | Failure(error: string, action: Option<string>)

  /** Reading an envelope: an object with exactly `data` and a text
      `message`, or with a text `error` and possibly a text `action_required`
      and nothing else. */
  function ReadEnvelope(v: Value): Option<Envelope> {
    if !v.Obj? then None
    else if v.fields.Keys == {"data", "message"} && v.fields["message"].Str? then
      Some(Success(v.fields["data"], v.fields["message"].s))
    else if v.fields.Keys == {"error"} && v.fields["error"].Str? then
      Some(Failure(v.fields["error"].s, None))
    else if v.fields.Keys == {"error", "action_required"} && v.fields["error"].Str?
            && v.fields["action_required"].Str? then
      Some(Failure(v.fields["error"].s, Some(v.fields["action_required"].s)))
    else None
  }

  /** `success_response`: the data and the message, nothing else. */
  function SuccessResponse(data: Value, message: string := DefaultMessage): (v: Value)
    ensures ReadEnvelope(v) == Some(Success(data, message))
  {
    Obj(map["data" := data, "message" := Str(message)])
  }

  /** `error_response`: the error, and the action only when one is given
      and it is not empty. */
  function ErrorResponse(error: string, action: Option<string> := None): (v: Value)
    ensures v.Obj? && ("action_required" in v.fields <==> action.Some? && action.value != "")
    ensures ReadEnvelope(v) == Some(Failure(error, if action.Some? && action.value != "" then action else None))
  {
    if action.Some? && action.value != "" then
      Obj(map["error" := Str(error), "action_required" := Str(action.value)])
    else Obj(map["error" := Str(error)])
  }

  /** Without a message a success reads as `success`; without an action a
      failure is the bare error. */
  lemma ResponseDefaults(data: Value, error: string)
    ensures ReadEnvelope(SuccessResponse(data)) == Some(Success(data, "success"))
    ensures ErrorResponse(error) == Obj(map["error" := Str(error)])
  {
  }

  /** A success envelope never reads as a failure. */
  lemma EnvelopesDistinct(data: Value, message: string, error: string, action: Option<string>)
    ensures SuccessResponse(data, message) != ErrorResponse(error, action)
  {
    var s := SuccessResponse(data, message);
    assert "data" in s.fields;
  }

  lemma SuccessInjective(d1: Value, m1: string, d2: Value, m2: string)
    ensures SuccessResponse(d1, m1) == SuccessResponse(d2, m2) <==> d1 == d2 && m1 == m2
  {
    if SuccessResponse(d1, m1) == SuccessResponse(d2, m2) {
      assert ReadEnvelope(SuccessResponse(d1, m1)) == ReadEnvelope(SuccessResponse(d2, m2));
    }
  }

  /** `require_auth`: a tool's envelope passes through unchanged; an
      `AuthenticationError` becomes its message with the login action; a
      `GraphAPIError` is prefixed "Graph API error: "; anything else,
      `RateLimitError` included, is prefixed "Unexpected error: ". */
  function RequireAuth(r: Result<Value, GraphError>): (v: Value)
    ensures r.Ok? ==> v == r.value
    ensures r.Err? ==> ReadEnvelope(v).Some? && ReadEnvelope(v).value.Failure?
    ensures r.Err? ==> (ReadEnvelope(v).value.action.Some? <==> r.error.AuthenticationError?)
    ensures r.Err? && r.error.AuthenticationError? ==>
      ReadEnvelope(v) == Some(Failure(r.error.message, Some(LoginAction)))
    ensures r.Err? && r.error.GraphApiError? ==>
      ReadEnvelope(v) == Some(Failure("Graph API error: " + r.error.message, None))
    ensures r.Err? && (r.error.RateLimitError? || r.error.OtherError?) ==>
      ReadEnvelope(v) == Some(Failure("Unexpected error: " + r.error.message, None))
  {
    match r
    case Ok(envelope) => envelope
    case Err(AuthenticationError(m)) => ErrorResponse(m, Some(LoginAction))
    case Err(GraphApiError(m, _)) => ErrorResponse("Graph API error: " + m, None)
    case Err(RateLimitError(m)) => ErrorResponse("Unexpected error: " + m, None)
    case Err(OtherError(m)) => ErrorResponse("Unexpected error: " + m, None)
  }

  /** The error text of a failure keeps the exception's message whole, after
      the prefix its class selects; the class of the package's base error is
      not enough to earn the "Graph API error" prefix. */
  lemma RequireAuthKeepsMessage(e: GraphError)
    ensures var f := ReadEnvelope(RequireAuth(Err(e))).value;
      && |f.error| >= |e.message|
      && f.error[|f.error| - |e.message|..] == e.message
      && (e.RateLimitError? ==> f.error == "Unexpected error: " + e.message)
  {
    var f := ReadEnvelope(RequireAuth(Err(e))).value;
    if e.AuthenticationError? {
      assert f.error == e.message;
    } else if e.GraphApiError? {
      assert f.error == "Graph API error: " + e.message;
    } else {
      assert f.error == "Unexpected error: " + e.message;
    }
  }
}
