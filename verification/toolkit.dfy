/** What the tool handlers share: the client as an oracle from a request to
    what `graph_client` returns or raises for it, the record of one tool
    call (the requests it issued and the envelope it answered with), the
    `$top` clamp, and the three ways a handler shapes its reply. */
module Toolkit {
  import opened Base
  import opened Text
  import opened Json
  import opened Errors
  import opened GraphClient
  import opened Responses

  /** `graph_client.get`/`post`/...: the parsed body, `None` for 204, or
      the exception the request pipeline raises. */
  type Client = Request -> Result<Option<Value>, GraphError>

  /** One tool call: the requests in the order they were issued, and the
      envelope `require_auth` hands back. */
  datatype Run = Run(requests: seq<Request>, reply: Value)

  /** `str(min(top, cap))`: the `$top` query parameter. */
  function TopParam(top: int, cap: int): string {
    IntToString(Min(top, cap))
  }

  /** The `$top` a handler sends reads back as the requested count, never
      more than the cap. */
  lemma TopParamMeaning(top: int, cap: int)
    ensures ParseInt(TopParam(top, cap)) == Some(Min(top, cap))
    ensures ParseInt(TopParam(top, cap)).value <= cap
    ensures top <= cap ==> ParseInt(TopParam(top, cap)) == Some(top)
  {
    IntToStringRoundTrip(Min(top, cap));
  }

  /** Python's name for the type of a parsed JSON value. */
  function TypeName(v: Value): string {
    match v
    case Null => "NoneType"
    case Bool(_) => "bool"
    case Num(_) => "int"
    case Str(_) => "str"
    case Arr(_) => "list"
    case Obj(_) => "dict"
  }

  /** The `AttributeError` of calling `.get` on something that is not a dictionary. */
  function NoGet(v: Value): GraphError {
    OtherError("'" + TypeName(v) + "' object has no attribute 'get'")
  }

  /** `result.get("value", [])` on what the client returned. */
  function ValueList(result: Option<Value>): (r: Result<Value, GraphError>)
    ensures r.Ok? <==> result.Some? && result.value.Obj?
    ensures r.Ok? ==> r.value == FieldOr(result.value, "value", Arr([]))
    ensures r.Err? ==> r == Err(NoGet(OrNull(result)))
  {
    match Get(OrNull(result), "value", Arr([]))
    case Some(v) => Ok(v)
    case None => Err(NoGet(OrNull(result)))
  }

  /** A handler that issues one request and answers with the `value` list
      of its result. */
  function ListReply(client: Client, req: Request): (run: Run)
    ensures run.requests == [req]
  {
    var answer :=
      match client(req)
      case Err(e) => Err(e)
      case Ok(result) =>
        match ValueList(result)
        case Err(e) => Err(e)
        case Ok(items) => Ok(SuccessResponse(items, DefaultMessage));
    Run([req], RequireAuth(answer))
  }

  /** A handler that issues one request and answers with its whole result. */
  function ItemReply(client: Client, req: Request): (run: Run)
    ensures run.requests == [req]
  {
    var answer :=
      match client(req)
      case Err(e) => Err(e)
      case Ok(result) => Ok(SuccessResponse(OrNull(result), DefaultMessage));
    Run([req], RequireAuth(answer))
  }

  /** A handler that issues one request and answers with fixed data once it
      returns, whatever it returned. */
  function FixedReply(client: Client, req: Request, data: Value): (run: Run)
    ensures run.requests == [req]
  {
    var answer :=
      match client(req)
      case Err(e) => Err(e)
      case Ok(_) => Ok(SuccessResponse(data, DefaultMessage));
    Run([req], RequireAuth(answer))
  }

  /** A list handler answers with the result's `value`, or `[]` when the
      result has none; a result that is not an object (a 204 gives `None`)
      raises `AttributeError`; a raised error goes through `require_auth`. */
  lemma ListReplyMeaning(client: Client, req: Request)
    ensures var r := client(req);
      && (r.Ok? && r.value.Some? && r.value.value.Obj? ==>
            var fields := r.value.value.fields;
            ReadEnvelope(ListReply(client, req).reply)
              == Some(Success(if "value" in fields then fields["value"] else Arr([]), DefaultMessage)))
      && (r.Ok? && !(r.value.Some? && r.value.value.Obj?) ==>
            ListReply(client, req).reply == RequireAuth(Err(NoGet(OrNull(r.value)))))
      && (r.Err? ==> ListReply(client, req).reply == RequireAuth(Err(r.error)))
  {
  }

  /** An item handler answers with the result itself, `null` for a 204. */
  lemma ItemReplyMeaning(client: Client, req: Request)
    ensures var env := ReadEnvelope(ItemReply(client, req).reply);
      && (client(req).Ok? ==> env == Some(Success(OrNull(client(req).value), DefaultMessage)))
      && (client(req).Err? ==> ItemReply(client, req).reply == RequireAuth(Err(client(req).error)))
  {
  }

  /** A fixed-reply handler answers with its data whenever the request
      returns. */
  lemma FixedReplyMeaning(client: Client, req: Request, data: Value)
    ensures var env := ReadEnvelope(FixedReply(client, req, data).reply);
      && (client(req).Ok? ==> env == Some(Success(data, DefaultMessage)))
      && (client(req).Err? ==> FixedReply(client, req, data).reply == RequireAuth(Err(client(req).error)))
  {
  }
}
