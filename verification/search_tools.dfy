/** The cross-Teams message search: one `POST /search/query`, whose nested
    answer (responses, each with hit containers, each with hits) is
    flattened into the list of hit resources, in order. Python's iteration
    is modelled as it behaves on parsed JSON: a list yields its items, an
    empty text or object yields nothing, a non-empty one yields text whose
    `.get` then fails, and anything else cannot be iterated. */
module SearchTools {
  import opened Base
  import opened Text
  import opened Json
  import opened Errors
  import opened GraphClient
  import opened Responses
  import opened Toolkit

  const MaxHits: int := 25
  const DefaultHitTop: int := 25

  /** The body of the search: chat messages matching the query, from the
      first hit, at most 25. */
  function SearchBody(query: string, top: int): Value {
    Obj(map["requests" := Arr([Obj(map[
      "entityTypes" := Arr([Str("chatMessage")]),
      "query" := Obj(map["queryString" := Str(query)]),
      "from" := Num(0),
      "size" := Num(Min(top, MaxHits))])])])
  }

  function SearchRequest(query: string, top: int): Request {
    PostRequest("/search/query", SearchBody(query, top), map[], map[])
  }

  /** One search request for chat messages matching the query, starting at
      the first hit; the page never holds more than 25 hits, and exactly
      `top` when that is within the cap. */
  lemma SearchSize(query: string, top: int)
    ensures var requests := SearchBody(query, top).fields["requests"].items;
      var size := requests[0].fields["size"];
      && |requests| == 1
      && requests[0].fields["entityTypes"] == Arr([Str("chatMessage")])
      && requests[0].fields["query"].fields["queryString"] == Str(query)
      && requests[0].fields["from"] == Num(0)
      && size.Num? && size.n <= MaxHits && (top <= MaxHits ==> size.n == top)
  {
  }

  // ------------------------------------------------------------ iteration

  /** `for x in v`, as far as the loop body is concerned. */
  function Iterate(v: Value): (r: Result<seq<Value>, GraphError>)
    ensures v.Arr? ==> r == Ok(v.items)
    ensures r.Ok? && !v.Arr? ==> r.value == []
    ensures r.Err? <==> !(v.Arr? || v == Str([]) || v == Obj(map[]))
    ensures v.Str? && v != Str([]) ==> r == Err(NoGet(Str([])))
  {
    match v
    case Arr(items) => Ok(items)
    case Str(s) => if s == [] then Ok([]) else Err(NoGet(Str([])))
    case Obj(fields) => if fields == map[] then Ok([]) else Err(NoGet(Str([])))
    case _ => Err(OtherError("'" + TypeName(v) + "' object is not iterable"))
  }

  /** `v.get(key, [])`, iterated. */
  function ListField(v: Value, key: string): (r: Result<seq<Value>, GraphError>)
    ensures !v.Obj? ==> r == Err(NoGet(v))
    ensures v.Obj? && key !in v.fields ==> r == Ok([])
    ensures v.Obj? && key in v.fields ==> r == Iterate(v.fields[key])
  {
    match Get(v, key, Arr([]))
    case None => Err(NoGet(v))
    case Some(x) => Iterate(x)
  }

  /** `hit.get("resource", hit)`. */
  function ResourceOf(hit: Value): (r: Result<Value, GraphError>)
    ensures r.Ok? <==> hit.Obj?
    ensures r.Ok? ==> r.value == FieldOr(hit, "resource", hit)
    ensures r.Err? ==> r.error == NoGet(hit)
  {
    match Get(hit, "resource", hit)
    case Some(x) => Ok(x)
    case None => Err(NoGet(hit))
  }

  /** The resources of a container's hits: one per hit and in order, or
      the error of the first hit that is not an object. */
  function ResourcesOf(hits: seq<Value>): (r: Result<seq<Value>, GraphError>)
    ensures r.Ok? <==> forall i :: 0 <= i < |hits| ==> hits[i].Obj?
    ensures r.Ok? ==>
      && |r.value| == |hits|
      && (forall i :: 0 <= i < |hits| ==> r.value[i] == FieldOr(hits[i], "resource", hits[i]))
    ensures r.Err? ==>
      exists i :: 0 <= i < |hits| && !hits[i].Obj? && r.error == NoGet(hits[i])
                  && (forall j :: 0 <= j < i ==> hits[j].Obj?)
    decreases |hits|
  {
    if |hits| == 0 then Ok([])
    else match ResourceOf(hits[0])
      case Err(e) => Err(e)
      case Ok(x) =>
        match ResourcesOf(hits[1..])
        case Err(e) => Err(e)
        case Ok(rest) => Ok([x] + rest)
  }

  /** Two steps run one after the other: the first error wins, otherwise
      the lists are joined. */
  function Then(a: Result<seq<Value>, GraphError>, b: Result<seq<Value>, GraphError>): (r: Result<seq<Value>, GraphError>)
    ensures r.Ok? <==> a.Ok? && b.Ok?
    ensures r.Ok? ==> r.value == a.value + b.value
    ensures a.Err? ==> r == a
    ensures a.Ok? && b.Err? ==> r == b
  {
    if a.Err? then a else if b.Err? then b else Ok(a.value + b.value)
  }

  /** Running three steps does not depend on how they are grouped. */
  lemma ThenAssociative(a: Result<seq<Value>, GraphError>, b: Result<seq<Value>, GraphError>, c: Result<seq<Value>, GraphError>)
    ensures Then(a, Then(b, c)) == Then(Then(a, b), c)
  {
    if a.Ok? && b.Ok? && c.Ok? {
      assert a.value + (b.value + c.value) == (a.value + b.value) + c.value;
    }
  }

  /** A step before or after nothing is the step itself. */
  lemma ThenNothing(a: Result<seq<Value>, GraphError>)
    ensures Then(a, Ok([])) == a
    ensures Then(Ok([]), a) == a
  {
    if a.Ok? {
      assert a.value + [] == a.value;
      assert [] + a.value == a.value;
    }
  }

  /** A nested loop appending what `f` yields for each element, stopping at
      the first error. */
  function FlatMap(xs: seq<Value>, f: Value -> Result<seq<Value>, GraphError>): Result<seq<Value>, GraphError>
    decreases |xs|
  {
    if |xs| == 0 then Ok([]) else Then(f(xs[0]), FlatMap(xs[1..], f))
  }

  /** Looping over two lists one after the other is looping over their
      concatenation. */
  lemma {:induction false} FlatMapAppend(xs: seq<Value>, ys: seq<Value>, f: Value -> Result<seq<Value>, GraphError>)
    ensures FlatMap(xs + ys, f) == Then(FlatMap(xs, f), FlatMap(ys, f))
    decreases |xs|
  {
    if |xs| == 0 {
      assert xs + ys == ys;
      ThenNothing(FlatMap(ys, f));
    } else {
      assert (xs + ys)[1..] == xs[1..] + ys;
      FlatMapAppend(xs[1..], ys, f);
      ThenAssociative(f(xs[0]), FlatMap(xs[1..], f), FlatMap(ys, f));
    }
  }

  /** Looping over one element is applying `f` to it. */
  lemma FlatMapSingle(x: Value, f: Value -> Result<seq<Value>, GraphError>)
    ensures FlatMap([x], f) == f(x)
  {
    assert [x][1..] == [];
    ThenNothing(f(x));
  }

  function ContainerHits(container: Value): Result<seq<Value>, GraphError> {
    match ListField(container, "hits")
    case Err(e) => Err(e)
    case Ok(hits) => ResourcesOf(hits)
  }

  function ResponseHits(response: Value): Result<seq<Value>, GraphError> {
    match ListField(response, "hitsContainers")
    case Err(e) => Err(e)
    case Ok(containers) => FlatMap(containers, ContainerHits)
  }

  /** The three nested loops over what the search returned. */
  function Flatten(result: Option<Value>): Result<seq<Value>, GraphError> {
    match ListField(OrNull(result), "value")
    case Err(e) => Err(e)
    case Ok(responses) => FlatMap(responses, ResponseHits)
  }

  /** A well-formed answer with one response and one container yields the
      resources of its hits; a `None` result (a 204) fails on `.get`. */
  lemma FlattenOneContainer(hits: seq<Value>)
    ensures Flatten(Some(Obj(map["value" := Arr([Obj(map["hitsContainers" := Arr([Obj(map["hits" := Arr(hits)])])])])])))
      == ResourcesOf(hits)
    ensures Flatten(None) == Err(NoGet(Null))
  {
    var container := Obj(map["hits" := Arr(hits)]);
    var response := Obj(map["hitsContainers" := Arr([container])]);
    FlatMapSingle(container, ContainerHits);
    FlatMapSingle(response, ResponseHits);
  }

  /** The hits of several responses are the hits of each, in order, with
      the first malformed response's error winning. */
  lemma FlattenResponses(first: seq<Value>, rest: seq<Value>)
    ensures Flatten(Some(Obj(map["value" := Arr(first + rest)])))
      == Then(FlatMap(first, ResponseHits), FlatMap(rest, ResponseHits))
  {
    FlatMapAppend(first, rest, ResponseHits);
  }

  /** `graph_search_messages`. */
  function SearchMessages(client: Client, query: string, top: int := DefaultHitTop): (run: Run)
    ensures run.requests == [SearchRequest(query, top)]
    ensures client(SearchRequest(query, top)).Ok? && Flatten(client(SearchRequest(query, top)).value).Ok? ==>
      ReadEnvelope(run.reply) == Some(Success(Arr(Flatten(client(SearchRequest(query, top)).value).value), DefaultMessage))
    ensures client(SearchRequest(query, top)).Ok? && Flatten(client(SearchRequest(query, top)).value).Err? ==>
      run.reply == RequireAuth(Err(Flatten(client(SearchRequest(query, top)).value).error))
    ensures client(SearchRequest(query, top)).Err? ==>
      run.reply == RequireAuth(Err(client(SearchRequest(query, top)).error))
  {
    var req := SearchRequest(query, top);
    var answer :=
      match client(req)
      case Err(e) => Err(e)
      case Ok(result) =>
        match Flatten(result)
        case Err(e) => Err(e)
        case Ok(hits) => Ok(SuccessResponse(Arr(hits), DefaultMessage));
    Run([req], RequireAuth(answer))
  }

  /** Without a count the search asks for a page of 25 hits from the first. */
  lemma SearchDefaults(client: Client, query: string)
    ensures var body := SearchMessages(client, query).requests[0].payload.json;
      var page := body.fields["requests"].items[0];
      && page.fields["size"] == Num(25)
      && page.fields["from"] == Num(0)
  {
  }
}
