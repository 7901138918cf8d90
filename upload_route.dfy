/** app/api/upload/route.ts: the server endpoint the upload loop posts each
    batch to. It checks the shape of the parsed body, forwards the rows to
    the store through `uploadChunk` and picks the status of the answer. The
    request parsing and the store are outside the model: the handler is
    given the result of `request.json()` and the store's answer to the
    insert. */
module UploadRoute {
  import opened Wrappers
  import opened Exceptions
  import opened Json
  import opened Supabase

  /** `isBodyShape`, as written with JavaScript's truthiness and `typeof`. */
  predicate IsBodyShape(body: Json)
  {
    && Truthy(body)
    && TypeOf(body) == "object"
    && TruthyGet(body, "config")
    && Get(body, "records").Some? && Get(body, "records").value.JArr?
  }

  /** The same test stated on the value: an object with a truthy `config`
      property and an array `records` property. */
  lemma IsBodyShapeIff(body: Json)
    ensures IsBodyShape(body) <==>
      && body.JObj?
      && "config" in body.props && Truthy(body.props["config"])
      && "records" in body.props && body.props["records"].JArr?
  {
  }

  /** The rows of a well-shaped body. */
  function BodyRecords(body: Json): seq<Json>
    requires IsBodyShape(body)
  {
    body.props["records"].items
  }

  /** A response: its status and its JSON body. */
  datatype Response = Response(status: int, body: Json)

  function MessageResponse(status: int, message: string): Response
  {
    Response(status, JObj(map["message" := JStr(message)]))
  }

  const SuccessResponse := Response(200, JObj(map["success" := JBool(true)]))

  /** What one call of the handler does: the store requests it made and the
      response it sent. */
  datatype Handled = Handled(response: Response, requests: seq<StoreRequest<Json>>)

  /** `POST`: an unparsable body answers 500, a badly shaped one 400, a
      failed insert 502 and anything else 200; only a well-shaped body with
      at least one row reaches the store. */
  function Post(parsed: Result<Json, Thrown>, insertReply: Result<seq<Json>, Thrown>): (h: Handled)
    ensures h.response.status in {200, 400, 500, 502}
    ensures h.response.status == 500 <==> parsed.Err?
    ensures parsed.Err? ==> h.response == MessageResponse(500, MessageOr(parsed.error, "Unknown error"))
    ensures h.response.status == 400 <==> parsed.Ok? && !IsBodyShape(parsed.value)
    ensures h.response.status == 400 ==> h.response == MessageResponse(400, "Invalid request body")
    ensures h.requests != [] <==> parsed.Ok? && IsBodyShape(parsed.value) && BodyRecords(parsed.value) != []
    ensures h.requests != [] ==>
      h.requests == [Insert(ClientKey(ConfigOf(parsed.value.props["config"])),
                            ConfigOf(parsed.value.props["config"]).tableName,
                            BodyRecords(parsed.value))]
    ensures h.response.status == 502 <==> h.requests != [] && insertReply.Err?
    ensures h.response.status == 502 ==>
      h.response == MessageResponse(502, MessageOr(insertReply.error, "Supabase error"))
    ensures h.response.status == 200 ==> h.response == SuccessResponse
  {
    match parsed
    case Err(e) => Handled(MessageResponse(500, MessageOr(e, "Unknown error")), [])
    case Ok(body) =>
      if !IsBodyShape(body) then Handled(MessageResponse(400, "Invalid request body"), [])
      else
        var upload := UploadChunk(ConfigOf(body.props["config"]), Some(BodyRecords(body)), insertReply);
        match upload.outcome
        case Err(e) => Handled(MessageResponse(502, MessageOr(e, "Supabase error")), upload.requests)
        case Ok(_) => Handled(SuccessResponse, upload.requests)
  }

  /** A well-shaped body with no rows succeeds without reaching the store,
      whatever the store would have answered. */
  lemma EmptyRecordsSucceed(body: Json, insertReply: Result<seq<Json>, Thrown>)
    requires IsBodyShape(body) && BodyRecords(body) == []
    ensures Post(Ok(body), insertReply) == Handled(SuccessResponse, [])
  {
  }

  /** An error the store throws that is not an `Error` object is reported
      with the generic text. */
  lemma NonErrorStoreFailure(body: Json, text: string)
    requires IsBodyShape(body) && BodyRecords(body) != []
    ensures Post(Ok(body), Err(OtherValue(text))).response == MessageResponse(502, "Supabase error")
  {
  }
}
