/**
 * `main(request)` of main.py, the HTTP entry point: it reads `file_id` from the JSON
 * body, answers 400 when it is falsy, runs the single-file pipeline otherwise, and turns
 * every exception into a 500. The pipeline run is a parameter: `Err` carries `str(e)` of
 * the exception it raised.
 */
module Handler {
  import opened Wrappers
  import opened Json

  /** The `(body, status)` pair returned to the functions framework. */
  datatype Response = Response(body: string, status: int)

  const MissingFileId: string := "Missing file_id"
  const Processed: string := "✅ Resume processed successfully"
  const ErrorPrefix: string := "❌ Error: "

  /** `request_json.get("file_id")`: `None` when the key is missing, and an
      `AttributeError` when the body is not a JSON object (`get_json(silent=True)` gives
      `None` for a body that is not JSON). */
  function FileIdOf(body: Option<Value>): Result<Value, string>
  {
    match body
    case None => Err(NoGetMessage(Null))
    case Some(Dict(entries)) => Ok(Get(entries, "file_id", Null))
    case Some(v) => Err(NoGetMessage(v))
  }

  function HandleRequest(body: Option<Value>, run: Value -> Result<(), string>): Response
  {
    match FileIdOf(body)
    case Err(m) => Response(ErrorPrefix + m, 500)
    case Ok(id) =>
      if !Truthy(id) then Response(MissingFileId, 400)
      else match run(id)
        case Err(m) => Response(ErrorPrefix + m, 500)
        case Ok(_) => Response(Processed, 200)
  }

  /** The three answers and exactly when each is given. */
  lemma StatusCodes(body: Option<Value>, run: Value -> Result<(), string>)
    ensures var r := HandleRequest(body, run);
      && (r.status == 400 <==>
            (body.Some? && body.value.Dict? && !Truthy(Get(body.value.entries, "file_id", Null))))
      && (r.status == 200 <==>
            (body.Some? && body.value.Dict? && Truthy(Get(body.value.entries, "file_id", Null))
             && run(Get(body.value.entries, "file_id", Null)).Ok?))
      && (r.status == 400 || r.status == 200 || r.status == 500)
      && (r.status == 400 ==> r.body == MissingFileId)
      && (r.status == 200 ==> r.body == Processed)
      && (r.status == 500 ==> exists m :: r.body == ErrorPrefix + m)
  {
  }

  /** A body that is not JSON, or JSON that is not an object, fails the `.get` call. */
  lemma NonObjectBody(body: Option<Value>, run: Value -> Result<(), string>)
    requires body.None? || !body.value.Dict?
    ensures HandleRequest(body, run)
      == Response(ErrorPrefix + NoGetMessage(if body.None? then Null else body.value), 500)
  {
  }

  /** A JSON object without the key is answered 400: a missing key reads as `None`. */
  lemma MissingKeyIs400(entries: seq<(string, Value)>, run: Value -> Result<(), string>)
    requires forall i :: 0 <= i < |entries| ==> entries[i].0 != "file_id"
    ensures HandleRequest(Some(Dict(entries)), run) == Response(MissingFileId, 400)
  {
  }

  /** A pipeline exception is reported with its message. */
  lemma PipelineFailureIs500(entries: seq<(string, Value)>, run: Value -> Result<(), string>, m: string)
    requires Truthy(Get(entries, "file_id", Null))
    requires run(Get(entries, "file_id", Null)) == Err(m)
    ensures HandleRequest(Some(Dict(entries)), run) == Response(ErrorPrefix + m, 500)
  {
  }

  /** The pipeline runs only for a truthy id: otherwise the answer does not depend on it. */
  lemma RunOnlyForTruthyId(body: Option<Value>, run1: Value -> Result<(), string>, run2: Value -> Result<(), string>)
    requires FileIdOf(body).Err? || !Truthy(FileIdOf(body).value)
    ensures HandleRequest(body, run1) == HandleRequest(body, run2)
  {
  }
}
