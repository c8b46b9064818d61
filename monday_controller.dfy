/** The document-generation action handler: read the request's input fields, fetch the
    source column's text, fill the template with it, upload the PDF, and turn every
    failure into a response. The three calls' outcomes are inputs of the model, and the
    handler's result records which calls it made, in order. */
module MondayController {
  import opened Outcomes
  import opened JsonValue
  import MondayService
  import DocumentService

  /** The request body: `payload` may be absent, and so may `payload.inputFields`; each
      input field is a string. */
  datatype Payload = Payload(inputFields: Option<map<string, string>>)
  datatype ActionRequest = ActionRequest(payload: Option<Payload>, session: map<string, string>)

  datatype Response = Response(status: int, body: Json)

  /** A response, or an exception that escapes the handler. */
  datatype HandlerResult = Respond(response: Response) | Raise(error: Exc)

  /** The calls into the services. */
  datatype Call =
    | FetchColumn(token: string, itemId: string, columnId: string)
    | EditDocument(inputFileName: string, outputFileName: string, key: string, value: Json)
    | UploadFile(token: string, itemId: string, columnId: string, filePath: string, uploadFileName: string)

  datatype Run = Run(result: HandlerResult, calls: seq<Call>)

  const SeverityCode := 4000
  const TemplateName := "Letter template.docx"
  const OutputName := "output"
  const Placeholder := "{insertSection}"

  /** The four-field error body every failure response carries. */
  predicate IsEnvelope(body: Json)
  {
    && body.JObj?
    && body.fields.Keys == {"severityCode", "notificationErrorTitle",
                            "notificationErrorDescription", "runtimeErrorDescription"}
    && body.fields["severityCode"] == JNum(SeverityCode)
    && body.fields["notificationErrorTitle"].JStr?
    && body.fields["notificationErrorDescription"].JStr?
    && body.fields["runtimeErrorDescription"].JStr?
  }

  function Envelope(title: string, description: string, runtime: string): (r: Json)
    ensures IsEnvelope(r)
    ensures r.fields["notificationErrorTitle"] == JStr(title)
    ensures r.fields["notificationErrorDescription"] == JStr(description)
    ensures r.fields["runtimeErrorDescription"] == JStr(runtime)
  {
    JObj(map[
      "severityCode" := JNum(SeverityCode),
      "notificationErrorTitle" := JStr(title),
      "notificationErrorDescription" := JStr(description),
      "runtimeErrorDescription" := JStr(runtime)])
  }

  function Describes(itemId: string, columnId: string): string
  {
    "Failed to get column value for item " + itemId + ", column " + columnId
  }

  /** The answer when the column's text is empty. */
  function EmptyTextResponse(itemId: string, columnId: string): (r: Response)
    ensures r.status == 400 && IsEnvelope(r.body)
    ensures r.body.fields["runtimeErrorDescription"] == JStr(Describes(itemId, columnId))
  {
    Response(400, Envelope("Failed to get column value",
      "Unable to retrieve the column value for document generation", Describes(itemId, columnId)))
  }

  /** The status an exception is answered with: `ValueError` 400, `FileNotFoundError`
      404, `PermissionError` 403, anything else 500. */
  function StatusFor(e: Exc): (s: int)
    ensures s in {400, 403, 404, 500}
    ensures s == 400 <==> e.cls == ValueError
    ensures s == 404 <==> e.cls == FileNotFoundError
    ensures s == 403 <==> e.cls == PermissionError
  {
    match e.cls
    case ValueError => 400
    case FileNotFoundError => 404
    case PermissionError => 403
    case OtherClass(_) => 500
  }

  /** The `except` clauses: a `ValueError` reports its message and the item and column;
      any other exception reports a fixed text for the two file errors and its own
      message otherwise. */
  function ErrorResponse(e: Exc, itemId: string, columnId: string): (r: Response)
    ensures r.status == StatusFor(e) && IsEnvelope(r.body)
    ensures e.cls == ValueError ==>
      r.body.fields["notificationErrorDescription"] == JStr(e.message)
      && r.body.fields["runtimeErrorDescription"] == JStr(Describes(itemId, columnId) + ": " + e.message)
    ensures e.cls == ValueError ==>
      r.body.fields["notificationErrorTitle"] == JStr("Failed to get column value")
    ensures e.cls == FileNotFoundError ==>
      r.body.fields["runtimeErrorDescription"] == JStr("Error: Required file not found")
    ensures e.cls == PermissionError ==>
      r.body.fields["runtimeErrorDescription"] == JStr("Error: Permission denied when accessing file")
    ensures e.cls.OtherClass? ==>
      r.body.fields["runtimeErrorDescription"] == JStr("Error: " + e.message)
    ensures e.cls != ValueError ==>
      r.body.fields["notificationErrorTitle"] == JStr("Document Generation Failed")
      && r.body.fields["notificationErrorDescription"] == JStr("An error occurred during document generation")
  {
    match e.cls
    case ValueError =>
      Response(400, Envelope("Failed to get column value", e.message, Describes(itemId, columnId) + ": " + e.message))
    case FileNotFoundError =>
      Response(404, Envelope("Document Generation Failed",
        "An error occurred during document generation", "Error: Required file not found"))
    case PermissionError =>
      Response(403, Envelope("Document Generation Failed",
        "An error occurred during document generation", "Error: Permission denied when accessing file"))
    case OtherClass(_) =>
      Response(500, Envelope("Document Generation Failed",
        "An error occurred during document generation", "Error: " + e.message))
  }

  /** Reading a required key of a dictionary. */
  function Field(m: map<string, string>, key: string): (r: Result<string>)
    ensures r.Ok? <==> key in m
    ensures r.Ok? ==> r.value == m[key]
    ensures r.Err? ==> r.error == KeyError(key)
  {
    if key in m then Ok(m[key]) else Err(KeyError(key))
  }

  /** The input fields and the token, read in the handler's order. */
  datatype Inputs = Inputs(itemId: string, sourceColumnId: string, uploadColumnId: string,
                           fileName: string, token: string)

  function ReadInputs(fields: map<string, string>, session: map<string, string>): (r: Result<Inputs>)
    ensures r.Ok? <==>
      (forall k | k in ["itemId", "sourceColumnId", "uploadColumnId", "text"] :: k in fields)
      && "shortLivedToken" in session
    ensures r.Ok? ==> r.value == Inputs(fields["itemId"], fields["sourceColumnId"],
      fields["uploadColumnId"], fields["text"], session["shortLivedToken"])
    ensures r.Err? ==> r.error.cls == OtherClass("KeyError")
  {
    var itemId :- Field(fields, "itemId");
    var sourceColumnId :- Field(fields, "sourceColumnId");
    var uploadColumnId :- Field(fields, "uploadColumnId");
    var fileName :- Field(fields, "text");
    var token :- Field(session, "shortLivedToken");
    Ok(Inputs(itemId, sourceColumnId, uploadColumnId, fileName, token))
  }

  /** The options the handler generates the document with, for a string text. */
  function EditOptions(text: string): (o: DocumentService.DocxEditOptions)
    ensures o.inputFileName == TemplateName && o.outputFileName == OutputName
    ensures o.placeholders == [(Placeholder, text)]
  {
    DocumentService.DocxEditOptions(TemplateName, OutputName, [(Placeholder, text)])
  }

  /** The three calls a successful run makes. */
  function AllCalls(i: Inputs, text: Json): seq<Call>
  {
    [FetchColumn(i.token, i.itemId, i.sourceColumnId),
     EditDocument(TemplateName, OutputName, Placeholder, text),
     UploadFile(i.token, i.itemId, i.uploadColumnId, "output.pdf", i.fileName)]
  }

  /** The pipeline, once the inputs are read: `reply` is what the column-value request
      brought back, `edited` the outcome of generating the PDF and `uploadError` the
      exception the upload raised, if any (its response is not looked at). */
  function Pipeline(i: Inputs, reply: Result<Json>, edited: Result<string>, uploadError: Option<Exc>): Run
  {
    var fetched := [FetchColumn(i.token, i.itemId, i.sourceColumnId)];
    match MondayService.ReadColumnText(i.token, i.itemId, i.sourceColumnId, reply)
    case Err(e) => Run(Respond(ErrorResponse(e, i.itemId, i.sourceColumnId)), fetched)
    case Ok(text) =>
      if !Truthy(text) then Run(Respond(EmptyTextResponse(i.itemId, i.sourceColumnId)), fetched)
      else
        var calls := AllCalls(i, text);
        match edited
        case Err(e) => Run(Respond(ErrorResponse(e, i.itemId, i.sourceColumnId)), calls[..2])
        case Ok(_) =>
          match uploadError
          case Some(e) => Run(Respond(ErrorResponse(e, i.itemId, i.sourceColumnId)), calls)
          case None => Run(Respond(Response(200, JObj(map[]))), calls)
  }

  /** `execute_generate_document`. A missing `payload` raises outside the `try`; every
      other failure is answered. */
  function ExecuteGenerateDocument(req: ActionRequest, reply: Result<Json>, edited: Result<string>,
                                   uploadError: Option<Exc>): (r: Run)
    ensures r.result.Raise? <==> req.payload.None?
    ensures r.result.Raise? ==> r.result.error == KeyError("payload") && r.calls == []
    ensures r.result.Respond? && r.result.response.status != 200 ==>
      IsEnvelope(r.result.response.body) && r.result.response.status in {400, 403, 404, 500}
  {
    match req.payload
    case None => Run(Raise(KeyError("payload")), [])
    case Some(p) =>
      match p.inputFields
      case None => Run(Respond(ErrorResponse(KeyError("inputFields"), "", "")), [])
      case Some(fields) =>
        match ReadInputs(fields, req.session)
        case Err(e) => Run(Respond(ErrorResponse(e, "", "")), [])
        case Ok(i) => Pipeline(i, reply, edited, uploadError)
  }

  /** A request whose payload carries every field, with the session's token. */
  predicate Complete(req: ActionRequest)
  {
    && req.payload.Some? && req.payload.value.inputFields.Some?
    && ReadInputs(req.payload.value.inputFields.value, req.session).Ok?
  }

  function InputsOf(req: ActionRequest): Inputs
    requires Complete(req)
  {
    ReadInputs(req.payload.value.inputFields.value, req.session).value
  }

  /** Once the inputs are read, the calls are a prefix of fetch, edit, upload: editing
      only after a fetched non-empty text, uploading only after the edit succeeded, and
      the run succeeds, with an empty body, exactly when all three were made and the
      last two raised nothing. */
  lemma PipelineCallsInOrder(i: Inputs, reply: Result<Json>, edited: Result<string>, uploadError: Option<Exc>)
    ensures var r := Pipeline(i, reply, edited, uploadError);
      var fetched := MondayService.ReadColumnText(i.token, i.itemId, i.sourceColumnId, reply);
      1 <= |r.calls| <= 3 && r.calls <= AllCalls(i, if fetched.Ok? then fetched.value else JNull)
      && (|r.calls| >= 2 <==> fetched.Ok? && Truthy(fetched.value))
      && (|r.calls| == 3 <==> |r.calls| >= 2 && edited.Ok?)
      && (r.result == Respond(Response(200, JObj(map[]))) <==> |r.calls| == 3 && uploadError.None?)
  {
    var fetched := MondayService.ReadColumnText(i.token, i.itemId, i.sourceColumnId, reply);
    var r := Pipeline(i, reply, edited, uploadError);
    if fetched.Ok? && Truthy(fetched.value) {
      var calls := AllCalls(i, fetched.value);
      if edited.Err? {
        assert r.calls == calls[..2];
        assert ErrorResponse(edited.error, i.itemId, i.sourceColumnId).status != 200;
      } else if uploadError.Some? {
        assert ErrorResponse(uploadError.value, i.itemId, i.sourceColumnId).status != 200;
      }
    } else if fetched.Err? {
      assert ErrorResponse(fetched.error, i.itemId, i.sourceColumnId).status != 200;
    }
  }

  /** Before the inputs are read nothing is called, and a run that made a call had
      every input. */
  lemma CallsInOrder(req: ActionRequest, reply: Result<Json>, edited: Result<string>, uploadError: Option<Exc>)
    ensures var r := ExecuteGenerateDocument(req, reply, edited, uploadError);
      r.calls != [] <==> Complete(req)
    ensures Complete(req) ==>
      ExecuteGenerateDocument(req, reply, edited, uploadError) == Pipeline(InputsOf(req), reply, edited, uploadError)
  {
    if Complete(req) {
      PipelineCallsInOrder(InputsOf(req), reply, edited, uploadError);
    }
  }

  /** Success: a fetched, non-empty text is put in the template, the PDF is uploaded
      from `output.pdf` under the caller's name, and the answer is 200 with `{}`. */
  lemma Success(req: ActionRequest, reply: Result<Json>, edited: Result<string>)
    requires Complete(req)
    requires var i := InputsOf(req);
      MondayService.ReadColumnText(i.token, i.itemId, i.sourceColumnId, reply).Ok?
    requires var i := InputsOf(req);
      Truthy(MondayService.ReadColumnText(i.token, i.itemId, i.sourceColumnId, reply).value)
    requires edited.Ok?
    ensures var i := InputsOf(req);
      var text := MondayService.DocumentedText(reply.value).value;
      ExecuteGenerateDocument(req, reply, edited, None)
      == Run(Respond(Response(200, JObj(map[]))),
             [FetchColumn(i.token, i.itemId, i.sourceColumnId),
              EditDocument("Letter template.docx", "output", "{insertSection}", text),
              UploadFile(i.token, i.itemId, i.uploadColumnId, "output.pdf", i.fileName)])
  {
  }

  /** An empty text stops the run before the document is generated. */
  lemma EmptyTextSkipsGeneration(req: ActionRequest, reply: Result<Json>, edited: Result<string>,
                                 uploadError: Option<Exc>)
    requires Complete(req)
    requires var i := InputsOf(req);
      MondayService.ReadColumnText(i.token, i.itemId, i.sourceColumnId, reply) == Ok(JStr(""))
    ensures var i := InputsOf(req);
      ExecuteGenerateDocument(req, reply, edited, uploadError)
      == Run(Respond(EmptyTextResponse(i.itemId, i.sourceColumnId)), [FetchColumn(i.token, i.itemId, i.sourceColumnId)])
  {
  }

  /** A reply listing no items is answered 400, and the token the request was made with
      reaches the caller in both descriptions. */
  lemma NoItemsResponseShowsToken(req: ActionRequest, data: map<string, Json>, edited: Result<string>,
                                  uploadError: Option<Exc>)
    requires Complete(req)
    requires "items" !in data || data["items"] == JArr([])
    ensures var i := InputsOf(req);
      var r := ExecuteGenerateDocument(req, Ok(JObj(map["data" := JObj(data)])), edited, uploadError);
      r.result.Respond? && r.result.response.status == 400
      && r.result.response.body.fields["notificationErrorDescription"]
         == JStr(MondayService.NoItems(i.itemId, i.token).message)
      && PyText.In(i.token, MondayService.NoItems(i.itemId, i.token).message)
  {
    var i := InputsOf(req);
    MondayService.NoItemsEchoesToken(i.token, i.itemId, i.sourceColumnId, data);
  }

  /** An exception from generating the document is answered by its class, after the
      fetch and the edit and before any upload. */
  lemma EditErrorAnswered(req: ActionRequest, reply: Result<Json>, e: Exc, uploadError: Option<Exc>)
    requires Complete(req)
    requires var i := InputsOf(req);
      MondayService.ReadColumnText(i.token, i.itemId, i.sourceColumnId, reply).Ok?
    requires var i := InputsOf(req);
      Truthy(MondayService.ReadColumnText(i.token, i.itemId, i.sourceColumnId, reply).value)
    ensures var i := InputsOf(req);
      var text := MondayService.DocumentedText(reply.value).value;
      var r := ExecuteGenerateDocument(req, reply, Err(e), uploadError);
      && r == Run(Respond(ErrorResponse(e, i.itemId, i.sourceColumnId)),
                  [FetchColumn(i.token, i.itemId, i.sourceColumnId),
                   EditDocument(TemplateName, OutputName, Placeholder, text)])
      && r.result.response.status == StatusFor(e)
  {
  }

  /** An exception from the upload is answered by its class, after all three calls. */
  lemma UploadErrorAnswered(req: ActionRequest, reply: Result<Json>, edited: Result<string>, e: Exc)
    requires Complete(req)
    requires var i := InputsOf(req);
      MondayService.ReadColumnText(i.token, i.itemId, i.sourceColumnId, reply).Ok?
    requires var i := InputsOf(req);
      Truthy(MondayService.ReadColumnText(i.token, i.itemId, i.sourceColumnId, reply).value)
    requires edited.Ok?
    ensures var i := InputsOf(req);
      var text := MondayService.DocumentedText(reply.value).value;
      var r := ExecuteGenerateDocument(req, reply, edited, Some(e));
      && r == Run(Respond(ErrorResponse(e, i.itemId, i.sourceColumnId)), AllCalls(i, text))
      && r.result.response.status == StatusFor(e)
  {
  }

  /** An error while sending the request or decoding its reply is answered by its class:
      a decoding error (a `ValueError`) with 400, a connection error with 500. */
  lemma TransportErrorStatus(req: ActionRequest, e: Exc, edited: Result<string>, uploadError: Option<Exc>)
    requires Complete(req)
    ensures var r := ExecuteGenerateDocument(req, Err(e), edited, uploadError);
      r.result == Respond(ErrorResponse(e, InputsOf(req).itemId, InputsOf(req).sourceColumnId))
      && r.result.response.status == StatusFor(e)
  {
  }

  /** A missing input field or token is a `KeyError`, answered 500 with the key in the
      runtime description, before any call is made. */
  lemma MissingFieldIs500(req: ActionRequest, edited: Result<string>, uploadError: Option<Exc>, reply: Result<Json>)
    requires req.payload.Some? && req.payload.value.inputFields.Some?
    requires "itemId" !in req.payload.value.inputFields.value
    ensures var r := ExecuteGenerateDocument(req, reply, edited, uploadError);
      r.calls == [] && r.result.Respond? && r.result.response.status == 500
      && r.result.response.body.fields["runtimeErrorDescription"] == JStr("Error: 'itemId'")
  {
  }
}
