/** The monday.com API client: reading a column's text, changing a column's value and
    uploading a file to a file column. The HTTP exchange itself is not modelled: each
    operation is given the request it would send, or the decoded reply it received. */
module MondayService {
  import opened Outcomes
  import opened JsonValue
  import opened PosixPath
  import opened FileSystemModel
  import Sanitizer
  import DocumentService

  const ApiUrl := "https://api.monday.com/v2"
  const FileApiUrl := "https://api.monday.com/v2/file"

  /** A JSON POST to the GraphQL endpoint: its URL, headers and query variables. */
  datatype GraphQLPost = GraphQLPost(url: string, headers: map<string, string>, variables: map<string, string>)

  /** A multipart POST: form fields, and one file part with its field name, the name
      the file is sent under, its content type and the file it was read from. */
  datatype FilePost = FilePost(
    url: string, headers: map<string, string>, form: map<string, string>,
    partField: string, partName: string, partType: string,
    sourcePath: string, contents: FileData)

  /** The request that asks for one item's column values. */
  function ColumnValueRequest(token: string, itemId: string, columnId: string): (r: GraphQLPost)
    ensures r.url == ApiUrl
    ensures r.variables.Keys == {"columnId", "itemId"}
    ensures r.variables["itemId"] == itemId && r.variables["columnId"] == columnId
    ensures r.headers.Keys == {"Authorization", "API-Version", "Content-Type"}
    ensures r.headers["Authorization"] == token && r.headers["API-Version"] == "2024-10"
  {
    GraphQLPost(ApiUrl,
      map["Authorization" := token, "API-Version" := "2024-10", "Content-Type" := "application/json"],
      map["columnId" := columnId, "itemId" := itemId])
  }

  /** The messages of the four checks applied to a column-value reply. */
  function MissingData(): Exc
  {
    Exc(ValueError, "Unexpected response structure: 'data' key missing")
  }

  function NoItems(itemId: string, token: string): Exc
  {
    Exc(ValueError, "No items found for item_id: " + itemId + ". Token: " + token)
  }

  function NoColumnValues(columnId: string): Exc
  {
    Exc(ValueError, "No column values found for column_id: " + columnId)
  }

  function NoText(columnId: string): Exc
  {
    Exc(ValueError, "No text value found for column_id: " + columnId)
  }

  /** Independent description of a reply that carries a column text: the documented
      shape `{"data": {"items": [{"column_values": [{"text": t, ...}, ...]}, ...]}}`
      with `t` not `null`; the text of the first column value of the first item. */
  function DocumentedText(x: Json): Option<Json>
  {
    if !(x.JObj? && "data" in x.fields) then None
    else
      var d := x.fields["data"];
      if !(d.JObj? && "items" in d.fields) then None
      else
        var items := d.fields["items"];
        if !(items.JArr? && items.elems != [] && items.elems[0].JObj?) then None
        else
          var item := items.elems[0].fields;
          if !("column_values" in item) then None
          else
            var cvs := item["column_values"];
            if !(cvs.JArr? && cvs.elems != [] && cvs.elems[0].JObj?) then None
            else
              var cv := cvs.elems[0].fields;
              if "text" in cv && cv["text"] != JNull then Some(cv["text"]) else None
  }

  /** `get_column_value` after the request: the decoded reply (or the error raised while
      sending it or decoding it) goes through the checks in order, each Python operation
      on the decoded value raising what the interpreter raises. The result is the column
      text exactly when the reply has the documented shape; every error is the one the
      reply brought, one of the four checks' `ValueError`s, or an interpreter fault. */
  function ReadColumnText(token: string, itemId: string, columnId: string, reply: Result<Json>): (r: Result<Json>)
    ensures r.Ok? <==> reply.Ok? && DocumentedText(reply.value).Some?
    ensures r.Ok? ==> r.value == DocumentedText(reply.value).value && r.value != JNull
    ensures reply.Err? ==> r == reply
    ensures reply.Ok? && r.Err? ==>
      r.error in {MissingData(), NoItems(itemId, token), NoColumnValues(columnId), NoText(columnId)}
      || r.error.cls.OtherClass?
  {
    var data :- reply;
    var hasData :- Contains(data, "data");
    if !hasData then Err(MissingData())
    else
      var d :- Index(data, "data");
      var items :- Get(d, "items", JArr([]));
      if !Truthy(items) then Err(NoItems(itemId, token))
      else
        var item :- First(items);
        var columnValues :- Get(item, "column_values", JArr([]));
        if !Truthy(columnValues) then Err(NoColumnValues(columnId))
        else
          var columnValue :- First(columnValues);
          var text :- Get(columnValue, "text", JNull);
          if text == JNull then Err(NoText(columnId)) else Ok(text)
  }

  /** A reply in the documented shape, built from its items. */
  function ItemsReply(items: seq<Json>): Json
  {
    JObj(map["data" := JObj(map["items" := JArr(items)])])
  }

  function Item(columnValues: seq<Json>): Json
  {
    JObj(map["column_values" := JArr(columnValues)])
  }

  function ColumnValue(value: Json, text: Json): Json
  {
    JObj(map["value" := value, "text" := text])
  }

  /** Only the first column value of the first item is read: further items and column
      values are ignored, and a `null` text is the fourth check's error. */
  lemma ReadsFirstColumnValueOnly(token: string, itemId: string, columnId: string,
                                   value: Json, text: Json, moreValues: seq<Json>, moreItems: seq<Json>)
    ensures ReadColumnText(token, itemId, columnId,
              Ok(ItemsReply([Item([ColumnValue(value, text)] + moreValues)] + moreItems)))
            == if text == JNull then Err(NoText(columnId)) else Ok(text)
  {
    var cvs := [ColumnValue(value, text)] + moreValues;
    var items := [Item(cvs)] + moreItems;
    assert First(JArr(items)) == Ok(Item(cvs));
    assert First(JArr(cvs)) == Ok(ColumnValue(value, text));
  }

  /** A reply without `data` (an error reply, say) is the first check's error. */
  lemma MissingDataKey(token: string, itemId: string, columnId: string, fields: map<string, Json>)
    requires "data" !in fields
    ensures ReadColumnText(token, itemId, columnId, Ok(JObj(fields))) == Err(MissingData())
  {
  }

  /** No items, and an absent `items` key alike, are the second check's error, whose
      message carries the caller's token. */
  lemma NoItemsEchoesToken(token: string, itemId: string, columnId: string, data: map<string, Json>)
    requires "items" !in data || data["items"] == JArr([])
    ensures var r := ReadColumnText(token, itemId, columnId, Ok(JObj(map["data" := JObj(data)])));
      r == Err(NoItems(itemId, token)) && PyText.In(token, r.error.message)
  {
    var msg := NoItems(itemId, token).message;
    var before := "No items found for item_id: " + itemId + ". Token: ";
    assert msg == before + token;
    assert PyText.OccursAt(token, msg, |before|);
    PyText.InIffOccurs(token, msg);
  }

  /** A first item whose column values are absent or falsy, whatever else it and the
      further items hold, is the third check's error. */
  lemma NoColumnValuesError(token: string, itemId: string, columnId: string,
                            item: map<string, Json>, moreItems: seq<Json>)
    requires "column_values" !in item || !Truthy(item["column_values"])
    ensures ReadColumnText(token, itemId, columnId, Ok(ItemsReply([JObj(item)] + moreItems)))
            == Err(NoColumnValues(columnId))
  {
    assert First(JArr([JObj(item)] + moreItems)) == Ok(JObj(item));
  }

  /** A first column value whose `text` is absent or `null`, whatever else it, the
      further column values and the further items hold, is the fourth check's error. */
  lemma NoTextError(token: string, itemId: string, columnId: string, columnValue: map<string, Json>,
                    moreValues: seq<Json>, item: map<string, Json>, moreItems: seq<Json>)
    requires "text" !in columnValue || columnValue["text"] == JNull
    requires "column_values" in item && item["column_values"] == JArr([JObj(columnValue)] + moreValues)
    ensures ReadColumnText(token, itemId, columnId, Ok(ItemsReply([JObj(item)] + moreItems)))
            == Err(NoText(columnId))
  {
    assert First(JArr([JObj(item)] + moreItems)) == Ok(JObj(item));
    assert First(JArr([JObj(columnValue)] + moreValues)) == Ok(JObj(columnValue));
  }

  /** The request that sets one column's value on an item of a board. */
  function ChangeColumnValueRequest(token: string, boardId: string, itemId: string,
                                    columnId: string, value: string): (r: GraphQLPost)
    ensures r.url == ApiUrl
    ensures r.variables.Keys == {"boardId", "columnId", "itemId", "value"}
    ensures r.variables["boardId"] == boardId && r.variables["itemId"] == itemId
    ensures r.variables["columnId"] == columnId && r.variables["value"] == value
    ensures r.headers.Keys == {"Authorization", "API-Version"}
    ensures r.headers["Authorization"] == token && r.headers["API-Version"] == "2024-04"
  {
    GraphQLPost(ApiUrl,
      map["Authorization" := token, "API-Version" := "2024-04"],
      map["boardId" := boardId, "columnId" := columnId, "itemId" := itemId, "value" := value])
  }

  /** The two GraphQL requests go to the same endpoint with the same credentials but
      name different API versions. */
  lemma RequestsDifferInVersion(token: string, boardId: string, itemId: string, columnId: string, value: string)
    ensures var read := ColumnValueRequest(token, itemId, columnId);
      var change := ChangeColumnValueRequest(token, boardId, itemId, columnId, value);
      read.url == change.url && read.headers["Authorization"] == change.headers["Authorization"]
      && read.headers["API-Version"] != change.headers["API-Version"]
  {
  }

  /** The name the uploaded file is sent under: the caller's name, or a default when it
      is empty, always followed by `.pdf`. */
  function UploadPartName(uploadFileName: string): (r: string)
    ensures |r| >= 5 && r[|r| - 4..] == ".pdf"
    ensures uploadFileName != [] ==> r == uploadFileName + ".pdf"
    ensures uploadFileName == [] ==> r == "Edited PDF.pdf.pdf"
  {
    (if uploadFileName == [] then "Edited PDF.pdf" else uploadFileName) + ".pdf"
  }

  /** The file an upload reads: `file_path` inside the project's output directory. */
  function UploadSourcePath(projectRoot: string, filePath: string): string
  {
    Join(Join(projectRoot, "output"), filePath)
  }

  /** Opening the file for reading: a missing path or a directory raises. */
  function OpenForReading(files: map<string, FileData>, path: string): (r: Result<FileData>)
    ensures r.Ok? <==> path in files && files[path] != Directory
    ensures r.Ok? ==> r.value == files[path]
    ensures path !in files ==> r.Err? && r.error.cls == FileNotFoundError
  {
    if path !in files then
      Err(Exc(FileNotFoundError, "[Errno 2] No such file or directory: '" + path + "'"))
    else if files[path] == Directory then
      Err(Exc(OtherClass("IsADirectoryError"), "[Errno 21] Is a directory: '" + path + "'"))
    else Ok(files[path])
  }

  /** `upload_file_to_column` up to the request it sends: the file is opened first and
      its failure is raised; otherwise the multipart request carries the mutation under
      `query`, the variable map under `map` and the file as the `image` part. The
      mutation text itself is not modelled. */
  function UploadFileToColumn(files: map<string, FileData>, projectRoot: string, token: string,
                              filePath: string, uploadFileName: string): (r: Result<FilePost>)
    ensures var path := UploadSourcePath(projectRoot, filePath);
      r.Ok? <==> path in files && files[path] != Directory
    ensures r.Ok? ==> r.value.url == FileApiUrl && r.value.sourcePath == UploadSourcePath(projectRoot, filePath)
    ensures r.Ok? ==> r.value.contents == files[UploadSourcePath(projectRoot, filePath)]
    ensures r.Ok? ==> r.value.partName == UploadPartName(uploadFileName) && r.value.partField == "image"
    ensures r.Ok? ==> r.value.headers == map["Authorization" := token, "API-Version" := "2024-10"]
    ensures r.Ok? ==> r.value.form.Keys == {"query", "map"} && r.value.form["map"] == "{\"image\": \"variables.file\"}"
    ensures r.Err? ==> r.error == OpenForReading(files, UploadSourcePath(projectRoot, filePath)).error
  {
    var path := UploadSourcePath(projectRoot, filePath);
    var contents :- OpenForReading(files, path);
    Ok(FilePost(FileApiUrl,
      map["Authorization" := token, "API-Version" := "2024-10"],
      map["query" := "", "map" := "{\"image\": \"variables.file\"}"],
      "image", UploadPartName(uploadFileName), "application/octet-stream", path, contents))
  }

  /** Uploading `output.pdf` reads exactly the file that generating a document named
      `output` writes. */
  lemma UploadReadsGeneratedPdf(projectRoot: string)
    ensures UploadSourcePath(projectRoot, "output.pdf") == DocumentService.OutputPdfPath(projectRoot, "output")
  {
    var name := "output";
    assert Sanitizer.IsSafeChar('o') && Sanitizer.IsSafeChar('u') && Sanitizer.IsSafeChar('t')
      && Sanitizer.IsSafeChar('p');
    assert Sanitizer.IsSafeName(name[5..]);
    assert Sanitizer.IsSafeName(name[4..]);
    assert Sanitizer.IsSafeName(name[3..]);
    assert Sanitizer.IsSafeName(name[2..]);
    assert Sanitizer.IsSafeName(name[1..]);
    assert Sanitizer.IsSafeName(name);
    Sanitizer.SanitizeFixedPoints(name);
  }
}
