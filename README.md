# Document generation for monday.com, modelled in Dafny

The service behind a monday.com automation action. The action's handler reads the item
and the columns named in the request. It fetches the text of the source column through
monday.com's GraphQL API and fills the `{insertSection}` placeholder of a Word template
with that text. It then converts the filled document to PDF and uploads the PDF to a
file column of the item. Every failure becomes a four-field error envelope with an HTTP
status.

The model has one module per concern:

| module | file | models |
|---|---|---|
| `Outcomes` | outcomes.dfy | Python exceptions (`Exc`), `Option`, `Result` |
| `PyText` | python_text.dfy | the `in` operator on strings and `str.replace` |
| `PosixPath` | posix_path.dfy | `os.path.join`, `dirname`, `basename`, `rsplit('.', 1)[0]` |
| `Sanitizer` | sanitizer.dfy | `sanitize_filename` |
| `Placeholders` | placeholders.dfy | the substitution a paragraph and a document undergo |
| `DocumentModel` | document.dfy | the loaded document as an object edited in place |
| `FileSystemModel` | file_system.dfy | the files the pipeline creates, renames and removes |
| `DocumentService` | document_service.dfy | `convert_to_pdf`, `edit_docx_convert_to_pdf_and_save` |
| `JsonValue` | json_value.dfy | a decoded JSON reply and Python's dict/list access on it |
| `MondayService` | monday_service.dfy | `get_column_value`, `change_column_value`, `upload_file_to_column` |
| `MondayController` | monday_controller.dfy | `execute_generate_document` |

The placeholder loops follow the source's shape. `Document.ReplacePlaceholders` walks
paragraphs, tables, rows, cells and cell paragraphs with nested loops. Each loop updates
the object's fields in place and is proved against the pure `SubstituteDocument`. The
pipeline is a method on a mutable `FileSystem` object, proved equal to the function
`Generate`. The lemmas about `Generate` cover the temporary file, which is always
removed, and the PDF, which appears at the output path when every step succeeds. They
also cover the error raised by each failing step: creating the output directory, loading
the template, saving, converting, a missing PDF, and a directory in the way of the final
rename.

The outside world becomes parameters:
- what python-docx reads, or raises, for each template path (`load`);
- the temporary file name;
- whether saving fails;
- the converter's exit status, error output and the file it writes;
- the decoded HTTP replies;
- the outcomes of the generation and upload calls as the handler sees them.

Where the behaviour of the code differs from its design description, the model follows
the code:
- The sanitised name keeps the underscores already in the name. Only whitespace runs
  become a single `_`, so `"a _ b"` becomes `"a___b"` (`Sanitizer.SanitizeKeepsUnderscores`).
- Replacing one placeholder does not always leave it absent. `str.replace` can join two
  halves of the key into a new occurrence: `"{insert{insertSection}tion}"` with `Sec`
  yields `"{insertSection}"` (`Placeholders.SingleKeyCanSurvive`). The key is provably
  gone when the value is unambiguous: non-empty, not starting with a character of the
  key, and not holding the key's first character. The value `Hello` is one such value
  (`Placeholders.InsertSectionHello`).
- Domain lookup errors are not the only 400 responses. A reply that is not valid JSON
  raises a `ValueError` subclass and is answered 400 too. A connection error is an
  `OSError` that is neither `FileNotFoundError` nor `PermissionError`, so it is answered
  500.
- The "No items" error message carries the caller's short-lived token. The handler
  passes it on in both descriptions of the 400 response
  (`MondayController.NoItemsResponseShowsToken`).
- An empty upload name becomes `Edited PDF.pdf`, and `.pdf` is appended to it, giving
  `Edited PDF.pdf.pdf`.
- The upload's response is never looked at. The handler answers 200 with `{}` whenever
  the upload raised nothing.
- A body without `payload` raises outside the `try`, so no envelope is produced.

## Model

| member | source | states |
|---|---|---|
| `Sanitizer.DropUnsafeBounds` | document_service.py:17 | the first pass keeps only letters, digits, `_`, whitespace and `-`, never lengthens, and leaves a string of those characters unchanged |
| `Sanitizer.CollapseSpacesBounds` | document_service.py:19 | the second pass leaves no whitespace, never lengthens, and leaves only safe characters when it is given kept characters |
| `Sanitizer.SanitizeBounds` | document_service.py:15-20 | a sanitised name holds only letters, digits, `_` and `-`, no whitespace, and is no longer than the input |
| `Sanitizer.SanitizeFixedPoints` | document_service.py:15-20 | a name is left unchanged exactly when it consists of safe characters only |
| `Sanitizer.SanitizeIdempotent` | document_service.py:15-20 | sanitising twice is sanitising once |
| `Sanitizer.SanitizeExample` | document_service.py:15-20 | `My Report v2!` becomes `My_Report_v2` |
| `Sanitizer.SanitizeKeepsUnderscores` | document_service.py:17-19 | existing underscores survive beside the one that replaces a space: `a _ b` becomes `a___b` |
| `PyText.InIffOccurs` | document_service.py:53 | `key in text` holds exactly when the key starts at some index of the text |
| `PyText.ReplaceWithoutKey` | document_service.py:53-54 | replacing a non-empty key that does not occur changes nothing |
| `PyText.ReplaceInsertsValue` | document_service.py:53-54 | when the key occurs, the value occurs in the result |
| `PyText.ReplaceRemovesKey` | document_service.py:53-54 | for an unambiguous key and value, the key does not occur in the result |
| `Placeholders.SubstituteParagraph` | document_service.py:52-54 | the loop over the placeholders computes the left fold `Substitute` of conditional replacements |
| `Placeholders.SubstituteConcat` | document_service.py:52 | substituting two mappings in sequence is substituting their concatenation, in that order |
| `Placeholders.SubstituteWithoutKeys` | document_service.py:52-54 | a paragraph holding none of the keys is left as it is |
| `Placeholders.SubstituteSingleKey` | document_service.py:52-54 | one unambiguous key: afterwards it is absent, and the value is present if the key was |
| `Placeholders.SingleKeyCanSurvive` | document_service.py:53-54 | a value without the key can still leave the key behind: `{insert{insertSection}tion}` with `Sec` gives `{insertSection}` |
| `Placeholders.SubstituteDocumentShape` | document_service.py:51-63 | substitution keeps the document's shape: the same body paragraphs and cell paragraphs, each its own substitution, and everything else unchanged |
| `Placeholders.DocumentWithoutKeys` | document_service.py:51-63 | a document none of whose visited paragraphs holds a key is unchanged |
| `Placeholders.DocumentSingleKey` | document_service.py:51-63 | one unambiguous key is left in no body or cell paragraph, and the value is in every one that held it |
| `Placeholders.InsertSectionHello` | document_service.py:51-63 | `{insertSection}` replaced by `Hello` leaves no `{insertSection}` in any body or cell paragraph and puts `Hello` wherever it was |
| `DocumentModel.Document.EditBody` | document_service.py:51-54 | the body loop replaces every body paragraph by its substitution; tables and the rest are untouched |
| `DocumentModel.Document.EditCell` | document_service.py:59-63 | the cell loop substitutes every paragraph of one cell; nothing else changes |
| `DocumentModel.Document.EditRow` | document_service.py:58-63 | the row loop substitutes every cell of one row; nothing else changes |
| `DocumentModel.Document.EditTable` | document_service.py:57-63 | the table loop substitutes every row of one table; nothing else changes |
| `DocumentModel.Document.EditTables` | document_service.py:56-63 | the tables loop substitutes every table; body paragraphs and the rest are untouched |
| `DocumentModel.Document.ReplacePlaceholders` | document_service.py:51-63 | the document's new content is the substituted old content |
| `FileSystemModel.MakeDirsEffect` | document_service.py:47 | `makedirs(exist_ok=True)` succeeds when the path is absent or a directory, leaving a directory there; otherwise it raises and changes nothing; other paths are untouched |
| `FileSystemModel.RenameEffect` | document_service.py:34 | it succeeds exactly when the source exists and is renamed to itself or does not clash in kind with an existing destination. A missing source raises `FileNotFoundError`, a file onto a directory `IsADirectoryError`, a directory onto a file `NotADirectoryError`, and an error changes nothing. On success the source's content is at the destination, the source is gone, and other paths are untouched |
| `FileSystemModel.RenameMoves` | document_service.py:34 | a rename without a clash in kind moves the source's content to the destination and drops the source |
| `FileSystemModel.FileSystem.MakeDirs` | document_service.py:47 | the filesystem object changes as `MakeDirsEffect` says |
| `FileSystemModel.FileSystem.Rename` | document_service.py:34 | the filesystem object changes as `RenameEffect` says |
| `FileSystemModel.FileSystem.Remove` | document_service.py:80-81 | an existing file is removed and nothing else changes |
| `PosixPath.StripLastExtension` | document_service.py:33 | without a dot the name is kept whole; otherwise the result is the part before the last dot |
| `PosixPath.DirAndBaseOfJoin` | document_service.py:32-33 | joining a directory and a plain name gives `dir/name`, whose `dirname` is the directory and whose `basename` is the name |
| `DocumentService.OutputPdfPathShape` | document_service.py:38-44 | the output path is `<root>/output/<sanitised name>.pdf`; its directory is the output directory and it ends in `.pdf` |
| `DocumentService.ConverterPdfPathShape` | document_service.py:32-33 | the converter's PDF is in the output path's directory, named after the input's base name without its last extension |
| `DocumentService.ConverterPdfPathOfTemporaryFile` | document_service.py:32-33 | for the temporary `<dir>/<stem>.docx`, the converter's PDF is `<output directory>/<stem>.pdf` |
| `DocumentService.Convert` | document_service.py:23-34 | a non-zero exit raises the conversion error after the converter's writes; exit 0 renames the converter's PDF to the output path |
| `DocumentService.ConvertToPdf` | document_service.py:23-34 | the filesystem object and the error are those of `Convert` |
| `DocumentService.EditDocxConvertToPdfAndSave` | document_service.py:37-82 | the result and the new filesystem are those of `Generate` |
| `DocumentService.GenerateRemovesTemporaryFile` | document_service.py:79-81 | whatever happens, the temporary `.docx` does not exist afterwards |
| `DocumentService.PathsDistinct` | document_service.py:40-44 | the output directory, the output PDF, the converter's PDF and a temporary `.docx` are distinct paths, except that the two PDFs may coincide |
| `DocumentService.SaveAndConvertRemovesTemporaryFile` | document_service.py:79-81 | after saving and converting, whatever they raised, the temporary file does not exist |
| `DocumentService.GenerateReturnsOutputPath` | document_service.py:43-44 | a successful generation returns `<root>/output/<sanitised name>.pdf` |
| `DocumentService.GenerateOutputDirIsFile` | document_service.py:46-47 | a file where the output directory should be raises `FileExistsError` and changes nothing |
| `DocumentService.GenerateLoadError` | document_service.py:49 | an exception from loading the template is raised as is; only the output directory has been created, and the output PDF is untouched |
| `DocumentService.GenerateSaveError` | document_service.py:65-81 | an exception from saving is raised as is; the temporary file is gone, and apart from the output directory nothing has changed, the output PDF included |
| `DocumentService.MakeDirsThenSaveError` | document_service.py:65-81 | a failed save raises its exception and leaves the filesystem as creating the output directory left it |
| `DocumentService.GenerateSteps` | document_service.py:46-71 | with the output directory in place and the template loaded, the edit is the save and conversion of the substituted template through an empty temporary file |
| `DocumentService.ConvertSuccess` | document_service.py:23-34 | exit 0 with the converter's PDF written and no directory at the output path moves that PDF of the saved document to the output path |
| `DocumentService.SaveAndConvertSuccess` | document_service.py:65-81 | with no directory at the output path, saving and a successful conversion leave the edited document's PDF at the output path, remove the temporary file, and touch no other path but the converter's |
| `DocumentService.MakeDirsThenSaveAndConvert` | document_service.py:46-81 | creating the output directory, then saving and converting successfully, changes only the output directory, the output PDF and the converter's file |
| `DocumentService.GenerateSuccess` | document_service.py:46-75 | with no directory at the output path, when every step succeeds the output path holds the PDF of the substituted template, and no path except the output directory and the converter's file changes |
| `DocumentService.SaveAndConvertOutputIsDirectory` | document_service.py:65-81 | a directory at the output path makes the rename after a successful conversion raise `IsADirectoryError`, and the directory stays |
| `DocumentService.GenerateOutputIsDirectory` | document_service.py:46-78 | the same through the whole edit: a directory at the output path turns a successful conversion into `IsADirectoryError` |
| `DocumentService.SaveAndConvertConversionFailure` | document_service.py:28-29 | after saving, a non-zero exit raises `PDF conversion failed: <stderr>`, and the output path keeps what it held unless the converter wrote there |
| `DocumentService.SaveAndConvertMissingPdf` | document_service.py:32-34 | after saving, exit 0 without the expected PDF raises `FileNotFoundError` from the rename |
| `DocumentService.GenerateConversionFailure` | document_service.py:28-29 | a non-zero exit raises `PDF conversion failed: <stderr>`, and the output path keeps what it held unless the converter wrote there |
| `DocumentService.GenerateMissingPdf` | document_service.py:32-34 | exit 0 without the expected PDF raises `FileNotFoundError` from the rename |
| `MondayService.ColumnValueRequest` | monday_service.py:17-28 | the read goes to the v2 endpoint with the token, version `2024-10`, and exactly the item and column ids as variables |
| `MondayService.ReadColumnText` | monday_service.py:28-55 | the result is the text exactly when the reply has the documented shape with a non-null text; an error is the reply's own, one of the four checks' `ValueError`s, or an interpreter fault |
| `MondayService.ReadsFirstColumnValueOnly` | monday_service.py:43-55 | only the first item's first column value is read; a `null` text raises the fourth check's error |
| `MondayService.MissingDataKey` | monday_service.py:32-34 | a reply without `data` raises `Unexpected response structure: 'data' key missing` |
| `MondayService.NoItemsEchoesToken` | monday_service.py:36-41 | empty or absent `items` raises the "No items" error, whose message contains the token |
| `MondayService.NoColumnValuesError` | monday_service.py:43-47 | a first item whose `column_values` is absent or falsy raises the "No column values" error, whatever else the reply holds |
| `MondayService.NoTextError` | monday_service.py:49-53 | a first column value whose `text` is absent or `null` raises the "No text value" error, whatever else the reply holds |
| `MondayService.ChangeColumnValueRequest` | monday_service.py:58-75 | the change goes to the v2 endpoint with the token, version `2024-04`, and exactly the board, item, column and value as variables |
| `MondayService.RequestsDifferInVersion` | monday_service.py:20-25 | the read and the change share endpoint and token, but name different API versions |
| `MondayService.UploadPartName` | monday_service.py:79-80 | the uploaded name is the caller's name plus `.pdf`; an empty name gives `Edited PDF.pdf.pdf` |
| `MondayService.OpenForReading` | monday_service.py:91-92 | opening succeeds exactly for an existing non-directory and yields its content; a missing path raises `FileNotFoundError` |
| `MondayService.UploadFileToColumn` | monday_service.py:78-106 | the file at `<root>/output/<file_path>` is opened first and its error is raised; otherwise the request sends its content as the `image` part to the file endpoint, with the token, version `2024-10` and the variable map |
| `MondayService.UploadReadsGeneratedPdf` | monday_service.py:86-88 | uploading `output.pdf` reads exactly the file that generating `output` writes |
| `MondayController.Envelope` | monday_controller.py:67-75 | an error body has exactly the four fields, `severityCode` 4000, and the given texts |
| `MondayController.EmptyTextResponse` | monday_controller.py:22-31 | an empty text is answered 400 with an envelope naming the item and column |
| `MondayController.StatusFor` | monday_controller.py:45-65 | `ValueError` is answered 400, `FileNotFoundError` 404, `PermissionError` 403, anything else 500 |
| `MondayController.ErrorResponse` | monday_controller.py:45-75 | the status is the class's. A `ValueError` is titled "Failed to get column value" and reports its message, item and column. Every other class is titled "Document Generation Failed" with the fixed description. Its runtime text is `Error: Required file not found` for `FileNotFoundError`, `Error: Permission denied when accessing file` for `PermissionError`, and `Error: <message>` otherwise |
| `MondayController.Field` | monday_controller.py:14-18 | a present key yields its value; a missing key raises `KeyError('<key>')` |
| `MondayController.ReadInputs` | monday_controller.py:14-21 | the inputs are read exactly when all four fields and the session token are present; otherwise a `KeyError` is raised |
| `MondayController.EditOptions` | monday_controller.py:33-37 | the template is `Letter template.docx`, the output `output`, and `{insertSection}` is bound to the text |
| `MondayController.ExecuteGenerateDocument` | monday_controller.py:8-75 | only a missing `payload` escapes as an exception, with no call made; every non-200 answer is an envelope with status 400, 403, 404 or 500 |
| `MondayController.PipelineCallsInOrder` | monday_controller.py:20-43 | the calls are a prefix of fetch, edit, upload; editing needs a non-empty text, uploading a successful edit, and 200 needs all three with no upload error |
| `MondayController.CallsInOrder` | monday_controller.py:8-43 | a call is made exactly when every input is present, and the run is then the pipeline's |
| `MondayController.Success` | monday_controller.py:20-43 | a non-empty fetched text and a successful edit answer 200 `{}` after fetching, generating from `Letter template.docx` and uploading `output.pdf` under the caller's name |
| `MondayController.EmptyTextSkipsGeneration` | monday_controller.py:22-31 | an empty text is answered 400 after the fetch alone |
| `MondayController.NoItemsResponseShowsToken` | monday_controller.py:45-54 | a reply with no items is answered 400, and the description given to the caller contains the token |
| `MondayController.EditErrorAnswered` | monday_controller.py:39-75 | an exception from generating the document is answered by its class after the fetch and the edit, with no upload |
| `MondayController.UploadErrorAnswered` | monday_controller.py:41-75 | an exception from the upload is answered by its class after all three calls |
| `MondayController.TransportErrorStatus` | monday_controller.py:45-75 | an error raised while sending the request or decoding its reply is answered by its class |
| `MondayController.MissingFieldIs500` | monday_controller.py:56-75 | a missing `itemId` is answered 500 with `Error: 'itemId'` before any call |

## Left out

- `app.py` (JWT verification, CORS, request session), `logging_config.py` and
  `monday_routes.py` are not part of this model; the session is an input map.
- HTTP: no request is sent. Each reply enters as its decoded JSON, or as the exception
  that sending or decoding raised.
- Generation and upload, as the handler sees them: their outcomes are inputs of the
  handler model. `MondayService.UploadReadsGeneratedPdf` ties the two file paths together.
- The GraphQL query and mutation texts are not modelled. This includes `add_file`, whose
  item and column ids are pasted into the mutation unescaped. The form's `query` field
  is an empty placeholder in `MondayService.UploadFileToColumn`.
- Multipart encoding and the content read from the file: the request carries the
  file's abstract content.
- `MondayService.ChangeColumnValueRequest`: only the request is modelled. The function
  returns the decoded reply unchecked, which is the identity here.
- python-docx:
  - Loading the template is an input (`load`), applied to the template path
    `<root>/templates/<name>`. What python-docx reads from the filesystem is not
    tied to the modelled files. A missing template raises python-docx's own
    exception, not `FileNotFoundError`.
  - `row.cells` lists a merged cell once for each grid cell it spans, so the source
    can substitute such a cell's paragraphs more than once. In the model each cell
    appears once in its row.
  - Saving is an input (`saveError`).
  - Setting `paragraph.text` replaces the paragraph's runs and their formatting. The
    model keeps only the text.
  - Headers, footers, nested tables and text boxes are not visited by the source. They
    are the untouched `otherText`.
- The LibreOffice process is not run. Its exit status, error output (already decoded)
  and the PDF it writes are the `ConverterRun` input.
  - A missing `libreoffice` executable makes `run` raise `FileNotFoundError`, which
    the handler answers 404. This is not modelled.
  - Error output that is not valid UTF-8 makes `stderr.decode()` raise
    `UnicodeDecodeError`. That is a `ValueError`, which the handler answers 400. This
    is not modelled.
- `FileSystemModel.RenameEffect`: a flat map of paths. Renaming a directory onto an
  existing directory is modelled as a move, although POSIX refuses a non-empty target
  (`OSError`, errno 39). A renamed directory's contents do not move with it.
- `tempfile.NamedTemporaryFile`: the name is an input. The lemmas assume it is fresh
  and ends in `.docx`, as that module guarantees. Creating the file cannot fail in the
  model.
- `os.path.abspath(__file__)`: the project root is a parameter. Both services take the
  same root, as the two modules sit in one directory.
- `\w` and `\s` are modelled on ASCII: letters, digits, `_`, and space, tab, newline,
  vertical tab, form feed, carriage return and the four separators `\x1c`-`\x1f`.
  Python's Unicode classes are wider.
- Concurrency is not modelled: two requests writing `output/output.pdf` at once.
- pydantic validation of `DocxEditOptions` is not modelled. The placeholder dict is a
  sequence of pairs in insertion order, and nothing enforces unique keys.
- Request bodies:
  - Input fields are strings. A non-string field value, or a `payload` or
    `inputFields` that is not an object, is not represented.
  - The column text passed to the edit is the decoded JSON value. The document model
    takes string values only (`MondayController.EditOptions`).
- JSON values: numbers are integers. The interpreter's own exception messages
  (`TypeError`, `AttributeError`, `IndexError`) are empty strings.
- `print` and the logging calls are not modelled.
- `Placeholders.DocumentSingleKey`: states that the key disappears only for an
  unambiguous value. The stronger "a value that does not contain the key leaves no key"
  is false, as `Placeholders.SingleKeyCanSurvive` shows.
