/** `edit_docx_convert_to_pdf_and_save` and `convert_to_pdf`: derive the output path, edit
    the template in memory, hand it to the converter through a temporary `.docx`, move
    the converter's PDF into place, and remove the temporary file on every exit path. */
module DocumentService {
  import opened Outcomes
  import opened PyText
  import opened PosixPath
  import opened Sanitizer
  import opened Placeholders
  import opened DocumentModel
  import opened FileSystemModel

  /** What the handler asks for: a template name, an output name and the placeholders. */
  datatype DocxEditOptions = DocxEditOptions(inputFileName: string, outputFileName: string, placeholders: Mapping)

  function TemplatesDir(projectRoot: string): string
  {
    Join(projectRoot, "templates")
  }

  function OutputDir(projectRoot: string): string
  {
    Join(projectRoot, "output")
  }

  /** The template the edit opens. */
  function InputDocxPath(projectRoot: string, options: DocxEditOptions): string
  {
    Join(TemplatesDir(projectRoot), options.inputFileName)
  }

  /** The PDF path the edit produces and returns. */
  function OutputPdfPath(projectRoot: string, outputFileName: string): string
  {
    Join(OutputDir(projectRoot), Sanitize(outputFileName) + ".pdf")
  }

  /** The returned path is always `<project root>/output/` + the sanitised name + `.pdf`:
      the sanitised name cannot start with `/` or hold one, so the join never escapes the
      output directory, and the converter's output directory is exactly that directory. */
  lemma OutputPdfPathShape(projectRoot: string, outputFileName: string)
    ensures OutputPdfPath(projectRoot, outputFileName)
      == OutputDir(projectRoot) + "/" + Sanitize(outputFileName) + ".pdf"
    ensures DirName(OutputPdfPath(projectRoot, outputFileName)) == OutputDir(projectRoot)
    ensures BaseName(OutputPdfPath(projectRoot, outputFileName)) == Sanitize(outputFileName) + ".pdf"
    ensures HasSuffix(OutputPdfPath(projectRoot, outputFileName), ".pdf")
  {
    var dir := OutputDir(projectRoot);
    var name := Sanitize(outputFileName) + ".pdf";
    assert HasSuffix(dir, "output");
    SanitizedHasNoSlash(outputFileName);
    PdfNameHasNoSlash(Sanitize(outputFileName));
    DirAndBaseOfJoin(dir, name);
    assert dir + "/" + Sanitize(outputFileName) + ".pdf" == dir + "/" + name;
  }

  /** A sanitised name holds no `/`. */
  lemma SanitizedHasNoSlash(s: string)
    ensures '/' !in Sanitize(s)
  {
    SanitizeBounds(s);
    var r := Sanitize(s);
    forall i | 0 <= i < |r| ensures r[i] != '/' {
      assert IsSafeChar(r[i]);
    }
  }

  /** Appending `.pdf` adds no `/`. */
  lemma PdfNameHasNoSlash(stem: string)
    requires '/' !in stem
    ensures '/' !in stem + ".pdf"
  {
    var name := stem + ".pdf";
    forall i | 0 <= i < |name| ensures name[i] != '/' {
      if i < |stem| {
        assert name[i] == stem[i];
      } else {
        assert name[i] == ".pdf"[i - |stem|];
      }
    }
  }

  /** Where the converter leaves its PDF: in the output path's directory, named after the
      input's base name with its last `.ext` removed (a name with no dot is used whole). */
  function ConverterPdfPath(inputPath: string, outputPath: string): string
  {
    Join(DirName(outputPath), StripLastExtension(BaseName(inputPath)) + ".pdf")
  }

  /** One run of the external converter: its exit status, its error output, and the
      path of the PDF it wrote, if it wrote one. */
  datatype ConverterRun = ConverterRun(exitCode: int, stderr: string, writes: Option<string>)

  /** The filesystem after the subprocess: it renders the `.docx` it was given to a PDF
      at the path it wrote, whatever its exit status. */
  function AfterSubprocess(files: map<string, FileData>, inputPath: string, run: ConverterRun)
    : map<string, FileData>
  {
    if run.writes.Some? && inputPath in files && files[inputPath].DocxFile?
    then files[run.writes.value := PdfFile(files[inputPath].doc)]
    else files
  }

  /** The exception a failed conversion raises. */
  function ConversionFailed(stderr: string): Exc
  {
    Exc(OtherClass("Exception"), "PDF conversion failed: " + stderr)
  }

  /** `convert_to_pdf(input_path, output_path)`. */
  function Convert(files: map<string, FileData>, inputPath: string, outputPath: string, run: ConverterRun)
    : (e: Effect)
    ensures run.exitCode != 0 ==>
      e == Effect(Some(ConversionFailed(run.stderr)), AfterSubprocess(files, inputPath, run))
    ensures run.exitCode == 0 ==>
      e == RenameEffect(AfterSubprocess(files, inputPath, run), ConverterPdfPath(inputPath, outputPath), outputPath)
  {
    var after := AfterSubprocess(files, inputPath, run);
    if run.exitCode != 0 then Effect(Some(ConversionFailed(run.stderr)), after)
    else RenameEffect(after, ConverterPdfPath(inputPath, outputPath), outputPath)
  }

  method ConvertToPdf(fs: FileSystem, inputPath: string, outputPath: string, run: ConverterRun)
    returns (err: Option<Exc>)
    modifies fs
    ensures Effect(err, fs.files) == Convert(old(fs.files), inputPath, outputPath, run)
  {
    if run.writes.Some? && inputPath in fs.files && fs.files[inputPath].DocxFile? {
      fs.Write(run.writes.value, PdfFile(fs.files[inputPath].doc));
    }
    if run.exitCode != 0 {
      return Some(ConversionFailed(run.stderr));
    }
    err := fs.Rename(ConverterPdfPath(inputPath, outputPath), outputPath);
  }

  /** What the edit returns, and the filesystem it leaves. */
  datatype Outcome = Outcome(result: Result<string>, files: map<string, FileData>)

  /** The `finally` block: the temporary file goes if it exists. */
  function RemoveIfExists(files: map<string, FileData>, path: string): map<string, FileData>
  {
    if path in files then files - {path} else files
  }

  /** The steps after the temporary file has been created: save, convert, and the
      `finally` block. */
  function SaveAndConvert(files: map<string, FileData>, outPdf: string, edited: DocContent,
                          tmpPath: string, saveError: Option<Exc>, run: ConverterRun): Outcome
  {
    var step :=
      if saveError.Some? then Effect(saveError, files)
      else Convert(files[tmpPath := DocxFile(edited)], tmpPath, outPdf, run);
    Outcome(if step.error.Some? then Err(step.error.value) else Ok(outPdf),
            RemoveIfExists(step.files, tmpPath))
  }

  /** `edit_docx_convert_to_pdf_and_save(options)`. python-docx's `Document(path)` is
      given as `load`, a function from a path to the document it reads or the exception
      it raises, and it is applied to the template path; the name the temporary-file
      module picks, the outcome of saving and the converter's run are given too. */
  function Generate(files: map<string, FileData>, projectRoot: string, options: DocxEditOptions,
                    load: string -> Result<DocContent>, tmpPath: string, saveError: Option<Exc>,
                    run: ConverterRun): Outcome
  {
    var outPdf := OutputPdfPath(projectRoot, options.outputFileName);
    var made := MakeDirsEffect(files, OutputDir(projectRoot));
    var template := load(InputDocxPath(projectRoot, options));
    if made.error.Some? then Outcome(Err(made.error.value), made.files)
    else if template.Err? then Outcome(Err(template.error), made.files)
    else
      SaveAndConvert(made.files[tmpPath := EmptyFile], outPdf,
                     SubstituteDocument(options.placeholders, template.value), tmpPath, saveError, run)
  }

  method EditDocxConvertToPdfAndSave(fs: FileSystem, projectRoot: string, options: DocxEditOptions,
                                     load: string -> Result<DocContent>, tmpPath: string,
                                     saveError: Option<Exc>, run: ConverterRun)
    returns (r: Result<string>)
    modifies fs
    ensures Outcome(r, fs.files)
      == Generate(old(fs.files), projectRoot, options, load, tmpPath, saveError, run)
  {
    var outputDir := OutputDir(projectRoot);
    var inputDocxPath := InputDocxPath(projectRoot, options);
    var outputPdfPath := OutputPdfPath(projectRoot, options.outputFileName);
    var err := fs.MakeDirs(outputDir);
    if err.Some? {
      return Err(err.value);
    }
    var template := load(inputDocxPath);
    if template.Err? {
      return Err(template.error);
    }
    var doc := new Document(template.value);
    doc.ReplacePlaceholders(options.placeholders);
    fs.Write(tmpPath, EmptyFile);
    if saveError.Some? {
      err := saveError;
    } else {
      fs.Write(tmpPath, DocxFile(doc.Content()));
      err := ConvertToPdf(fs, tmpPath, outputPdfPath, run);
    }
    if fs.Exists(tmpPath) {
      fs.Remove(tmpPath);
    }
    r := if err.Some? then Err(err.value) else Ok(outputPdfPath);
  }

  /** The last character of a path, which tells the output directory, the PDFs and the
      temporary `.docx` apart. */
  lemma LastChars(projectRoot: string, outputFileName: string, tmpPath: string)
    requires HasSuffix(tmpPath, ".docx")
    ensures var outDir := OutputDir(projectRoot);
      var outPdf := OutputPdfPath(projectRoot, outputFileName);
      var pdf := ConverterPdfPath(tmpPath, outPdf);
      && outDir != [] && outDir[|outDir| - 1] == 't'
      && outPdf != [] && outPdf[|outPdf| - 1] == 'f'
      && pdf != [] && pdf[|pdf| - 1] == 'f'
      && tmpPath[|tmpPath| - 1] == 'x'
  {
    var outPdf := OutputPdfPath(projectRoot, outputFileName);
    JoinEndsWith(projectRoot, "output");
    JoinEndsWith(OutputDir(projectRoot), Sanitize(outputFileName) + ".pdf");
    JoinEndsWith(DirName(outPdf), StripLastExtension(BaseName(tmpPath)) + ".pdf");
  }

  /** The output directory, the output PDF, the converter's PDF and the temporary
      `.docx` are distinct paths, except that the two PDFs may coincide. */
  lemma PathsDistinct(projectRoot: string, outputFileName: string, tmpPath: string)
    requires HasSuffix(tmpPath, ".docx")
    ensures var outDir := OutputDir(projectRoot);
      var outPdf := OutputPdfPath(projectRoot, outputFileName);
      var pdf := ConverterPdfPath(tmpPath, outPdf);
      && outDir != outPdf && outDir != pdf && outDir != tmpPath
      && tmpPath != outPdf && tmpPath != pdf
  {
    LastChars(projectRoot, outputFileName, tmpPath);
  }

  /** Once the edit has started, the temporary `.docx` (a fresh name ending in `.docx`,
      as the temporary-file module picks it) no longer exists, whether the edit returned
      or raised. */
  lemma GenerateRemovesTemporaryFile(files: map<string, FileData>, projectRoot: string,
                                     options: DocxEditOptions, load: string -> Result<DocContent>,
                                     tmpPath: string, saveError: Option<Exc>, run: ConverterRun)
    requires tmpPath !in files && HasSuffix(tmpPath, ".docx")
    ensures tmpPath !in Generate(files, projectRoot, options, load, tmpPath, saveError, run).files
  {
    PathsDistinct(projectRoot, options.outputFileName, tmpPath);
    var made := MakeDirsEffect(files, OutputDir(projectRoot));
    assert tmpPath !in made.files;
    if made.error.None? && load(InputDocxPath(projectRoot, options)).Ok? {
      GenerateSteps(files, projectRoot, options, load, tmpPath, saveError, run);
      SaveAndConvertRemovesTemporaryFile(made.files[tmpPath := EmptyFile],
        OutputPdfPath(projectRoot, options.outputFileName),
        SubstituteDocument(options.placeholders, load(InputDocxPath(projectRoot, options)).value),
        tmpPath, saveError, run);
    }
  }

  /** The `finally` block leaves no temporary file, whatever the steps did. */
  lemma SaveAndConvertRemovesTemporaryFile(files: map<string, FileData>, outPdf: string, edited: DocContent,
                                           tmpPath: string, saveError: Option<Exc>, run: ConverterRun)
    ensures tmpPath !in SaveAndConvert(files, outPdf, edited, tmpPath, saveError, run).files
  {
  }

  /** The edit returns nothing but `<project root>/output/<sanitised name>.pdf`. */
  lemma GenerateReturnsOutputPath(files: map<string, FileData>, projectRoot: string,
                                  options: DocxEditOptions, load: string -> Result<DocContent>,
                                  tmpPath: string, saveError: Option<Exc>, run: ConverterRun)
    ensures var out := Generate(files, projectRoot, options, load, tmpPath, saveError, run);
      out.result.Ok? ==> out.result.value == OutputDir(projectRoot) + "/" + Sanitize(options.outputFileName) + ".pdf"
  {
    OutputPdfPathShape(projectRoot, options.outputFileName);
  }

  /** An output directory path that holds a file makes `makedirs` raise
      `FileExistsError`; the template is not opened and nothing changes. */
  lemma GenerateOutputDirIsFile(files: map<string, FileData>, projectRoot: string,
                                options: DocxEditOptions, load: string -> Result<DocContent>,
                                tmpPath: string, saveError: Option<Exc>, run: ConverterRun)
    requires OutputDir(projectRoot) in files && files[OutputDir(projectRoot)] != Directory
    ensures var out := Generate(files, projectRoot, options, load, tmpPath, saveError, run);
      && out.result.Err? && out.result.error.cls == OtherClass("FileExistsError")
      && out.files == files
  {
  }

  /** An exception from opening the template is raised as it is; the output directory
      exists afterwards and no other path has changed, the output PDF included. */
  lemma GenerateLoadError(files: map<string, FileData>, projectRoot: string,
                          options: DocxEditOptions, load: string -> Result<DocContent>,
                          tmpPath: string, saveError: Option<Exc>, run: ConverterRun)
    requires OutputDir(projectRoot) in files ==> files[OutputDir(projectRoot)] == Directory
    requires load(InputDocxPath(projectRoot, options)).Err?
    ensures var out := Generate(files, projectRoot, options, load, tmpPath, saveError, run);
      && out.result == Err(load(InputDocxPath(projectRoot, options)).error)
      && OutputDir(projectRoot) in out.files && out.files[OutputDir(projectRoot)] == Directory
      && forall p :: p != OutputDir(projectRoot) ==>
           (p in out.files <==> p in files) && (p in files ==> out.files[p] == files[p])
  {
  }

  /** A failed save after the output directory was created leaves the filesystem as
      the directory creation left it. */
  lemma MakeDirsThenSaveError(files: map<string, FileData>, outDir: string, outPdf: string,
                              edited: DocContent, tmpPath: string, saveError: Option<Exc>, run: ConverterRun)
    requires tmpPath !in files && tmpPath != outDir && saveError.Some?
    ensures var made := MakeDirsEffect(files, outDir);
      var out := SaveAndConvert(made.files[tmpPath := EmptyFile], outPdf, edited, tmpPath, saveError, run);
      out == Outcome(Err(saveError.value), made.files)
  {
    var made := MakeDirsEffect(files, outDir);
    assert tmpPath !in made.files;
    assert made.files[tmpPath := EmptyFile] - {tmpPath} == made.files;
  }

  /** An exception from saving the edited document is raised as it is; the temporary
      file is removed again, and apart from the output directory no path has changed,
      the output PDF included. */
  lemma GenerateSaveError(files: map<string, FileData>, projectRoot: string,
                          options: DocxEditOptions, load: string -> Result<DocContent>,
                          tmpPath: string, saveError: Option<Exc>, run: ConverterRun)
    requires tmpPath !in files && HasSuffix(tmpPath, ".docx")
    requires OutputDir(projectRoot) in files ==> files[OutputDir(projectRoot)] == Directory
    requires load(InputDocxPath(projectRoot, options)).Ok? && saveError.Some?
    ensures var out := Generate(files, projectRoot, options, load, tmpPath, saveError, run);
      && out.result == Err(saveError.value)
      && tmpPath !in out.files
      && forall p :: p != OutputDir(projectRoot) ==>
           (p in out.files <==> p in files) && (p in files ==> out.files[p] == files[p])
  {
    PathsDistinct(projectRoot, options.outputFileName, tmpPath);
    GenerateSteps(files, projectRoot, options, load, tmpPath, saveError, run);
    MakeDirsThenSaveError(files, OutputDir(projectRoot), OutputPdfPath(projectRoot, options.outputFileName),
      SubstituteDocument(options.placeholders, load(InputDocxPath(projectRoot, options)).value),
      tmpPath, saveError, run);
  }

  /** The run the converter is meant to make: success, and its PDF where it should be. */
  predicate ConverterSucceeds(run: ConverterRun, tmpPath: string, outPdf: string)
  {
    run.exitCode == 0 && run.writes == Some(ConverterPdfPath(tmpPath, outPdf))
  }

  /** Once the output directory is in place and the template has loaded, the edit is
      the save and the conversion of the substituted template through a fresh, empty
      temporary file. */
  lemma GenerateSteps(files: map<string, FileData>, projectRoot: string,
                      options: DocxEditOptions, load: string -> Result<DocContent>,
                      tmpPath: string, saveError: Option<Exc>, run: ConverterRun)
    requires OutputDir(projectRoot) in files ==> files[OutputDir(projectRoot)] == Directory
    requires load(InputDocxPath(projectRoot, options)).Ok?
    ensures Generate(files, projectRoot, options, load, tmpPath, saveError, run)
      == SaveAndConvert(MakeDirsEffect(files, OutputDir(projectRoot)).files[tmpPath := EmptyFile],
                        OutputPdfPath(projectRoot, options.outputFileName),
                        SubstituteDocument(options.placeholders, load(InputDocxPath(projectRoot, options)).value),
                        tmpPath, saveError, run)
  {
  }

  /** A successful conversion with no directory in the way moves the PDF the converter
      rendered from the saved document to the output path. */
  lemma ConvertSuccess(saved: map<string, FileData>, tmpPath: string, outPdf: string,
                       edited: DocContent, run: ConverterRun)
    requires tmpPath in saved && saved[tmpPath] == DocxFile(edited)
    requires tmpPath != ConverterPdfPath(tmpPath, outPdf)
    requires outPdf !in saved || saved[outPdf] != Directory
    requires ConverterSucceeds(run, tmpPath, outPdf)
    ensures var pdf := ConverterPdfPath(tmpPath, outPdf);
      Convert(saved, tmpPath, outPdf, run)
        == Effect(None, (saved[pdf := PdfFile(edited)] - {pdf})[outPdf := PdfFile(edited)])
  {
    var pdf := ConverterPdfPath(tmpPath, outPdf);
    var after := saved[pdf := PdfFile(edited)];
    assert AfterSubprocess(saved, tmpPath, run) == after;
    if pdf == outPdf {
      assert (after - {pdf})[outPdf := PdfFile(edited)] == after;
    } else {
      assert !KindsClash(after, pdf, outPdf);
      RenameMoves(after, pdf, outPdf);
    }
  }

  /** Saving and a successful conversion, with no directory in the way at the output
      path, leave the PDF of the edited document at the output path, remove the
      temporary file, and touch no other path but the one the converter wrote. */
  lemma SaveAndConvertSuccess(files: map<string, FileData>, outPdf: string, edited: DocContent,
                              tmpPath: string, run: ConverterRun)
    requires tmpPath != outPdf && tmpPath != ConverterPdfPath(tmpPath, outPdf)
    requires outPdf !in files || files[outPdf] != Directory
    requires ConverterSucceeds(run, tmpPath, outPdf)
    ensures var out := SaveAndConvert(files, outPdf, edited, tmpPath, None, run);
      && out.result == Ok(outPdf)
      && outPdf in out.files && out.files[outPdf] == PdfFile(edited)
      && tmpPath !in out.files
      && forall p :: p != outPdf && p != tmpPath && p != ConverterPdfPath(tmpPath, outPdf) ==>
           (p in out.files <==> p in files) && (p in files ==> out.files[p] == files[p])
  {
    var pdf := ConverterPdfPath(tmpPath, outPdf);
    var saved := files[tmpPath := DocxFile(edited)];
    ConvertSuccess(saved, tmpPath, outPdf, edited, run);
    var moved := (saved[pdf := PdfFile(edited)] - {pdf})[outPdf := PdfFile(edited)];
    assert SaveAndConvert(files, outPdf, edited, tmpPath, None, run) == Outcome(Ok(outPdf), moved - {tmpPath});
  }

  /** Creating the output directory and then saving and converting successfully
      changes only the output directory, the output PDF and the converter's own PDF. */
  lemma MakeDirsThenSaveAndConvert(files: map<string, FileData>, outDir: string, outPdf: string,
                                   edited: DocContent, tmpPath: string, run: ConverterRun)
    requires tmpPath !in files && tmpPath != outDir && outPdf != outDir
    requires tmpPath != outPdf && tmpPath != ConverterPdfPath(tmpPath, outPdf)
    requires outDir in files ==> files[outDir] == Directory
    requires outPdf !in files || files[outPdf] != Directory
    requires ConverterSucceeds(run, tmpPath, outPdf)
    ensures var out := SaveAndConvert(MakeDirsEffect(files, outDir).files[tmpPath := EmptyFile],
                                      outPdf, edited, tmpPath, None, run);
      && out.result == Ok(outPdf)
      && outPdf in out.files && out.files[outPdf] == PdfFile(edited)
      && forall p :: p != outPdf && p != outDir && p != ConverterPdfPath(tmpPath, outPdf) ==>
           (p in out.files <==> p in files) && (p in files ==> out.files[p] == files[p])
  {
    var created := MakeDirsEffect(files, outDir).files[tmpPath := EmptyFile];
    assert outPdf in created ==> created[outPdf] == files[outPdf];
    SaveAndConvertSuccess(created, outPdf, edited, tmpPath, run);
  }

  /** When loading, saving and converting all succeed and no directory is in the way at
      the output path, the edit returns the output path, the PDF there renders the
      template with the placeholders substituted, and every other path, apart from the
      output directory, is as it was. */
  lemma GenerateSuccess(files: map<string, FileData>, projectRoot: string,
                        options: DocxEditOptions, load: string -> Result<DocContent>,
                        tmpPath: string, saveError: Option<Exc>, run: ConverterRun)
    requires tmpPath !in files && HasSuffix(tmpPath, ".docx")
    requires OutputDir(projectRoot) in files ==> files[OutputDir(projectRoot)] == Directory
    requires var outPdf := OutputPdfPath(projectRoot, options.outputFileName);
      outPdf !in files || files[outPdf] != Directory
    requires load(InputDocxPath(projectRoot, options)).Ok? && saveError.None?
    requires ConverterSucceeds(run, tmpPath, OutputPdfPath(projectRoot, options.outputFileName))
    ensures var out := Generate(files, projectRoot, options, load, tmpPath, saveError, run);
      var outPdf := OutputPdfPath(projectRoot, options.outputFileName);
      && out.result == Ok(outPdf)
      && outPdf in out.files
      && out.files[outPdf] == PdfFile(SubstituteDocument(options.placeholders,
                                                         load(InputDocxPath(projectRoot, options)).value))
      && forall p :: p != outPdf && p != OutputDir(projectRoot) && p != ConverterPdfPath(tmpPath, outPdf) ==>
           (p in out.files <==> p in files) && (p in files ==> out.files[p] == files[p])
  {
    PathsDistinct(projectRoot, options.outputFileName, tmpPath);
    GenerateSteps(files, projectRoot, options, load, tmpPath, saveError, run);
    MakeDirsThenSaveAndConvert(files, OutputDir(projectRoot), OutputPdfPath(projectRoot, options.outputFileName),
      SubstituteDocument(options.placeholders, load(InputDocxPath(projectRoot, options)).value), tmpPath, run);
  }

  /** A directory at the output path makes the final rename raise `IsADirectoryError`
      even though the converter succeeded; the directory stays where it was. */
  lemma SaveAndConvertOutputIsDirectory(files: map<string, FileData>, outPdf: string, edited: DocContent,
                                        tmpPath: string, run: ConverterRun)
    requires tmpPath != outPdf && ConverterPdfPath(tmpPath, outPdf) != outPdf
    requires outPdf in files && files[outPdf] == Directory
    requires ConverterSucceeds(run, tmpPath, outPdf)
    ensures var out := SaveAndConvert(files, outPdf, edited, tmpPath, None, run);
      && out.result.Err? && out.result.error.cls == OtherClass("IsADirectoryError")
      && outPdf in out.files && out.files[outPdf] == Directory
  {
    var pdf := ConverterPdfPath(tmpPath, outPdf);
    var saved := files[tmpPath := DocxFile(edited)];
    var after := saved[pdf := PdfFile(edited)];
    assert AfterSubprocess(saved, tmpPath, run) == after;
    assert after[outPdf] == Directory && KindsClash(after, pdf, outPdf);
    var renamed := RenameEffect(after, pdf, outPdf);
    assert Convert(saved, tmpPath, outPdf, run) == renamed;
  }

  /** The same through the whole edit: a directory at the output path turns a
      successful conversion into `IsADirectoryError`. */
  lemma GenerateOutputIsDirectory(files: map<string, FileData>, projectRoot: string,
                                  options: DocxEditOptions, load: string -> Result<DocContent>,
                                  tmpPath: string, saveError: Option<Exc>, run: ConverterRun)
    requires tmpPath !in files && HasSuffix(tmpPath, ".docx")
    requires OutputDir(projectRoot) in files ==> files[OutputDir(projectRoot)] == Directory
    requires var outPdf := OutputPdfPath(projectRoot, options.outputFileName);
      outPdf in files && files[outPdf] == Directory
    requires load(InputDocxPath(projectRoot, options)).Ok? && saveError.None?
    requires ConverterSucceeds(run, tmpPath, OutputPdfPath(projectRoot, options.outputFileName))
    requires ConverterPdfPath(tmpPath, OutputPdfPath(projectRoot, options.outputFileName))
      != OutputPdfPath(projectRoot, options.outputFileName)
    ensures var out := Generate(files, projectRoot, options, load, tmpPath, saveError, run);
      var outPdf := OutputPdfPath(projectRoot, options.outputFileName);
      && out.result.Err? && out.result.error.cls == OtherClass("IsADirectoryError")
      && outPdf in out.files && out.files[outPdf] == Directory
  {
    PathsDistinct(projectRoot, options.outputFileName, tmpPath);
    GenerateSteps(files, projectRoot, options, load, tmpPath, saveError, run);
    var outPdf := OutputPdfPath(projectRoot, options.outputFileName);
    var created := MakeDirsEffect(files, OutputDir(projectRoot)).files[tmpPath := EmptyFile];
    assert created[outPdf] == Directory;
    SaveAndConvertOutputIsDirectory(created, outPdf,
      SubstituteDocument(options.placeholders, load(InputDocxPath(projectRoot, options)).value), tmpPath, run);
  }

  /** A non-zero exit status raises the conversion error with the converter's error
      output, and no PDF is moved to the output path: it holds what it held before,
      unless the converter itself wrote there. */
  lemma SaveAndConvertConversionFailure(files: map<string, FileData>, outPdf: string, edited: DocContent,
                                        tmpPath: string, run: ConverterRun)
    requires tmpPath != outPdf && run.exitCode != 0
    ensures var out := SaveAndConvert(files, outPdf, edited, tmpPath, None, run);
      && out.result == Err(ConversionFailed(run.stderr))
      && (run.writes != Some(outPdf) ==>
            (outPdf in out.files <==> outPdf in files)
            && (outPdf in files ==> out.files[outPdf] == files[outPdf]))
  {
    var saved := files[tmpPath := DocxFile(edited)];
    var after := AfterSubprocess(saved, tmpPath, run);
    assert Convert(saved, tmpPath, outPdf, run) == Effect(Some(ConversionFailed(run.stderr)), after);
    if run.writes != Some(outPdf) {
      assert outPdf in after <==> outPdf in saved;
      assert outPdf in saved ==> after[outPdf] == saved[outPdf];
    }
  }

  /** The same through the whole edit. */
  lemma GenerateConversionFailure(files: map<string, FileData>, projectRoot: string,
                                  options: DocxEditOptions, load: string -> Result<DocContent>,
                                  tmpPath: string, saveError: Option<Exc>, run: ConverterRun)
    requires tmpPath !in files && HasSuffix(tmpPath, ".docx")
    requires OutputDir(projectRoot) in files ==> files[OutputDir(projectRoot)] == Directory
    requires load(InputDocxPath(projectRoot, options)).Ok? && saveError.None? && run.exitCode != 0
    ensures var out := Generate(files, projectRoot, options, load, tmpPath, saveError, run);
      var outPdf := OutputPdfPath(projectRoot, options.outputFileName);
      && out.result == Err(ConversionFailed(run.stderr))
      && (run.writes != Some(outPdf) ==>
            (outPdf in out.files <==> outPdf in files)
            && (outPdf in files ==> out.files[outPdf] == files[outPdf]))
  {
    PathsDistinct(projectRoot, options.outputFileName, tmpPath);
    GenerateSteps(files, projectRoot, options, load, tmpPath, saveError, run);
    var outPdf := OutputPdfPath(projectRoot, options.outputFileName);
    var created := MakeDirsEffect(files, OutputDir(projectRoot)).files[tmpPath := EmptyFile];
    assert (outPdf in created <==> outPdf in files) && (outPdf in files ==> created[outPdf] == files[outPdf]);
    SaveAndConvertConversionFailure(created, outPdf,
      SubstituteDocument(options.placeholders, load(InputDocxPath(projectRoot, options)).value), tmpPath, run);
  }

  /** A converter that exits with status 0 but leaves no PDF at the expected path makes
      the rename raise `FileNotFoundError`. */
  lemma SaveAndConvertMissingPdf(files: map<string, FileData>, outPdf: string, edited: DocContent,
                                 tmpPath: string, run: ConverterRun)
    requires tmpPath != ConverterPdfPath(tmpPath, outPdf) && ConverterPdfPath(tmpPath, outPdf) !in files
    requires run.exitCode == 0 && run.writes.None?
    ensures var out := SaveAndConvert(files, outPdf, edited, tmpPath, None, run);
      out.result.Err? && out.result.error.cls == FileNotFoundError
  {
    var saved := files[tmpPath := DocxFile(edited)];
    assert AfterSubprocess(saved, tmpPath, run) == saved;
    assert ConverterPdfPath(tmpPath, outPdf) !in saved;
  }

  /** The same through the whole edit. */
  lemma GenerateMissingPdf(files: map<string, FileData>, projectRoot: string,
                           options: DocxEditOptions, load: string -> Result<DocContent>,
                           tmpPath: string, saveError: Option<Exc>, run: ConverterRun)
    requires tmpPath !in files && HasSuffix(tmpPath, ".docx")
    requires OutputDir(projectRoot) in files ==> files[OutputDir(projectRoot)] == Directory
    requires load(InputDocxPath(projectRoot, options)).Ok? && saveError.None?
    requires run.exitCode == 0 && run.writes.None?
    requires ConverterPdfPath(tmpPath, OutputPdfPath(projectRoot, options.outputFileName)) !in files
    ensures var out := Generate(files, projectRoot, options, load, tmpPath, saveError, run);
      out.result.Err? && out.result.error.cls == FileNotFoundError
  {
    PathsDistinct(projectRoot, options.outputFileName, tmpPath);
    GenerateSteps(files, projectRoot, options, load, tmpPath, saveError, run);
    var pdf := ConverterPdfPath(tmpPath, OutputPdfPath(projectRoot, options.outputFileName));
    var created := MakeDirsEffect(files, OutputDir(projectRoot)).files[tmpPath := EmptyFile];
    assert pdf !in created;
    SaveAndConvertMissingPdf(created, OutputPdfPath(projectRoot, options.outputFileName),
      SubstituteDocument(options.placeholders, load(InputDocxPath(projectRoot, options)).value), tmpPath, run);
  }

  /** The converter's PDF sits in the output directory, named after the input's base
      name without its last extension; a base name without a dot is used whole. */
  lemma ConverterPdfPathShape(inputPath: string, dir: string, name: string)
    requires dir != [] && dir[|dir| - 1] != '/' && '/' !in name
    ensures ConverterPdfPath(inputPath, Join(dir, name))
      == dir + "/" + StripLastExtension(BaseName(inputPath)) + ".pdf"
    ensures '.' !in BaseName(inputPath) ==>
      ConverterPdfPath(inputPath, Join(dir, name)) == dir + "/" + BaseName(inputPath) + ".pdf"
  {
    DirAndBaseOfJoin(dir, name);
    var b := BaseName(inputPath);
    StrippedHasNoSlash(b);
    PdfNameHasNoSlash(StripLastExtension(b));
    DirAndBaseOfJoin(dir, StripLastExtension(b) + ".pdf");
  }

  /** Removing an extension from a name without `/` leaves none. */
  lemma StrippedHasNoSlash(b: string)
    requires '/' !in b
    ensures '/' !in StripLastExtension(b)
  {
    var r := StripLastExtension(b);
    if '.' in b {
      forall i | 0 <= i < |r| ensures r[i] != '/' {
        assert r[i] == b[..|r|][i] == b[i];
      }
    }
  }

  /** `<stem>.docx` loses exactly its extension. */
  lemma StripDocxExtension(stem: string)
    requires '/' !in stem && '.' !in stem
    ensures '/' !in stem + ".docx"
    ensures StripLastExtension(stem + ".docx") == stem
  {
    var file := stem + ".docx";
    assert forall i :: 0 <= i < |file| ==> file[i] == if i < |stem| then stem[i] else ".docx"[i - |stem|];
    assert file[|stem|] == '.';
    var e := LastEnd(file, '.');
    assert e == |stem| + 1;
    assert file[..|stem|] == stem;
  }

  /** A temporary file `<dir>/<stem>.docx` makes the converter's PDF `<output directory>/<stem>.pdf`. */
  lemma ConverterPdfPathOfTemporaryFile(tmpDir: string, stem: string, dir: string, name: string)
    requires tmpDir != [] && tmpDir[|tmpDir| - 1] != '/' && '/' !in stem && '.' !in stem
    requires dir != [] && dir[|dir| - 1] != '/' && '/' !in name
    ensures ConverterPdfPath(Join(tmpDir, stem + ".docx"), Join(dir, name)) == dir + "/" + stem + ".pdf"
  {
    StripDocxExtension(stem);
    DirAndBaseOfJoin(tmpDir, stem + ".docx");
    ConverterPdfPathShape(Join(tmpDir, stem + ".docx"), dir, name);
  }
}
