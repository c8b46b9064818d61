/** The local filesystem as the core uses it: a map from path to what is stored there. */
module FileSystemModel {
  import opened Outcomes
  import opened Placeholders

  /** What a path holds. A `.docx` or PDF file is known by the document it renders. */
  datatype FileData = Directory | EmptyFile | DocxFile(doc: DocContent) | PdfFile(doc: DocContent)

  /** An error, if any, together with the filesystem after an operation. */
  datatype Effect = Effect(error: Option<Exc>, files: map<string, FileData>)

  /** `os.makedirs(path, exist_ok=True)`: nothing to do for an existing directory; an
      existing file of another kind raises `FileExistsError`. */
  function MakeDirsEffect(files: map<string, FileData>, path: string): (e: Effect)
    ensures e.error.None? <==> (path !in files || files[path] == Directory)
    ensures e.error.None? ==> path in e.files && e.files[path] == Directory
    ensures e.error.Some? ==> e.files == files
    ensures forall p :: p != path ==> (p in e.files <==> p in files)
    ensures forall p :: p != path && p in files ==> e.files[p] == files[p]
  {
    if path !in files then Effect(None, files[path := Directory])
    else if files[path] == Directory then Effect(None, files)
    else Effect(Some(Exc(OtherClass("FileExistsError"), "[Errno 17] File exists: '" + path + "'")), files)
  }

  /** `src` and `dst` both exist, one a directory and the other not. */
  predicate KindsClash(files: map<string, FileData>, src: string, dst: string)
  {
    src in files && dst in files && (files[src] == Directory) != (files[dst] == Directory)
  }

  /** `os.rename(src, dst)`: a missing `src` raises `FileNotFoundError`; renaming a path
      to itself does nothing; a file cannot replace a directory (`IsADirectoryError`) nor
      a directory a file (`NotADirectoryError`); otherwise what `src` held is at `dst`,
      replacing what was there, and `src` is gone. */
  function RenameEffect(files: map<string, FileData>, src: string, dst: string): (e: Effect)
    ensures e.error.None? <==> src in files && (src == dst || !KindsClash(files, src, dst))
    ensures src !in files ==> e.error.Some? && e.error.value.cls == FileNotFoundError
    ensures src in files && src != dst && KindsClash(files, src, dst) ==>
      e.error.Some? && e.error.value.cls ==
        OtherClass(if files[dst] == Directory then "IsADirectoryError" else "NotADirectoryError")
    ensures e.error.Some? ==> e.files == files
    ensures e.error.None? ==> dst in e.files && e.files[dst] == files[src]
    ensures e.error.None? && src != dst ==> src !in e.files
    ensures forall p :: p != src && p != dst ==> (p in e.files <==> p in files)
    ensures forall p :: p != src && p != dst && p in files ==> e.files[p] == files[p]
  {
    if src !in files then
      Effect(Some(Exc(FileNotFoundError,
        "[Errno 2] No such file or directory: '" + src + "' -> '" + dst + "'")), files)
    else if src == dst then Effect(None, files)
    else if KindsClash(files, src, dst) then
      if files[dst] == Directory then
        Effect(Some(Exc(OtherClass("IsADirectoryError"),
          "[Errno 21] Is a directory: '" + src + "' -> '" + dst + "'")), files)
      else
        Effect(Some(Exc(OtherClass("NotADirectoryError"),
          "[Errno 20] Not a directory: '" + src + "' -> '" + dst + "'")), files)
    else Effect(None, (files - {src})[dst := files[src]])
  }

  /** A rename that raises nothing moves what `src` held to `dst`. */
  lemma RenameMoves(files: map<string, FileData>, src: string, dst: string)
    requires src in files && src != dst && !KindsClash(files, src, dst)
    ensures RenameEffect(files, src, dst) == Effect(None, (files - {src})[dst := files[src]])
  {
  }

  class FileSystem {
    var files: map<string, FileData>

    constructor (files: map<string, FileData>)
      ensures this.files == files
    {
      this.files := files;
    }

    /** `os.path.exists(path)`. */
    predicate Exists(path: string)
      reads this
    {
      path in files
    }

    method MakeDirs(path: string) returns (err: Option<Exc>)
      modifies this
      ensures Effect(err, files) == MakeDirsEffect(old(files), path)
    {
      var e := MakeDirsEffect(files, path);
      err, files := e.error, e.files;
    }

    /** Creates or overwrites the file at `path`. */
    method Write(path: string, data: FileData)
      modifies this
      ensures files == old(files)[path := data]
    {
      files := files[path := data];
    }

    method Rename(src: string, dst: string) returns (err: Option<Exc>)
      modifies this
      ensures Effect(err, files) == RenameEffect(old(files), src, dst)
    {
      var e := RenameEffect(files, src, dst);
      err, files := e.error, e.files;
    }

    /** `os.remove(path)` for a path that exists. */
    method Remove(path: string)
      requires Exists(path)
      modifies this
      ensures files == old(files) - {path}
    {
      files := files - {path};
    }
  }
}
