/** The POSIX flavour of Python's `os.path` functions used by the core, and the
    `rsplit('.', 1)[0]` stem rule of the converter. */
module PosixPath {

  /** The index just past the last `c` of `p`, or 0 when `p` has none. */
  function LastEnd(p: string, c: char): (i: nat)
    ensures i <= |p|
    ensures i > 0 ==> p[i - 1] == c
    ensures forall j :: i <= j < |p| ==> p[j] != c
  {
    if p == [] then 0
    else if p[|p| - 1] == c then |p|
    else LastEnd(p[..|p| - 1], c)
  }

  function LastSlashEnd(p: string): nat
  {
    LastEnd(p, '/')
  }

  /** `os.path.basename(p)`: what follows the last `/`. */
  function BaseName(p: string): (r: string)
    ensures '/' !in r
    ensures |r| <= |p| && p[|p| - |r|..] == r
  {
    p[LastSlashEnd(p)..]
  }

  predicate AllSlashes(s: string)
  {
    forall i :: 0 <= i < |s| ==> s[i] == '/'
  }

  /** `s.rstrip('/')`. */
  function StripTrailingSlashes(s: string): (r: string)
    ensures |r| <= |s| && s[..|r|] == r
    ensures r == [] || r[|r| - 1] != '/'
  {
    if s != [] && s[|s| - 1] == '/' then StripTrailingSlashes(s[..|s| - 1]) else s
  }

  /** `os.path.dirname(p)`: everything up to the last `/`, with the trailing slashes
      removed unless it consists of slashes only. */
  function DirName(p: string): string
  {
    var head := p[..LastSlashEnd(p)];
    if head != [] && !AllSlashes(head) then StripTrailingSlashes(head) else head
  }

  /** `os.path.join(a, b)`: an absolute `b` discards `a`; otherwise one `/` separates them. */
  function Join(a: string, b: string): string
  {
    if |b| > 0 && b[0] == '/' then b
    else if a == [] || a[|a| - 1] == '/' then a + b
    else a + "/" + b
  }

  /** A join always ends with its second part. */
  lemma JoinEndsWith(a: string, b: string)
    ensures |b| <= |Join(a, b)| && Join(a, b)[|Join(a, b)| - |b|..] == b
  {
    var j := Join(a, b);
    if !(|b| > 0 && b[0] == '/') {
      if a == [] || a[|a| - 1] == '/' {
        assert j == a + b;
      } else {
        assert j == (a + "/") + b;
      }
    }
  }

  /** `name.rsplit('.', 1)[0]`: `name` without its last `.` and what follows it. */
  function StripLastExtension(name: string): (r: string)
    ensures '.' !in name ==> r == name
    ensures '.' in name ==>
      |r| < |name| && name[..|r|] == r && name[|r|] == '.' && '.' !in name[|r| + 1..]
  {
    var i := LastEnd(name, '.');
    if i == 0 then name else name[..i - 1]
  }

  /** Joining a directory that does not end in `/` with a plain file name gives a path
      whose directory is that directory and whose base name is that file name. */
  lemma DirAndBaseOfJoin(dir: string, name: string)
    requires dir != [] && dir[|dir| - 1] != '/' && '/' !in name
    ensures Join(dir, name) == dir + "/" + name
    ensures DirName(Join(dir, name)) == dir
    ensures BaseName(Join(dir, name)) == name
  {
    var p := dir + "/" + name;
    assert p[|dir|] == '/';
    var i := LastSlashEnd(p);
    assert i == |dir| + 1;
    var head := p[..i];
    assert head == dir + "/";
    assert !AllSlashes(head) by { assert head[|dir| - 1] != '/'; }
    assert head[..|head| - 1] == dir;
    assert StripTrailingSlashes(head) == StripTrailingSlashes(dir);
  }
}
