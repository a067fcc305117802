/**
 * The parts of `java.io.File` and `java.nio.file.Path` on a Unix file system that the
 * modelled code relies on: a path string is normalised on construction (runs of `/`
 * collapse to one and a trailing `/` is dropped, except for the root), and an absolute path
 * is a relative one resolved against the working directory (`user.dir`).
 */
module JavaFiles {

  /** No `//` anywhere, and no trailing `/` unless the path is the root. */
  predicate Normalized(s: string)
  {
    (forall i :: 0 <= i < |s| - 1 ==> !(s[i] == '/' && s[i + 1] == '/')) &&
    (|s| > 1 ==> s[|s| - 1] != '/')
  }

  /** Runs of `/` collapsed to one. */
  function Collapse(s: string): (c: string)
    ensures |s| > 0 ==> |c| > 0 && c[|c| - 1] == s[|s| - 1]
    ensures |c| <= |s|
    ensures forall i :: 0 <= i < |c| - 1 ==> !(c[i] == '/' && c[i + 1] == '/')
  {
    if |s| <= 1 then s
    else
      var c := Collapse(s[..|s| - 1]);
      if s[|s| - 1] == '/' && c[|c| - 1] == '/' then c else c + [s[|s| - 1]]
  }

  /** `UnixFileSystem.normalize`, which `UnixPath` shares. */
  function Normalize(s: string): (r: string)
    ensures Normalized(r)
    ensures |s| > 0 ==> |r| > 0
  {
    var c := Collapse(s);
    if |c| > 1 && c[|c| - 1] == '/' then
      assert c[|c| - 2] != '/';
      c[..|c| - 1]
    else c
  }

  lemma {:induction false} CollapseKeeps(s: string)
    requires forall i :: 0 <= i < |s| - 1 ==> !(s[i] == '/' && s[i + 1] == '/')
    ensures Collapse(s) == s
    decreases |s|
  {
    if |s| > 1 {
      CollapseKeeps(s[..|s| - 1]);
      assert s[..|s| - 1] + [s[|s| - 1]] == s;
    }
  }

  /** A normalised path is its own normal form. */
  lemma NormalizeKeeps(s: string)
    requires Normalized(s)
    ensures Normalize(s) == s
  {
    CollapseKeeps(s);
  }

  /** `new File(pathname)`: the path is kept in normal form. */
  datatype File = File(path: string)

  function NewFile(pathname: string): (f: File)
    ensures Normalized(f.path)
    ensures Normalized(pathname) ==> f.path == pathname
  {
    if Normalized(pathname) then NormalizeKeeps(pathname); File(Normalize(pathname))
    else File(Normalize(pathname))
  }

  predicate IsAbsolute(f: File)
  {
    |f.path| > 0 && f.path[0] == '/'
  }

  /** `UnixFileSystem.resolve(parent, child)`. */
  function Resolve(parent: string, child: string): string
  {
    if |child| == 0 then parent
    else if child[0] == '/' then (if parent == "/" then child else parent + child)
    else if parent == "/" then parent + child
    else parent + "/" + child
  }

  /** A working directory as `user.dir` holds it: absolute and normalised. */
  predicate WorkingDirectory(dir: string)
  {
    |dir| > 0 && dir[0] == '/' && Normalized(dir)
  }

  /** `File.getAbsolutePath`. */
  function AbsolutePath(f: File, userDir: string): string
  {
    if IsAbsolute(f) then f.path else Resolve(userDir, f.path)
  }

  /** An absolute path of a normalised file is itself absolute and normalised. */
  lemma AbsolutePathNormalized(f: File, userDir: string)
    requires Normalized(f.path) && WorkingDirectory(userDir)
    ensures WorkingDirectory(AbsolutePath(f, userDir))
  {
    if !IsAbsolute(f) && |f.path| > 0 {
      var p := f.path;
      var r := Resolve(userDir, p);
      if userDir == "/" {
        assert r == "/" + p;
        forall i | 0 <= i < |r| - 1 ensures !(r[i] == '/' && r[i + 1] == '/') {
          if i > 0 {
            assert r[i] == p[i - 1] && r[i + 1] == p[i];
          }
        }
      } else {
        assert r == userDir + "/" + p;
        var n := |userDir|;
        forall i | 0 <= i < |r| - 1 ensures !(r[i] == '/' && r[i + 1] == '/') {
          if i < n - 1 {
            assert r[i] == userDir[i] && r[i + 1] == userDir[i + 1];
          } else if i == n - 1 {
            assert r[i] == userDir[n - 1];
          } else if i > n {
            assert r[i] == p[i - n - 1] && r[i + 1] == p[i - n];
          }
        }
        assert r[|r| - 1] == p[|p| - 1];
      }
    }
  }

  /** Turning a file's absolute path back into a file and asking again gives the same path. */
  lemma AbsolutePathStable(f: File, userDir: string)
    requires Normalized(f.path) && WorkingDirectory(userDir)
    ensures var a := AbsolutePath(f, userDir);
      NewFile(a) == File(a) && AbsolutePath(NewFile(a), userDir) == a
  {
    AbsolutePathNormalized(f, userDir);
  }

  /** `Path.of(s)`: a `UnixPath` keeps the normal form of its string, which `toString` returns. */
  datatype Path = Path(text: string)

  function PathOf(s: string): (p: Path)
    ensures Normalized(p.text)
    ensures Normalized(s) ==> p.text == s
  {
    if Normalized(s) then NormalizeKeeps(s); Path(Normalize(s))
    else Path(Normalize(s))
  }
}
