/**
 * The bookkeeping of `JarRelocatorTask`: which entries of an input jar are copied to the
 * output jar, under which names, and which parent directory entries are created on the
 * way. The `RelocatingRemapper` is an uninterpreted function on names, the ASM rewriting of
 * a class file an uninterpreted function on its name and bytes, and the output jar the
 * sequence of entries put into it.
 */
module JarRelocator {
  import opened Wrappers

  type Byte = bv8

  /** An input entry: its name, its timestamp and the chunks its stream yields before -1. */
  datatype JarEntry = JarEntry(name: string, time: int, chunks: seq<seq<Byte>>)

  /** An entry put into the output jar. */
  datatype Written =
    | Directory(dir: string)
    | Resource(name: string, time: int, data: seq<Byte>)
    | Class(name: string, data: seq<Byte>)

  /** The name the output entry carries; a directory entry ends in `/`. */
  function EntryName(w: Written): string
  {
    match w
    case Directory(d) => d + "/"
    case Resource(n, _, _) => n
    case Class(n, _) => n
  }

  /** The `resources` set and the entries written so far. */
  datatype Jar = Jar(resources: set<string>, out: seq<Written>)

  const INDEX_LIST: string := "META-INF/INDEX.LIST"

  predicate EndsWith(s: string, suffix: string)
  {
    |suffix| <= |s| && s[|s| - |suffix|..] == suffix
  }

  /** `ZipEntry.isDirectory`: the name ends in `/`. */
  predicate IsDirectoryName(name: string)
  {
    EndsWith(name, "/")
  }

  /** `s.lastIndexOf('/')`. */
  function LastSlash(s: string): (r: int)
    ensures -1 <= r < |s|
    ensures r >= 0 ==> s[r] == '/'
    ensures forall k :: r < k < |s| ==> s[k] != '/'
  {
    if |s| == 0 then -1
    else if s[|s| - 1] == '/' then |s| - 1
    else LastSlash(s[..|s| - 1])
  }

  /** `s.indexOf('.')`. */
  function FirstDot(s: string): (r: int)
    ensures -1 <= r < |s|
    ensures r >= 0 ==> s[r] == '.'
    ensures forall k :: 0 <= k < |s| && (r == -1 || k < r) ==> s[k] != '.'
  {
    if |s| == 0 then -1
    else if s[0] == '.' then 0
    else var r := FirstDot(s[1..]); if r == -1 then -1 else r + 1
  }

  /** The directory containing `name`: everything before its last `/`. */
  function Parent(name: string): Option<string>
  {
    var i := LastSlash(name);
    if i == -1 then None else Some(name[..i])
  }

  /** Every proper parent directory of `name`, outermost first. */
  function Ancestors(name: string): seq<string>
    decreases |name|
  {
    match Parent(name)
    case None => []
    case Some(p) => Ancestors(p) + [p]
  }

  /**
   * The parent directories of `name` that `processDirectory` creates: walking up from the
   * parent, those not yet recorded, up to the first recorded one; outermost first.
   */
  function Missing(resources: set<string>, name: string): seq<string>
    decreases |name|
  {
    match Parent(name)
    case None => []
    case Some(p) => if p in resources then [] else Missing(resources, p) + [p]
  }

  /** The names in a sequence, as a set. */
  function Elements(s: seq<string>): set<string>
  {
    if |s| == 0 then {} else Elements(s[..|s| - 1]) + {s[|s| - 1]}
  }

  lemma {:induction false} ElementsMembers(s: seq<string>)
    ensures forall x :: x in Elements(s) <==> x in s
    decreases |s|
  {
    if |s| > 0 {
      ElementsMembers(s[..|s| - 1]);
      assert s == s[..|s| - 1] + [s[|s| - 1]];
    }
  }

  /** One directory entry per name, in order. */
  function DirEntries(dirs: seq<string>): seq<Written>
  {
    if |dirs| == 0 then [] else DirEntries(dirs[..|dirs| - 1]) + [Directory(dirs[|dirs| - 1])]
  }

  lemma {:induction false} DirEntriesAt(dirs: seq<string>)
    ensures |DirEntries(dirs)| == |dirs|
    ensures forall i :: 0 <= i < |dirs| ==> DirEntries(dirs)[i] == Directory(dirs[i])
    decreases |dirs|
  {
    if |dirs| > 0 {
      DirEntriesAt(dirs[..|dirs| - 1]);
    }
  }

  /** `processDirectory(name, parentsOnly)`, recursion and all. */
  function DirectoryStep(j: Jar, name: string, parentsOnly: bool): Jar
    decreases |name|
  {
    var j' := match Parent(name)
      case None => j
      case Some(p) => if p !in j.resources then DirectoryStep(j, p, false) else j;
    if parentsOnly then j' else Jar(j'.resources + {name}, j'.out + [Directory(name)])
  }

  /** `(byte[]) ClassWriter` output after relocating class `name` with the given bytes. */
  type Relocation = (string, seq<Byte>) -> seq<Byte>

  /** Everything the entry's stream yields, in order. */
  function Flatten(chunks: seq<seq<Byte>>): seq<Byte>
  {
    if |chunks| == 0 then [] else Flatten(chunks[..|chunks| - 1]) + chunks[|chunks| - 1]
  }

  /** The loop of `processEntries`: whether an input entry is passed over. */
  predicate Skipped(e: JarEntry)
  {
    e.name == INDEX_LIST || IsDirectoryName(e.name)
  }

  /** The name a class is written under: the mapped name up to its first `.`, plus `.class`. */
  function ClassName(remap: string -> string, name: string): string
  {
    var dot := FirstDot(name);
    remap(if dot == -1 then name else name[..dot]) + ".class"
  }

  /** One turn of `processEntries`: `processEntry` unless the entry is skipped. */
  function EntryStep(j: Jar, e: JarEntry, remap: string -> string, relocate: Relocation): Jar
  {
    if Skipped(e) then j
    else
      var mapped := remap(e.name);
      var j1 := DirectoryStep(j, mapped, true);
      if EndsWith(e.name, ".class") then
        Jar(j1.resources, j1.out + [Class(ClassName(remap, e.name), relocate(e.name, Flatten(e.chunks)))])
      else if mapped in j1.resources then j1
      else Jar(j1.resources + {mapped}, j1.out + [Resource(mapped, e.time, Flatten(e.chunks))])
  }

  /** `processEntries`: the entries in the jar's order. */
  function EntriesStep(j: Jar, entries: seq<JarEntry>, remap: string -> string, relocate: Relocation): Jar
  {
    if |entries| == 0 then j
    else EntryStep(EntriesStep(j, entries[..|entries| - 1], remap, relocate), entries[|entries| - 1], remap, relocate)
  }

  // ---------------------------------------------------------------------------
  // What the steps promise.

  /** `Flatten` distributes over concatenation. */
  lemma {:induction false} FlattenAppend(a: seq<seq<Byte>>, b: seq<seq<Byte>>)
    ensures Flatten(a + b) == Flatten(a) + Flatten(b)
    decreases |b|
  {
    if |b| == 0 {
      assert a + b == a;
    } else {
      var b' := b[..|b| - 1];
      assert (a + b)[..|a + b| - 1] == a + b';
      FlattenAppend(a, b');
    }
  }

  /** An ancestor of a name is a proper prefix of it that is followed by `/`. */
  ghost predicate IsAncestor(a: string, name: string)
  {
    |a| < |name| && name[..|a|] == a && name[|a|] == '/'
  }

  lemma {:induction false} AncestorsArePrefixes(name: string)
    ensures forall i :: 0 <= i < |Ancestors(name)| ==> IsAncestor(Ancestors(name)[i], name)
    decreases |name|
  {
    match Parent(name)
    case None =>
    case Some(p) =>
      AncestorsArePrefixes(p);
      forall i | 0 <= i < |Ancestors(name)|
        ensures IsAncestor(Ancestors(name)[i], name)
      {
        var a := Ancestors(name)[i];
        if i < |Ancestors(p)| {
          assert a == Ancestors(p)[i];
          assert name[..|p|] == p;
          assert p[..|a|] == name[..|a|];
        }
      }
  }

  /**
   * The directories created are exactly the innermost run of ancestors not yet recorded:
   * each is an ancestor of `name`, none was recorded, and they come outermost first (so no
   * two are equal).
   */
  lemma {:induction false} MissingShape(resources: set<string>, name: string)
    ensures var m := Missing(resources, name);
      (forall i :: 0 <= i < |m| ==> m[i] !in resources && IsAncestor(m[i], name)) &&
      (forall i, k :: 0 <= i < k < |m| ==> |m[i]| < |m[k]|)
    decreases |name|
  {
    match Parent(name)
    case None =>
    case Some(p) =>
      if p !in resources {
        MissingShape(resources, p);
        var m := Missing(resources, name);
        assert m == Missing(resources, p) + [p];
        forall i | 0 <= i < |m|
          ensures m[i] !in resources && IsAncestor(m[i], name)
        {
          if i < |m| - 1 {
            assert m[i] == Missing(resources, p)[i];
            assert name[..|p|] == p;
            assert p[..|m[i]|] == name[..|m[i]|];
          }
        }
      }
  }

  /** One level of `processDirectory(name, true)` when the parent is not recorded. */
  lemma DirectoryStepUnfold(j: Jar, name: string, p: string)
    requires Parent(name) == Some(p) && p !in j.resources
    ensures var j1 := DirectoryStep(j, p, true);
      DirectoryStep(j, name, true) == Jar(j1.resources + {p}, j1.out + [Directory(p)])
  {
  }

  lemma ElementsSnoc(m: seq<string>, p: string)
    ensures Elements(m + [p]) == Elements(m) + {p}
    ensures DirEntries(m + [p]) == DirEntries(m) + [Directory(p)]
  {
    assert (m + [p])[..|m + [p]| - 1] == m;
  }

  /** The recursion of `processDirectory` in closed form. */
  lemma {:induction false} DirectoryStepCreatesMissing(j: Jar, name: string)
    ensures var m := Missing(j.resources, name);
      DirectoryStep(j, name, true) == Jar(j.resources + Elements(m), j.out + DirEntries(m))
    decreases |name|
  {
    var parent := Parent(name);
    if parent.Some? && parent.value !in j.resources {
      var p := parent.value;
      var m := Missing(j.resources, p);
      assert Missing(j.resources, name) == m + [p];
      DirectoryStepCreatesMissing(j, p);
      DirectoryStepUnfold(j, name, p);
      ElementsSnoc(m, p);
      assert j.resources + Elements(m) + {p} == j.resources + Elements(m + [p]);
      assert j.out + DirEntries(m) + [Directory(p)] == j.out + DirEntries(m + [p]);
    }
  }

  /** Every recorded name's parent is recorded too. */
  ghost predicate UpwardClosed(resources: set<string>)
  {
    forall r :: r in resources ==> match Parent(r) case None => true case Some(p) => p in resources
  }

  /** In an upward-closed set, a recorded name has all its ancestors recorded. */
  lemma {:induction false} ClosedHasAncestors(resources: set<string>, name: string)
    requires UpwardClosed(resources) && name in resources
    ensures forall a :: a in Ancestors(name) ==> a in resources
    decreases |name|
  {
    match Parent(name)
    case None =>
    case Some(p) =>
      ClosedHasAncestors(resources, p);
  }

  /**
   * After `processDirectory(name, true)` on an upward-closed set, the set is still upward
   * closed and holds every proper parent directory of `name`.
   */
  lemma {:induction false} DirectoryStepClosed(j: Jar, name: string)
    requires UpwardClosed(j.resources)
    ensures var r := DirectoryStep(j, name, true).resources;
      UpwardClosed(r) && forall a :: a in Ancestors(name) ==> a in r
    decreases |name|
  {
    match Parent(name)
    case None =>
    case Some(p) =>
      if p !in j.resources {
        DirectoryStepClosed(j, p);
        var r := DirectoryStep(j, p, true).resources;
        assert DirectoryStep(j, name, true).resources == r + {p};
        forall x | x in r + {p}
          ensures match Parent(x) case None => true case Some(q) => q in r + {p}
        {
          if x != p {
            assert x in r;
          } else {
            match Parent(p)
            case None =>
            case Some(q) =>
              assert q in Ancestors(p);
          }
        }
      } else {
        ClosedHasAncestors(j.resources, p);
      }
  }

  /** Every directory entry's name is recorded, and no directory is written twice. */
  ghost predicate DirectoriesRecorded(j: Jar)
  {
    forall i :: 0 <= i < |j.out| && j.out[i].Directory? ==> j.out[i].dir in j.resources
  }

  ghost predicate DirectoriesDistinct(out: seq<Written>)
  {
    forall i, k :: 0 <= i < k < |out| && out[i].Directory? && out[k].Directory? ==> out[i].dir != out[k].dir
  }

  ghost predicate Valid(j: Jar)
  {
    UpwardClosed(j.resources) && DirectoriesRecorded(j) && DirectoriesDistinct(j.out)
  }

  /** Appending fresh directories, no two alike, to a valid jar keeps it valid. */
  lemma AppendDirectoriesValid(j: Jar, m: seq<string>)
    requires Valid(j) && UpwardClosed(j.resources + Elements(m))
    requires forall i :: 0 <= i < |m| ==> m[i] !in j.resources
    requires forall i, k :: 0 <= i < k < |m| ==> |m[i]| < |m[k]|
    ensures Valid(Jar(j.resources + Elements(m), j.out + DirEntries(m)))
  {
    var out := j.out + DirEntries(m);
    var r := j.resources + Elements(m);
    DirEntriesAt(m);
    ElementsMembers(m);
    forall i, k | 0 <= i < k < |out| && out[i].Directory? && out[k].Directory?
      ensures out[i].dir != out[k].dir
    {
      if k >= |j.out| {
        assert out[k] == Directory(m[k - |j.out|]);
        if i >= |j.out| {
          assert out[i] == Directory(m[i - |j.out|]);
        } else {
          assert out[i] == j.out[i];
        }
      } else {
        assert out[i] == j.out[i] && out[k] == j.out[k];
      }
    }
    forall i | 0 <= i < |out| && out[i].Directory?
      ensures out[i].dir in r
    {
      if i >= |j.out| {
        assert out[i] == Directory(m[i - |j.out|]);
      } else {
        assert out[i] == j.out[i];
      }
    }
  }

  /** Creating the missing parents keeps every directory entry recorded and unique. */
  lemma DirectoryStepValid(j: Jar, name: string)
    requires Valid(j)
    ensures Valid(DirectoryStep(j, name, true))
  {
    DirectoryStepCreatesMissing(j, name);
    DirectoryStepClosed(j, name);
    MissingShape(j.resources, name);
    AppendDirectoriesValid(j, Missing(j.resources, name));
  }

  /**
   * One entry keeps the jar valid: the recorded names stay upward closed (so every entry
   * is written after all its parent directories are recorded) and no directory entry is
   * written twice.
   */
  lemma EntryStepValid(j: Jar, e: JarEntry, remap: string -> string, relocate: Relocation)
    requires Valid(j)
    ensures Valid(EntryStep(j, e, remap, relocate))
  {
    if !Skipped(e) {
      var mapped := remap(e.name);
      DirectoryStepValid(j, mapped);
      DirectoryStepClosed(j, mapped);
      var j1 := DirectoryStep(j, mapped, true);
      var j2 := EntryStep(j, e, remap, relocate);
      if !EndsWith(e.name, ".class") && mapped !in j1.resources {
        match Parent(mapped)
        case None =>
        case Some(p) =>
          assert p in Ancestors(mapped);
        assert j2.out == j1.out + [Resource(mapped, e.time, Flatten(e.chunks))];
        forall i | 0 <= i < |j2.out| && j2.out[i].Directory?
          ensures j2.out[i].dir in j2.resources
        {
          assert j2.out[i] == j1.out[i];
        }
      } else if EndsWith(e.name, ".class") {
        var c := Class(ClassName(remap, e.name), relocate(e.name, Flatten(e.chunks)));
        assert j2.out == j1.out + [c];
        forall i | 0 <= i < |j2.out| && j2.out[i].Directory?
          ensures j2.out[i].dir in j2.resources
        {
          assert j2.out[i] == j1.out[i];
        }
      }
    }
  }

  lemma {:induction false} EntriesStepValid(j: Jar, entries: seq<JarEntry>, remap: string -> string, relocate: Relocation)
    requires Valid(j)
    ensures Valid(EntriesStep(j, entries, remap, relocate))
    decreases |entries|
  {
    if |entries| > 0 {
      EntriesStepValid(j, entries[..|entries| - 1], remap, relocate);
      EntryStepValid(EntriesStep(j, entries[..|entries| - 1], remap, relocate), entries[|entries| - 1], remap, relocate);
    }
  }

  /**
   * What an entry adds: nothing when skipped; otherwise its missing parent directories,
   * then the class under its relocated name (not recorded), or the resource with its
   * timestamp and bytes, which is recorded, unless that name was already recorded.
   */
  lemma EntryStepEffect(j: Jar, e: JarEntry, remap: string -> string, relocate: Relocation)
    ensures var j' := EntryStep(j, e, remap, relocate);
      var mapped := remap(e.name);
      var m := Missing(j.resources, mapped);
      var dirs := j.resources + Elements(m);
      (Skipped(e) ==> j' == j) &&
      (!Skipped(e) && EndsWith(e.name, ".class") ==>
        j' == Jar(dirs, j.out + DirEntries(m) + [Class(ClassName(remap, e.name), relocate(e.name, Flatten(e.chunks)))])) &&
      (!Skipped(e) && !EndsWith(e.name, ".class") && mapped in j.resources ==>
        j' == Jar(dirs, j.out + DirEntries(m))) &&
      (!Skipped(e) && !EndsWith(e.name, ".class") && mapped !in j.resources ==>
        j' == Jar(dirs + {mapped}, j.out + DirEntries(m) + [Resource(mapped, e.time, Flatten(e.chunks))]))
  {
    var mapped := remap(e.name);
    DirectoryStepCreatesMissing(j, mapped);
    MissingShape(j.resources, mapped);
    var m := Missing(j.resources, mapped);
    ElementsMembers(m);
    assert mapped !in Elements(m) by {
      forall i | 0 <= i < |m| ensures m[i] != mapped {
        assert IsAncestor(m[i], mapped);
      }
    }
  }

  /** Recorded names and written entries only accumulate. */
  lemma {:induction false} EntriesStepGrows(j: Jar, entries: seq<JarEntry>, remap: string -> string, relocate: Relocation)
    ensures var j' := EntriesStep(j, entries, remap, relocate);
      j.resources <= j'.resources && |j.out| <= |j'.out| && j'.out[..|j.out|] == j.out
    decreases |entries|
  {
    if |entries| > 0 {
      var pre := EntriesStep(j, entries[..|entries| - 1], remap, relocate);
      EntriesStepGrows(j, entries[..|entries| - 1], remap, relocate);
      EntryStepEffect(pre, entries[|entries| - 1], remap, relocate);
      var post := EntriesStep(j, entries, remap, relocate);
      assert post.out[..|pre.out|] == pre.out;
      assert post.out[..|j.out|] == pre.out[..|j.out|];
    }
  }

  // ---------------------------------------------------------------------------
  // The relocation job itself.

  class JarRelocatorTask {
    const remap: string -> string
    const relocate: Relocation
    var resources: set<string>
    /** The entries put into `jarOut`, in order. */
    var out: seq<Written>

    function State(): Jar
      reads this
    {
      Jar(resources, out)
    }

    constructor(remap: string -> string, relocate: Relocation)
      ensures this.remap == remap && this.relocate == relocate
      ensures resources == {} && out == []
      ensures Valid(State())
    {
      this.remap := remap;
      this.relocate := relocate;
      resources := {};
      out := [];
    }

    /** `copy`: every chunk `read` returns is written, until it returns -1. */
    static method Copy(chunks: seq<seq<Byte>>) returns (data: seq<Byte>)
      ensures data == Flatten(chunks)
    {
      data := [];
      var i := 0;
      while i < |chunks|
        invariant 0 <= i <= |chunks|
        invariant data == Flatten(chunks[..i])
      {
        assert chunks[..i + 1][..i] == chunks[..i];
        data := data + chunks[i];
        i := i + 1;
      }
      assert chunks[..i] == chunks;
    }

    /** `processEntries`. */
    method ProcessEntries(entries: seq<JarEntry>)
      modifies this
      ensures State() == EntriesStep(old(State()), entries, remap, relocate)
      ensures old(Valid(State())) ==> Valid(State())
    {
      ghost var start := State();
      var i := 0;
      while i < |entries|
        invariant 0 <= i <= |entries|
        invariant State() == EntriesStep(start, entries[..i], remap, relocate)
      {
        assert entries[..i + 1][..i] == entries[..i];
        var e := entries[i];
        if !(e.name == INDEX_LIST || IsDirectoryName(e.name)) {
          ProcessEntry(e);
        }
        i := i + 1;
      }
      assert entries[..i] == entries;
      if Valid(start) {
        EntriesStepValid(start, entries, remap, relocate);
      }
    }

    /** `processEntry`: parents first, then the class or the (not yet recorded) resource. */
    method ProcessEntry(e: JarEntry)
      requires !Skipped(e)
      modifies this
      ensures State() == EntryStep(old(State()), e, remap, relocate)
    {
      var mappedName := remap(e.name);
      ProcessDirectory(mappedName, true);
      if EndsWith(e.name, ".class") {
        ProcessClass(e.name, e.chunks);
      } else if mappedName !in resources {
        ProcessResource(mappedName, e.chunks, e.time);
      }
    }

    /** `processDirectory`: the parent first, when not recorded; then this one, unless parentsOnly. */
    method ProcessDirectory(name: string, parentsOnly: bool)
      modifies this
      ensures State() == DirectoryStep(old(State()), name, parentsOnly)
      decreases |name|
    {
      var index := LastSlash(name);
      if index != -1 {
        var parentDirectory := name[..index];
        if parentDirectory !in resources {
          ProcessDirectory(parentDirectory, false);
        }
      }
      if parentsOnly {
        return;
      }
      out := out + [Directory(name)];
      resources := resources + {name};
    }

    /** `processResource`: the entry with its timestamp and bytes, then the name is recorded. */
    method ProcessResource(name: string, chunks: seq<seq<Byte>>, lastModified: int)
      modifies this
      ensures out == old(out) + [Resource(name, lastModified, Flatten(chunks))]
      ensures resources == old(resources) + {name}
    {
      var data := Copy(chunks);
      out := out + [Resource(name, lastModified, data)];
      resources := resources + {name};
    }

    /** `processClass`: the relocated bytes under the relocated class name; nothing is recorded. */
    method ProcessClass(name: string, chunks: seq<seq<Byte>>)
      modifies this
      ensures out == old(out) + [Class(ClassName(remap, name), relocate(name, Flatten(chunks)))]
      ensures resources == old(resources)
    {
      var bytes := Copy(chunks);
      var renamedClass := relocate(name, bytes);
      var dot := FirstDot(name);
      var mappedName := remap(if dot == -1 then name else name[..dot]);
      out := out + [Class(mappedName + ".class", renamedClass)];
    }
  }
}
