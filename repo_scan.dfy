/** `GitHubHandler.get_source_files`: the walk over a checked-out repository
    that collects the text of every web source file, keyed by its path
    relative to the repository root. The file system is a tree of nodes;
    the order of a directory's entries is the order `os.walk` lists them. */
module RepoScan {
  import opened Wrappers
  import opened Text
  import opened ODict

  /** `source_files`: relative path to file text, in enumeration order. */
  type SourceFiles = ODict<string, string>

  /** A directory entry. A file whose text cannot be read as UTF-8 has no
      content. */
  datatype Node = File(name: string, content: Option<string>) | Dir(name: string, children: seq<Node>)

  /** The extensions used when the caller gives none; `.ts` is not one. */
  const DefaultExtensions: seq<string> := [".html", ".htm", ".css", ".js", ".jsx", ".tsx", ".vue"]

  /** Directories the walk does not descend into. */
  const SkippedDirs: seq<string> := [".git", "node_modules", "__pycache__", "dist", "build"]

  /** `any(file.endswith(ext) for ext in extensions)`. */
  predicate Wanted(name: string, exts: seq<string>) {
    exists i :: 0 <= i < |exts| && EndsWith(name, exts[i])
  }

  predicate Skipped(name: string) {
    name in SkippedDirs
  }

  /** `os.path.relpath(os.path.join(root, file), repo_path)` for a file
      inside the directories `dirs` below the repository root. */
  function RelPath(dirs: seq<string>, name: string): string
    decreases |dirs|
  {
    if |dirs| == 0 then name else dirs[0] + "/" + RelPath(dirs[1..], name)
  }

  /** A file the walk picks up: where it is, its name and its text. */
  datatype Found = Found(dirs: seq<string>, name: string, content: string)

  /** The loop `for file in files` of one directory `dirs` with entries
      `cs`: the readable files with a wanted name, in order. */
  function FilesHere(dirs: seq<string>, cs: seq<Node>, exts: seq<string>): (r: seq<Found>)
    ensures forall k :: 0 <= k < |r| ==> r[k].dirs == dirs
    decreases |cs|
  {
    if |cs| == 0 then []
    else
      var n := cs[|cs| - 1];
      FilesHere(dirs, cs[..|cs| - 1], exts) +
        (if n.File? && Wanted(n.name, exts) && n.content.Some? then [Found(dirs, n.name, n.content.value)] else [])
  }

  /** What `os.walk` finds below the directory `dirs` with entries `cs`:
      first its own files, then each kept subdirectory in turn. */
  function Walk(dirs: seq<string>, cs: seq<Node>, exts: seq<string>): seq<Found>
    decreases cs, 1
  {
    FilesHere(dirs, cs, exts) + Subdirs(dirs, cs, exts)
  }

  /** The walks of the subdirectories left after `dirs[:] = [...]`. */
  function Subdirs(dirs: seq<string>, cs: seq<Node>, exts: seq<string>): seq<Found>
    decreases cs, 0
  {
    if |cs| == 0 then []
    else
      var n := cs[|cs| - 1];
      Subdirs(dirs, cs[..|cs| - 1], exts) +
        (if n.Dir? && !Skipped(n.name) then Walk(dirs + [n.name], n.children, exts) else [])
  }

  /** `source_files[relative_path] = f.read()` for each file found. */
  function Collect(fs: seq<Found>): SourceFiles
    decreases |fs|
  {
    if |fs| == 0 then []
    else
      var f := fs[|fs| - 1];
      Put(Collect(fs[..|fs| - 1]), RelPath(f.dirs, f.name), f.content)
  }

  /** What `get_source_files` returns for the repository whose top-level
      entries are `root`. */
  function SourceFilesOf(root: seq<Node>, exts: seq<string>): SourceFiles {
    Collect(Walk([], root, exts))
  }

  /** The file `name` with text `content` sits in the directory reached from
      the entries `cs` through the directories `rel`. */
  predicate Located(cs: seq<Node>, rel: seq<string>, name: string, content: string)
    decreases cs
  {
    if |rel| == 0 then exists i :: 0 <= i < |cs| && cs[i] == File(name, Some(content))
    else exists i :: 0 <= i < |cs| && cs[i].Dir? && cs[i].name == rel[0] &&
                     Located(cs[i].children, rel[1..], name, content)
  }

  /** `f` is a readable file with a wanted name below `dirs`, reached without
      passing through a skipped directory. */
  predicate Reachable(dirs: seq<string>, cs: seq<Node>, exts: seq<string>, f: Found) {
    |dirs| <= |f.dirs| && f.dirs[..|dirs|] == dirs && Wanted(f.name, exts) &&
    Located(cs, f.dirs[|dirs|..], f.name, f.content) &&
    forall k :: |dirs| <= k < |f.dirs| ==> !Skipped(f.dirs[k])
  }

  lemma {:induction false} FilesHereExactly(dirs: seq<string>, cs: seq<Node>, exts: seq<string>, f: Found)
    ensures f in FilesHere(dirs, cs, exts) <==>
              f.dirs == dirs && Wanted(f.name, exts) && exists i :: 0 <= i < |cs| && cs[i] == File(f.name, Some(f.content))
    decreases |cs|
  {
    if |cs| > 0 {
      var init := cs[..|cs| - 1];
      FilesHereExactly(dirs, init, exts, f);
      assert forall i :: 0 <= i < |init| ==> init[i] == cs[i];
      if exists i :: 0 <= i < |cs| && cs[i] == File(f.name, Some(f.content)) {
        var i :| 0 <= i < |cs| && cs[i] == File(f.name, Some(f.content));
        assert i < |init| ==> init[i] == File(f.name, Some(f.content));
      }
    }
  }

  /** A file is found exactly when it is readable, has a wanted name and no
      directory on its way is skipped; its key is its relative path. */
  lemma {:induction false} WalkExactly(dirs: seq<string>, cs: seq<Node>, exts: seq<string>, f: Found)
    ensures f in Walk(dirs, cs, exts) <==> Reachable(dirs, cs, exts, f)
    decreases cs, 1
  {
    FilesHereExactly(dirs, cs, exts, f);
    SubdirsExactly(dirs, cs, exts, f);
    if f.dirs == dirs {
      assert f.dirs[|dirs|..] == [];
    }
  }

  /** The subdirectory walks find exactly the reachable files strictly
      below `dirs`. */
  lemma {:induction false} SubdirsExactly(dirs: seq<string>, cs: seq<Node>, exts: seq<string>, f: Found)
    ensures f in Subdirs(dirs, cs, exts) <==> |dirs| < |f.dirs| && Reachable(dirs, cs, exts, f)
    decreases cs, 0
  {
    if |cs| > 0 {
      var init := cs[..|cs| - 1];
      var n := cs[|cs| - 1];
      assert cs == init + [n];
      SubdirsExactly(dirs, init, exts, f);
      if n.Dir? {
        WalkExactly(dirs + [n.name], n.children, exts, f);
      }
      if |dirs| < |f.dirs| {
        ReachableSnoc(dirs, init, n, exts, f);
      }
    }
  }

  /** A file strictly below `dirs` is reachable through one more entry
      exactly when it was already, or that entry is a kept directory it is
      reachable from. */
  lemma ReachableSnoc(dirs: seq<string>, init: seq<Node>, n: Node, exts: seq<string>, f: Found)
    requires |dirs| < |f.dirs|
    ensures Reachable(dirs, init + [n], exts, f) <==>
              Reachable(dirs, init, exts, f) ||
              (n.Dir? && !Skipped(n.name) && Reachable(dirs + [n.name], n.children, exts, f))
  {
    var d := |dirs|;
    var rel := f.dirs[d..];
    assert rel[0] == f.dirs[d] && rel[1..] == f.dirs[d + 1..];
    LocatedSnoc(init, n, rel, f.name, f.content);
    assert f.dirs[..d + 1] == f.dirs[..d] + [f.dirs[d]];
    assert f.dirs[..d + 1] == dirs + [n.name] <==> f.dirs[..d] == dirs && f.dirs[d] == n.name;
    assert (forall k :: d <= k < |f.dirs| ==> !Skipped(f.dirs[k])) <==>
           !Skipped(f.dirs[d]) && forall k :: d + 1 <= k < |f.dirs| ==> !Skipped(f.dirs[k]);
  }

  /** One more entry locates a file below a directory exactly when the
      earlier entries do or that entry is the directory it is in. */
  lemma LocatedSnoc(init: seq<Node>, n: Node, rel: seq<string>, name: string, content: string)
    requires |rel| > 0
    ensures Located(init + [n], rel, name, content) <==>
              Located(init, rel, name, content) ||
              (n.Dir? && n.name == rel[0] && Located(n.children, rel[1..], name, content))
  {
    var cs := init + [n];
    assert forall i :: 0 <= i < |init| ==> cs[i] == init[i];
    assert cs[|init|] == n;
  }

  /** The walk never returns a file inside a skipped directory, and keeps
      only wanted names. */
  lemma NeverSkippedDirectory(root: seq<Node>, exts: seq<string>, f: Found)
    requires f in Walk([], root, exts)
    ensures Wanted(f.name, exts) && Located(root, f.dirs, f.name, f.content)
    ensures forall k :: 0 <= k < |f.dirs| ==> !Skipped(f.dirs[k])
  {
    WalkExactly([], root, exts, f);
    assert f.dirs[0..] == f.dirs;
  }

  /** A `.ts` file is not a web source file by default. */
  lemma TypeScriptNotDefault(name: string)
    requires EndsWith(name, ".ts")
    ensures !Wanted(name, DefaultExtensions)
  {
    var n := |name|;
    EndsWithLastTwo(name, ".ts");
    forall i | 0 <= i < |DefaultExtensions|
      ensures !EndsWith(name, DefaultExtensions[i])
    {
      var e := DefaultExtensions[i];
      assert |e| >= 3 && (e[|e| - 1] != 's' || e[|e| - 2] != 't');
      EndsWithLastTwo(name, e);
    }
  }

  /** A path is a key exactly when some file found has it ... */
  lemma {:induction false} CollectKeys(fs: seq<Found>, p: string)
    ensures HasKey(Collect(fs), p) <==> exists i :: 0 <= i < |fs| && RelPath(fs[i].dirs, fs[i].name) == p
    decreases |fs|
  {
    if |fs| > 0 {
      var init := fs[..|fs| - 1];
      var f := fs[|fs| - 1];
      CollectKeys(init, p);
      GetPut(Collect(init), RelPath(f.dirs, f.name), f.content, p);
      assert forall i :: 0 <= i < |init| ==> init[i] == fs[i];
    }
  }

  /** ... and its text is that of the last file found with that path. */
  lemma {:induction false} CollectLast(fs: seq<Found>, i: nat)
    requires i < |fs|
    requires forall j :: i < j < |fs| ==> RelPath(fs[j].dirs, fs[j].name) != RelPath(fs[i].dirs, fs[i].name)
    ensures Get(Collect(fs), RelPath(fs[i].dirs, fs[i].name)) == Some(fs[i].content)
    decreases |fs|
  {
    var init := fs[..|fs| - 1];
    var f := fs[|fs| - 1];
    var p := RelPath(fs[i].dirs, fs[i].name);
    GetPut(Collect(init), RelPath(f.dirs, f.name), f.content, p);
    if i < |fs| - 1 {
      assert init[i] == fs[i];
      assert forall j :: i < j < |init| ==> init[j] == fs[j];
      CollectLast(init, i);
    }
  }

  // ---------------------------------------------------------------------
  // The walk as a loop over pending directories.

  /** The directories still to be walked, each with the path to it. */
  type Pending = seq<(seq<string>, seq<Node>)>

  function WalkAll(ps: Pending, exts: seq<string>): seq<Found>
    decreases |ps|
  {
    if |ps| == 0 then [] else WalkAll(ps[..|ps| - 1], exts) + Walk(ps[|ps| - 1].0, ps[|ps| - 1].1, exts)
  }

  lemma {:induction false} WalkAllConcat(a: Pending, b: Pending, exts: seq<string>)
    ensures WalkAll(a + b, exts) == WalkAll(a, exts) + WalkAll(b, exts)
    decreases |b|
  {
    if |b| > 0 {
      var init := b[..|b| - 1];
      assert (a + b)[..|a + b| - 1] == a + init;
      WalkAllConcat(a, init, exts);
    } else {
      assert a + b == a;
    }
  }

  /** The subdirectories `os.walk` descends into from `dirs`. */
  function SubdirList(dirs: seq<string>, cs: seq<Node>): Pending
    decreases |cs|
  {
    if |cs| == 0 then []
    else
      var n := cs[|cs| - 1];
      SubdirList(dirs, cs[..|cs| - 1]) + (if n.Dir? && !Skipped(n.name) then [(dirs + [n.name], n.children)] else [])
  }

  lemma {:induction false} SubdirsAll(dirs: seq<string>, cs: seq<Node>, exts: seq<string>)
    ensures Subdirs(dirs, cs, exts) == WalkAll(SubdirList(dirs, cs), exts)
    decreases |cs|
  {
    if |cs| > 0 {
      var init := cs[..|cs| - 1];
      var n := cs[|cs| - 1];
      SubdirsAll(dirs, init, exts);
      if n.Dir? && !Skipped(n.name) {
        var a := SubdirList(dirs, init);
        assert (a + [(dirs + [n.name], n.children)])[..|a|] == a;
      } else {
        assert SubdirList(dirs, cs) == SubdirList(dirs, init);
      }
    }
  }

  /** The number of nodes in a forest, which bounds the work left. */
  function Size(cs: seq<Node>): nat
    decreases cs
  {
    if |cs| == 0 then 0
    else Size(cs[..|cs| - 1]) + 1 + (if cs[|cs| - 1].Dir? then Size(cs[|cs| - 1].children) else 0)
  }

  function PendingSize(ps: Pending): nat
    decreases |ps|
  {
    if |ps| == 0 then 0 else PendingSize(ps[..|ps| - 1]) + 1 + Size(ps[|ps| - 1].1)
  }

  lemma {:induction false} PendingSizeConcat(a: Pending, b: Pending)
    ensures PendingSize(a + b) == PendingSize(a) + PendingSize(b)
    decreases |b|
  {
    if |b| > 0 {
      assert (a + b)[..|a + b| - 1] == a + b[..|b| - 1];
      PendingSizeConcat(a, b[..|b| - 1]);
    } else {
      assert a + b == a;
    }
  }

  lemma {:induction false} SubdirListSize(dirs: seq<string>, cs: seq<Node>)
    ensures PendingSize(SubdirList(dirs, cs)) <= Size(cs)
    decreases |cs|
  {
    if |cs| > 0 {
      var init := cs[..|cs| - 1];
      var n := cs[|cs| - 1];
      SubdirListSize(dirs, init);
      var extra := if n.Dir? && !Skipped(n.name) then [(dirs + [n.name], n.children)] else [];
      PendingSizeConcat(SubdirList(dirs, init), extra);
      assert |extra| == 1 ==> extra[..0] == [];
    }
  }

  lemma FilesHereSnoc(dirs: seq<string>, cs: seq<Node>, n: Node, exts: seq<string>)
    ensures FilesHere(dirs, cs + [n], exts) ==
              FilesHere(dirs, cs, exts) +
              (if n.File? && Wanted(n.name, exts) && n.content.Some? then [Found(dirs, n.name, n.content.value)] else [])
  {
    assert (cs + [n])[..|cs|] == cs;
  }

  lemma CollectSnoc(fs: seq<Found>, f: Found)
    ensures Collect(fs + [f]) == Put(Collect(fs), RelPath(f.dirs, f.name), f.content)
  {
    assert (fs + [f])[..|fs|] == fs;
  }

  /** Walking the first pending directory means taking its files and
      putting its kept subdirectories in front of the rest ... */
  lemma PendingStep(dirs: seq<string>, cs: seq<Node>, rest: Pending, exts: seq<string>)
    ensures WalkAll([(dirs, cs)] + rest, exts) ==
              FilesHere(dirs, cs, exts) + WalkAll(SubdirList(dirs, cs) + rest, exts)
  {
    var below := SubdirList(dirs, cs);
    var here := FilesHere(dirs, cs, exts);
    calc {
      WalkAll([(dirs, cs)] + rest, exts);
      { WalkAllConcat([(dirs, cs)], rest, exts); }
      WalkAll([(dirs, cs)], exts) + WalkAll(rest, exts);
      { assert [(dirs, cs)][..0] == []; }
      Walk(dirs, cs, exts) + WalkAll(rest, exts);
      { SubdirsAll(dirs, cs, exts); }
      (here + WalkAll(below, exts)) + WalkAll(rest, exts);
      here + (WalkAll(below, exts) + WalkAll(rest, exts));
      { WalkAllConcat(below, rest, exts); }
      here + WalkAll(below + rest, exts);
    }
  }

  /** ... which shrinks the work left. */
  lemma PendingShrinks(dirs: seq<string>, cs: seq<Node>, rest: Pending)
    ensures PendingSize(SubdirList(dirs, cs) + rest) < PendingSize([(dirs, cs)] + rest)
  {
    var below := SubdirList(dirs, cs);
    assert [(dirs, cs)][..0] == [];
    PendingSizeConcat([(dirs, cs)], rest);
    PendingSizeConcat(below, rest);
    SubdirListSize(dirs, cs);
  }

  /** The loop `for file in files` of one directory. */
  method ScanFiles(files: SourceFiles, ghost done: seq<Found>, dirs: seq<string>, cs: seq<Node>, exts: seq<string>)
    returns (r: SourceFiles)
    requires files == Collect(done)
    ensures r == Collect(done + FilesHere(dirs, cs, exts))
  {
    r := files;
    var j := 0;
    assert done + FilesHere(dirs, cs[..0], exts) == done;
    while j < |cs|
      invariant 0 <= j <= |cs|
      invariant r == Collect(done + FilesHere(dirs, cs[..j], exts))
    {
      var n := cs[j];
      assert cs[..j + 1] == cs[..j] + [n];
      FilesHereSnoc(dirs, cs[..j], n, exts);
      if n.File? && Wanted(n.name, exts) && n.content.Some? {
        var f := Found(dirs, n.name, n.content.value);
        assert done + FilesHere(dirs, cs[..j + 1], exts) == (done + FilesHere(dirs, cs[..j], exts)) + [f];
        CollectSnoc(done + FilesHere(dirs, cs[..j], exts), f);
        r := Put(r, RelPath(dirs, n.name), n.content.value);
      } else {
        assert done + FilesHere(dirs, cs[..j + 1], exts) == done + FilesHere(dirs, cs[..j], exts);
      }
      j := j + 1;
    }
    assert cs[..j] == cs;
  }

  /** `get_source_files`: directories are walked top-down, each one's files
      before its kept subdirectories, which are walked in order. */
  method GetSourceFiles(root: seq<Node>, exts: seq<string>) returns (files: SourceFiles)
    ensures files == SourceFilesOf(root, exts)
  {
    files := [];
    ghost var done: seq<Found> := [];
    var pending: Pending := [([], root)];
    assert WalkAll(pending, exts) == Walk([], root, exts) by {
      assert pending[..0] == [];
    }
    while |pending| > 0
      invariant files == Collect(done)
      invariant done + WalkAll(pending, exts) == Walk([], root, exts)
      decreases PendingSize(pending)
    {
      var dirs := pending[0].0;
      var cs := pending[0].1;
      var rest := pending[1..];
      files := ScanFiles(files, done, dirs, cs, exts);
      assert pending == [(dirs, cs)] + rest;
      PendingStep(dirs, cs, rest, exts);
      PendingShrinks(dirs, cs, rest);
      ghost var here := FilesHere(dirs, cs, exts);
      assert done + WalkAll(pending, exts) == (done + here) + WalkAll(SubdirList(dirs, cs) + rest, exts);
      done := done + here;
      pending := SubdirList(dirs, cs) + rest;
    }
    assert done + WalkAll(pending, exts) == done;
  }
}
