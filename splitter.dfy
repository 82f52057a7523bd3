/** The split loop shared by both scripts (`split_paths` in
    Scripts/split_openapi.py, the module-level loop of Scripts/local.py): for
    each path of the document, in order, write its fragment to
    `<output_dir>/<safe name>.yaml`. The output directory is a map from file
    name to the document written there; a later write to the same name
    replaces the earlier one. */
module Splitter {
  import opened Wrappers
  import opened Documents
  import opened PathNames

  /** What `os.path.join(dir, name)` puts in front of a relative name: the
      directory itself when it is empty or already ends in a slash,
      otherwise the directory and one slash. */
  function DirPrefix(dir: string): (prefix: string)
    ensures |dir| <= |prefix| <= |dir| + 1 && prefix[..|dir|] == dir
    ensures prefix == [] || prefix[|prefix| - 1] == '/'
    ensures |prefix| == |dir| + 1 <==> dir != [] && dir[|dir| - 1] != '/'
  {
    if dir == [] || dir[|dir| - 1] == '/' then dir else dir + "/"
  }

  /** `os.path.join(dir, name)` for two components: an absolute `name`
      replaces `dir`; a relative one follows `dir` and at most one added
      separator, and the result always ends in `name`. */
  function Join(dir: string, name: string): (path: string)
    ensures name != [] && name[0] == '/' ==> path == name
    ensures !(name != [] && name[0] == '/') ==> path == DirPrefix(dir) + name && path[..|dir|] == dir
    ensures |name| <= |path| && path[|path| - |name|..] == name
  {
    if name != [] && name[0] == '/' then name else DirPrefix(dir) + name
  }

  /** The directory a script writes under for one environment: its fixed
      root followed by the environment name, unchecked. */
  function OutputDir(root: string, env: string): (dir: string)
    ensures |dir| == |root| + |env|
    ensures dir[..|root|] == root && dir[|root|..] == env
  {
    root + env
  }

  /** The file a path's fragment is written to: `<dir>/<safe name>.yaml`.
      The safe name holds no slash, so as a name string the file is an
      immediate entry of `dir`. */
  function FilePath(dir: string, rule: BraceRule, path: string): (file: string)
    ensures file == DirPrefix(dir) + SafeName(rule, path) + ".yaml"
    ensures '/' !in file[|DirPrefix(dir)|..]
  {
    var safe := SafeName(rule, path);
    var name := safe + ".yaml";
    assert name[0] == safe[0] && name[0] != '/';
    assert '/' !in name;
    var file := Join(dir, name);
    assert file == DirPrefix(dir) + name;
    assert file[|DirPrefix(dir)|..] == name;
    file
  }

  /** Two fragment files coincide exactly when their directories give the
      same prefix and their paths the same safe name: a file name tells
      apart both the directory it lies in and its safe name. */
  lemma FilePathsCollideIff(dir1: string, dir2: string, rule: BraceRule, path1: string, path2: string)
    ensures FilePath(dir1, rule, path1) == FilePath(dir2, rule, path2)
        <==> DirPrefix(dir1) == DirPrefix(dir2) && SafeName(rule, path1) == SafeName(rule, path2)
  {
    var prefix1, prefix2 := DirPrefix(dir1), DirPrefix(dir2);
    var name1, name2 := SafeName(rule, path1), SafeName(rule, path2);
    var file1, file2 := FilePath(dir1, rule, path1), FilePath(dir2, rule, path2);
    if file1 == file2 {
      assert |prefix1| == |prefix2|;
      assert prefix1 == file1[..|prefix1|] == prefix2;
      assert |name1| == |name2|;
      assert name1 == file1[|prefix1|..|prefix1| + |name1|];
      assert name2 == file2[|prefix2|..|prefix2| + |name2|];
    }
  }

  /** The file naming of one script for one output directory. */
  function FileNamer(dir: string, rule: BraceRule): string -> string {
    path => FilePath(dir, rule, path)
  }

  /** What the loop has written after processing `entries` in order: each
      entry's fragment under its file name, the later of two entries with the
      same file name replacing the earlier. At most one file per entry. */
  function Planned(doc: Document, fileOf: string -> string, entries: seq<(string, Node)>): (files: map<string, Document>)
    ensures |files| <= |entries|
  {
    if entries == [] then map[]
    else
      var (path, item) := entries[|entries| - 1];
      Planned(doc, fileOf, entries[..|entries| - 1])[fileOf(path) := MakeFragment(doc, path, item)]
  }

  /** The run writes exactly the files its entries are named to. */
  lemma {:induction false} PlannedFiles(doc: Document, fileOf: string -> string, entries: seq<(string, Node)>, file: string)
    ensures file in Planned(doc, fileOf, entries) <==> exists i :: 0 <= i < |entries| && fileOf(entries[i].0) == file
  {
    if entries != [] {
      var last := |entries| - 1;
      var front := entries[..last];
      PlannedFiles(doc, fileOf, front, file);
      if file in Planned(doc, fileOf, front) {
        var i :| 0 <= i < |front| && fileOf(front[i].0) == file;
        assert entries[i] == front[i];
      }
      if exists i :: 0 <= i < |entries| && fileOf(entries[i].0) == file {
        var i :| 0 <= i < |entries| && fileOf(entries[i].0) == file;
        if i < last {
          assert entries[i] == front[i];
        }
      }
    }
  }

  /** The output directory and every file in it. */
  class FileSystem {
    var dirs: set<string>
    var files: map<string, Document>

    /** The disk as it is before a run: no line of either script creates
        it; the runs take it as a parameter. */
    constructor (initialDirs: set<string>, initialFiles: map<string, Document>)
      ensures dirs == initialDirs && files == initialFiles
    {
      dirs := initialDirs;
      files := initialFiles;
    }

    /** `os.makedirs(dir, exist_ok=True)`: no error when it already exists. */
    method MakeDirs(dir: string)
      modifies this
      ensures dirs == old(dirs) + {dir}
      ensures files == old(files)
    {
      dirs := dirs + {dir};
    }

    /** `open(path, "w")` followed by `yaml.dump`: the file now holds `doc`,
        whatever it held before. */
    method WriteFile(path: string, doc: Document)
      modifies this
      ensures files == old(files)[path := doc]
      ensures dirs == old(dirs)
    {
      files := files[path := doc];
    }

    /** `open(path)` followed by `yaml.safe_load`: the document stored under
        `path`, or none when there is no such file. */
    method ReadFile(path: string) returns (doc: Option<Document>)
      ensures path in files ==> doc == Some(files[path])
      ensures path !in files ==> doc == None
    {
      if path in files {
        doc := Some(files[path]);
      } else {
        doc := None;
      }
    }
  }

  /** Writing one more file after a run is the same as the run having
      written it last. */
  lemma OverrideThenUpdate(before: map<string, Document>, written: map<string, Document>, file: string, doc: Document)
    ensures (before + written)[file := doc] == before + written[file := doc]
  {
  }

  /** One more entry processed: its fragment is written last. */
  lemma PlannedStep(before: map<string, Document>, doc: Document, fileOf: string -> string, entries: seq<(string, Node)>, i: nat)
    requires i < |entries|
    ensures before + Planned(doc, fileOf, entries[..i + 1])
      == (before + Planned(doc, fileOf, entries[..i]))[fileOf(entries[i].0) := MakeFragment(doc, entries[i].0, entries[i].1)]
  {
    var done := entries[..i + 1];
    assert done[..i] == entries[..i];
    OverrideThenUpdate(before, Planned(doc, fileOf, entries[..i]), fileOf(entries[i].0), MakeFragment(doc, entries[i].0, entries[i].1));
  }

  /** The split loop: create `dir`, then write every path's fragment in
      document order. Files outside the run's names keep their contents; a
      document without `paths` only creates the directory. The document is
      a value and is not changed. */
  method SplitPaths(fs: FileSystem, doc: Document, dir: string, rule: BraceRule)
    modifies fs
    ensures fs.dirs == old(fs.dirs) + {dir}
    ensures fs.files == old(fs.files) + Planned(doc, FileNamer(dir, rule), Entries(doc))
    ensures doc.paths.None? ==> fs.files == old(fs.files)
  {
    fs.MakeDirs(dir);
    var entries := Entries(doc);
    ghost var fileOf := FileNamer(dir, rule);
    assert entries[..0] == [];
    assert fs.files == old(fs.files) + map[];
    for i := 0 to |entries|
      invariant fs.dirs == old(fs.dirs) + {dir}
      invariant fs.files == old(fs.files) + Planned(doc, fileOf, entries[..i])
    {
      var (path, item) := entries[i];
      var outFile := FilePath(dir, rule, path);
      var fragment := MakeFragment(doc, path, item);
      PlannedStep(old(fs.files), doc, fileOf, entries, i);
      fs.WriteFile(outFile, fragment);
    }
    assert entries[..|entries|] == entries;
  }

  /** Last writer wins: an entry that no later entry shares a file name with
      is what its file holds at the end. */
  lemma {:induction false} LastWriterWins(doc: Document, fileOf: string -> string, entries: seq<(string, Node)>, i: nat)
    requires i < |entries|
    requires forall j :: i < j < |entries| ==> fileOf(entries[j].0) != fileOf(entries[i].0)
    ensures fileOf(entries[i].0) in Planned(doc, fileOf, entries)
    ensures Planned(doc, fileOf, entries)[fileOf(entries[i].0)] == MakeFragment(doc, entries[i].0, entries[i].1)
  {
    var last := |entries| - 1;
    if i < last {
      var front := entries[..last];
      LastWriterWins(doc, fileOf, front, i);
    }
  }

  /** Entry `i` is the last entry whose path is written to `file`. */
  predicate IsLastWriter(fileOf: string -> string, entries: seq<(string, Node)>, i: int, file: string) {
    && 0 <= i < |entries|
    && fileOf(entries[i].0) == file
    && forall j :: i < j < |entries| ==> fileOf(entries[j].0) != file
  }

  /** Every file the run writes holds the fragment of the last entry, in
      document order, whose path gives that file name. */
  lemma {:induction false} EveryFileIsLastFragment(doc: Document, fileOf: string -> string, entries: seq<(string, Node)>, file: string)
    requires file in Planned(doc, fileOf, entries)
    ensures exists i :: (IsLastWriter(fileOf, entries, i, file)
      && Planned(doc, fileOf, entries)[file] == MakeFragment(doc, entries[i].0, entries[i].1))
  {
    var last := |entries| - 1;
    var front := entries[..last];
    if fileOf(entries[last].0) == file {
      assert IsLastWriter(fileOf, entries, last, file);
    } else {
      EveryFileIsLastFragment(doc, fileOf, front, file);
      var i :| IsLastWriter(fileOf, front, i, file)
        && Planned(doc, fileOf, front)[file] == MakeFragment(doc, front[i].0, front[i].1);
      assert entries[i] == front[i];
      assert forall j :: i < j < |front| ==> entries[j] == front[j];
      assert IsLastWriter(fileOf, entries, i, file);
    }
  }

  /** No two entries are written to the same file. */
  predicate NoCollisions(fileOf: string -> string, entries: seq<(string, Node)>) {
    forall i, j :: 0 <= i < j < |entries| ==> fileOf(entries[i].0) != fileOf(entries[j].0)
  }

  /** Under a script's naming, two entries collide exactly when their safe
      names agree. */
  lemma NoCollisionsIffDistinctSafeNames(dir: string, rule: BraceRule, entries: seq<(string, Node)>)
    ensures NoCollisions(FileNamer(dir, rule), entries)
        <==> forall i, j :: 0 <= i < j < |entries| ==> SafeName(rule, entries[i].0) != SafeName(rule, entries[j].0)
  {
    forall i, j | 0 <= i < j < |entries| {
      FilePathsCollideIff(dir, dir, rule, entries[i].0, entries[j].0);
    }
  }

  /** The run writes one file per entry exactly when no two entries collide;
      otherwise it writes fewer. */
  lemma {:induction false} OneFilePerEntryIffNoCollisions(doc: Document, fileOf: string -> string, entries: seq<(string, Node)>)
    ensures |Planned(doc, fileOf, entries)| == |entries| <==> NoCollisions(fileOf, entries)
  {
    if entries != [] {
      var last := |entries| - 1;
      var front := entries[..last];
      var file := fileOf(entries[last].0);
      var before := Planned(doc, fileOf, front);
      OneFilePerEntryIffNoCollisions(doc, fileOf, front);
      assert forall i :: 0 <= i < |front| ==> front[i] == entries[i];
      PlannedFiles(doc, fileOf, front, file);
      if NoCollisions(fileOf, entries) {
        assert NoCollisions(fileOf, front);
        assert file !in before;
      }
      if |Planned(doc, fileOf, entries)| == |entries| {
        assert file !in before;
        assert |before| == |front|;
        forall i, j | 0 <= i < j < |entries|
          ensures fileOf(entries[i].0) != fileOf(entries[j].0)
        {
          if j == last {
            PlannedFiles(doc, fileOf, front, fileOf(front[i].0));
          } else {
            assert fileOf(front[i].0) != fileOf(front[j].0);
          }
        }
      }
    }
  }

  /** Two paths that collide: only the second one's fragment survives, in
      the single file both are written to (`/a/b` then `/a_b`: one `a_b.yaml`
      holding `/a_b`). */
  lemma TwoCollidingPaths(doc: Document, fileOf: string -> string, first: (string, Node), second: (string, Node))
    requires fileOf(first.0) == fileOf(second.0)
    ensures Planned(doc, fileOf, [first, second]) == map[fileOf(second.0) := MakeFragment(doc, second.0, second.1)]
  {
    var entries := [first, second];
    assert entries[..1] == [first];
    assert [first][..0] == [];
  }

  /** Splitting a fragment again writes exactly that fragment, under the same
      file name: the output of a run is a fixed point of the split. */
  lemma SplitOfFragment(doc: Document, fileOf: string -> string, path: string, item: Node)
    ensures var fragment := MakeFragment(doc, path, item);
      Planned(fragment, fileOf, Entries(fragment)) == map[fileOf(path) := fragment]
  {
    var fragment := MakeFragment(doc, path, item);
    FragmentIsFixedPoint(doc, path, item);
    assert Entries(fragment)[..0] == [];
  }

  /** Running the split a second time over its own output directory leaves
      every file as the first run wrote it. */
  lemma RerunChangesNothing(before: map<string, Document>, doc: Document, fileOf: string -> string)
    ensures var once := before + Planned(doc, fileOf, Entries(doc));
      once + Planned(doc, fileOf, Entries(doc)) == once
  {
  }
}
