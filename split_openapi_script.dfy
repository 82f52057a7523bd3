/** The command-line entry of Scripts/split_openapi.py: read the environment
    name from the first argument, download the running service's OpenAPI
    document and split it into `./output/<env>` with the rule that keeps
    braces. The download is not modelled; its outcome is a parameter. */
module SplitOpenapiScript {
  import opened Wrappers
  import opened Documents
  import opened PathNames
  import opened Splitter

  /** Where the OpenAPI document is downloaded from. */
  const SwaggerUrl: string := "http://localhost:5000/swagger/v1/swagger.json"

  /** The directory every run writes under. */
  const OutputRoot: string := "./output/"

  /** How a run ends. */
  datatype Outcome =
    | MissingEnvironment            // `sys.argv[1]` raises IndexError
    | DownloadFailed(reason: string) // the request, its status or its JSON failed
    | Saved(outputDir: string)       // the fragments are in `outputDir`

  /** `sys.argv[1]`: the first argument after the script name, which must
      be given. */
  function Environment(argv: seq<string>): (env: Option<string>)
    ensures env.Some? <==> |argv| >= 2
    ensures env.Some? ==> env.value == argv[1]
  {
    if |argv| < 2 then None else Some(argv[1])
  }

  /** The run: a missing argument fails before anything is downloaded; a
      failed download fails before anything is written; otherwise the
      document is split with split_openapi.py's naming into the
      environment's directory. */
  method Run(fs: FileSystem, argv: seq<string>, download: Result<Document, string>) returns (outcome: Outcome)
    modifies fs
    ensures |argv| < 2 ==> outcome == MissingEnvironment
    ensures |argv| >= 2 && download.Failure? ==> outcome == DownloadFailed(download.error)
    ensures outcome.Saved? <==> |argv| >= 2 && download.Success?
    ensures !outcome.Saved? ==> fs.dirs == old(fs.dirs) && fs.files == old(fs.files)
    ensures outcome.Saved? ==>
      && outcome.outputDir == OutputDir(OutputRoot, argv[1])
      && fs.dirs == old(fs.dirs) + {outcome.outputDir}
      && fs.files == old(fs.files) + Planned(download.value, FileNamer(outcome.outputDir, KeepBraces), Entries(download.value))
  {
    var env := Environment(argv);
    if env.None? {
      return MissingEnvironment;
    }
    var outputDir := OutputDir(OutputRoot, env.value);
    match download
    case Failure(reason) =>
      outcome := DownloadFailed(reason);
    case Success(openapi) =>
      SplitPaths(fs, openapi, outputDir, KeepBraces);
      outcome := Saved(outputDir);
  }

  /** Every file name a run writes starts with `./output/` and has no slash
      after its environment directory's prefix, and two environments give
      the same file name only when their directories agree up to one
      trailing slash. Names are compared as strings; `..` in the
      environment is not resolved. */
  lemma FilesStayInEnvironment(env1: string, env2: string, path1: string, path2: string)
    ensures var file := FilePath(OutputDir(OutputRoot, env1), KeepBraces, path1);
      && file[..|OutputRoot|] == OutputRoot
      && '/' !in file[|DirPrefix(OutputDir(OutputRoot, env1))|..]
    ensures FilePath(OutputDir(OutputRoot, env1), KeepBraces, path1) == FilePath(OutputDir(OutputRoot, env2), KeepBraces, path2)
        <==> DirPrefix(OutputDir(OutputRoot, env1)) == DirPrefix(OutputDir(OutputRoot, env2)) && SafeName(KeepBraces, path1) == SafeName(KeepBraces, path2)
  {
    var dir := OutputDir(OutputRoot, env1);
    assert DirPrefix(dir)[..|OutputRoot|] == OutputRoot;
    FilePathsCollideIff(OutputDir(OutputRoot, env1), OutputDir(OutputRoot, env2), KeepBraces, path1, path2);
  }
}
