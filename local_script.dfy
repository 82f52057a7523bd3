/** The body of Scripts/local.py: generate `swagger.yaml` with the .NET
    Swagger tool, load it, split it into `MyApiProject/output/<env>` with
    the rule that deletes braces, and report how many paths there were.
    The generator is not modelled; its outcome is a parameter. */
module LocalScript {
  import opened Wrappers
  import opened Documents
  import opened PathNames
  import opened Splitter

  /** The environment used when no argument is given. */
  const DefaultEnvironment: string := "dev"

  /** The file the generator writes and the script loads. */
  const SwaggerFile: string := "swagger.yaml"

  /** The compiled service the document is generated from, and its API
      version. */
  const DllPath: string := "bin/Debug/net8.0/MyApi.dll"
  const ApiVersion: string := "v1"

  /** The generator's command line. */
  const GeneratorCommand: seq<string> :=
    ["dotnet", "swagger", "tofile", "--output", SwaggerFile, DllPath, ApiVersion]

  /** The directory every run writes under. */
  const OutputRoot: string := "MyApiProject/output/"

  /** A process exit status that `check=True` turns into an error. */
  type FailureCode = code: int | code != 0 witness 1

  /** What the generator did: it exited with status 0 after writing
      `swagger.yaml` holding `spec`, or it exited with a non-zero
      `returnCode`. */
  datatype Generation =
    | Generated(spec: Document)
    | GenerationFailed(returnCode: FailureCode)

  /** How a run ends. */
  datatype Outcome =
    | Exited(status: int)                    // `sys.exit(1)` after a failed generation
    | KeyErrorRaised(key: string)            // `openapi['paths']` on a document without paths
    | Done(count: nat, outputDir: string)    // the final message's count and directory

  /** `sys.argv[1] if len(sys.argv) > 1 else "dev"`. */
  function Environment(argv: seq<string>): (env: string)
    ensures |argv| > 1 ==> env == argv[1]
    ensures |argv| <= 1 ==> env == DefaultEnvironment
  {
    if |argv| > 1 then argv[1] else DefaultEnvironment
  }

  /** The files one run writes into its output directory. */
  function Written(spec: Document, env: string): map<string, Document> {
    Planned(spec, FileNamer(OutputDir(OutputRoot, env), StripBraces), Entries(spec))
  }

  /** The run. A failed generation exits with status 1 before anything is
      loaded or split. Otherwise `swagger.yaml` holds the generated
      document, which is loaded back and split; the final count is the
      number of path entries, and a document without `paths` raises a
      KeyError only there, after the (empty) split has created the
      directory. */
  method Run(fs: FileSystem, argv: seq<string>, generation: Generation) returns (outcome: Outcome)
    modifies fs
    ensures generation.GenerationFailed? <==> outcome == Exited(1)
    ensures generation.GenerationFailed? ==> fs.dirs == old(fs.dirs) && fs.files == old(fs.files)
    ensures generation.Generated? ==>
      var spec := generation.spec;
      var dir := OutputDir(OutputRoot, Environment(argv));
      && fs.dirs == old(fs.dirs) + {dir}
      && fs.files == old(fs.files)[SwaggerFile := spec] + Written(spec, Environment(argv))
      && (spec.paths.None? ==> outcome == KeyErrorRaised("paths"))
      && (spec.paths.Some? ==> outcome == Done(|spec.paths.value|, dir))
  {
    var env := Environment(argv);
    match generation
    case GenerationFailed(_) =>
      return Exited(1);
    case Generated(generated) =>
      fs.WriteFile(SwaggerFile, generated);
      var loaded := fs.ReadFile(SwaggerFile);
      var openapi := loaded.value;
      var outputDir := OutputDir(OutputRoot, env);
      SplitPaths(fs, openapi, outputDir, StripBraces);
      if openapi.paths.None? {
        outcome := KeyErrorRaised("paths");
      } else {
        outcome := Done(|openapi.paths.value|, outputDir);
      }
  }

  /** No fragment's file name is `swagger.yaml`: every one starts with
      `MyApiProject/output/`, so the split never replaces the map entry of
      the generated document. Names are compared as strings; `..` in the
      environment is not resolved. */
  lemma SwaggerFileSurvives(spec: Document, env: string)
    ensures SwaggerFile !in Written(spec, env)
  {
    var entries := Entries(spec);
    var fileOf := FileNamer(OutputDir(OutputRoot, env), StripBraces);
    PlannedFiles(spec, fileOf, entries, SwaggerFile);
  }

  /** The reported count is the number of path entries, not of files: it is
      never below the number of files written, and equals it exactly when
      no two paths share a safe name (for example `/users/{id}` and
      `/users/id` share `users_id`). */
  lemma CountBoundsFiles(spec: Document, env: string)
    requires spec.paths.Some?
    ensures |Written(spec, env)| <= |spec.paths.value|
    ensures |Written(spec, env)| == |spec.paths.value|
        <==> forall i, j :: 0 <= i < j < |spec.paths.value|
               ==> SafeName(StripBraces, spec.paths.value[i].0) != SafeName(StripBraces, spec.paths.value[j].0)
  {
    var dir := OutputDir(OutputRoot, env);
    OneFilePerEntryIffNoCollisions(spec, FileNamer(dir, StripBraces), Entries(spec));
    NoCollisionsIffDistinctSafeNames(dir, StripBraces, Entries(spec));
  }
}
