# OpenAPI path splitter

The repository is a small ASP.NET service. It ships two Python scripts that
take the service's OpenAPI (Swagger) document and split it into one YAML
file per API path:

- `Scripts/split_openapi.py` downloads the document from the running
  service and writes `./output/<env>/<name>.yaml`.
- `Scripts/local.py` generates `swagger.yaml` with the `dotnet swagger
  tofile` tool, loads it back, writes `MyApiProject/output/<env>/<name>.yaml`
  and reports how many paths it saw.

Every fragment file holds:

- the source document's `openapi` version, or `3.0.0` when there is none;
- its `info` block, or `{}` when there is none (a key given with a null
  value is present, so a null `openapi` or `info` is copied as null);
- a `paths` mapping with the single original path and its path item.

The file name comes from the path:

1. strip the slashes at both ends;
2. turn every inner slash into `_`;
3. `local.py` only: delete every `{` and `}`;
4. if nothing is left, use `root`.

The scripts write in document order. When two paths get the same name, the
later file replaces the earlier one.

The Dafny model has these modules:

- `PathNames` (`path_names.dfy`): the two naming rules, as pure functions
  over strings, with their properties.
- `PathNameExamples` (`path_name_examples.dfy`): the names of common path
  shapes, proved for every segment rather than for one string.
- `Documents` (`documents.dfy`): parsed documents as values, and fragment
  construction.
- `Splitter` (`splitter.dfy`):
  - a `FileSystem` class whose directory set and file map are updated in place;
  - the split loop `SplitPaths`, proved against the specification function
    `Planned`;
  - the lemmas about what a run leaves behind.
- `SplitOpenapiScript` (`split_openapi_script.dfy`) and `LocalScript`
  (`local_script.dfy`): the two scripts' top-level steps. Outside
  effects (the download, the generator) are parameters.
- `Wrappers` (`wrappers.dfy`): `Option` and `Result`.

Notes on the scripts' behaviour:

- Neither script checks the environment name. An empty name or one holding
  slashes is used as given.
- `split_openapi.py` keeps braces in file names (`/users/{id}` gives
  `users_{id}.yaml`). Only `local.py` deletes them.
- Under `split_openapi.py`'s rule, `root` is chosen exactly when the path is
  empty or made only of slashes. A non-empty path can still be *named*
  `root`: `/root` is.

## Model

| member | source | states |
|---|---|---|
| PathNames.Strip | Scripts/split_openapi.py:15 | `path.strip("/")`: the result is empty exactly when the path is only slashes; otherwise it neither starts nor ends with `/`; a path without slashes is unchanged |
| PathNames.StripRemovesOnlyEndSlashes | Scripts/split_openapi.py:15 | the path is a run of slashes, then the stripped result, then another run of slashes: nothing but end slashes is removed |
| PathNames.ReplaceAll | Scripts/split_openapi.py:15 | `replace("/", "_")`: same length; each position holds the replacement where the input had the target and the input character elsewhere |
| PathNames.DeleteAll | Scripts/local.py:38 | `replace("{", "")` / `replace("}", "")`: the deleted character no longer occurs; every other character occurs exactly when it did before; a string without it is unchanged |
| PathNames.DeleteAllKeepsCount | Scripts/local.py:38 | deleting one character keeps every other character with its number of occurrences |
| PathNames.Normalised | Scripts/local.py:38 | the name before the fallback never holds `/`; under local.py's rule it holds no brace either |
| PathNames.SafeName | Scripts/split_openapi.py:15 | the file base name `... or "root"` is never empty and never holds `/`; under local.py's rule (Scripts/local.py:38-40) it also holds no `{` or `}` |
| PathNames.KeepBracesFallbackExactlyForSlashes | Scripts/split_openapi.py:15 | split_openapi.py falls back to `root` if and only if the path is empty or all slashes |
| PathNames.StripBracesFallbackExactlyForBraces | Scripts/local.py:38-40 | local.py falls back to `root` if and only if the path, with its end slashes stripped, is made only of braces (`/{}` included) |
| PathNames.KeepBracesPreservesBraces | Scripts/split_openapi.py:15 | split_openapi.py's name has exactly as many `{` and as many `}` as the path |
| PathNames.NormalisedFixesCleanNames | Scripts/local.py:38 | a name without slashes (and, for local.py, without braces) normalises to itself |
| PathNames.SafeNameIdempotent | Scripts/local.py:38-40 | naming a safe name again gives it back, `root` included, under both rules |
| PathNames.StripBracesAfterKeepBraces | Scripts/local.py:38-40 | local.py's name is split_openapi.py's name with local.py's rule applied on top: brace deletion is the only difference |
| PathNames.RulesAgreeWithoutBraces | Scripts/split_openapi.py:15 | on a path without braces both scripts give the same name |
| PathNames.RootExample | Scripts/local.py:39-40 | `/` and the empty path are named `root` by both rules |
| PathNames.BraceOnlyExample | Scripts/local.py:38-40 | `/{}` is named `root` by local.py and `{}` by split_openapi.py |
| PathNames.StripOneLeadingSlash | Scripts/split_openapi.py:15 | stripping `/name`, where `name` has no slash at either end, gives `name` |
| PathNameExamples.ParameterisedPath | Scripts/local.py:38 | for every pair of plain segments, `/resource/{param}` is named `resource_param` by local.py and `resource_{param}` by split_openapi.py |
| PathNameExamples.SlashAndUnderscoreCollide | Scripts/split_openapi.py:15 | for every pair of plain segments, `/a/b` and `/a_b` get the same name `a_b` under both rules |
| PathNameExamples.DoubleSlashKeepsEmptySegment | Scripts/split_openapi.py:15 | an empty inner segment is kept: `/a//b` is named `a__b` under both rules |
| PathNameExamples.LeadingSlashIrrelevant | Scripts/split_openapi.py:15 | one leading slash before a name without end slashes does not change its normalised name |
| PathNameExamples.JoinWithUnderscore | Scripts/split_openapi.py:15 | two slash-free parts joined by `/` become the parts joined by `_` |
| PathNameExamples.JoinWithTwoUnderscores | Scripts/split_openapi.py:15 | two slash-free parts joined by `//` become the parts joined by `__` |
| PathNameExamples.NameOfRootedPath | Scripts/split_openapi.py:15 | a rooted path `/name` gets the non-empty normalised name of `name` |
| PathNameExamples.DeleteParameterBraces | Scripts/local.py:38 | deleting both braces of `prefix{param}` gives `prefixparam` |
| PathNameExamples.CleanNameIsItsOwnName | Scripts/local.py:38-40 | a plain segment is its own safe name under both rules |
| Wrappers.Option.GetOr | Scripts/split_openapi.py:18-19 | `dict.get(key, default)`: the stored value when the key is present (null included), the default only when it is absent |
| Documents.Entries | Scripts/split_openapi.py:14 | `get("paths", {}).items()`: no entries when `paths` is absent, otherwise the entries in document order |
| Documents.MakeFragment | Scripts/split_openapi.py:17-21 | the fragment's `openapi` is the source's or `3.0.0`; its `info` is the source's or `{}`; its `paths` is exactly the one original (path, item) pair |
| Documents.FragmentIsFixedPoint | Scripts/local.py:43-47 | a fragment has all three keys and distinct path keys; building the fragment of its own path from it gives it back |
| Documents.FragmentsShareHeader | Scripts/local.py:43-47 | all fragments of one document share `openapi` and `info`; two fragments are equal if and only if their (path, item) pairs are |
| Splitter.DirPrefix | Scripts/split_openapi.py:16 | what `os.path.join` puts before a relative name: the directory itself, plus one `/` exactly when the directory is non-empty and does not already end in `/`; empty or ending in `/` |
| Splitter.Join | Scripts/split_openapi.py:16 | `os.path.join(dir, name)`: an absolute name replaces the directory; a relative name follows the directory's prefix; the result always ends in the name |
| Splitter.OutputDir | Scripts/split_openapi.py:28 | a script's output directory (`./output/<env>` here, `MyApiProject/output/<env>` at Scripts/local.py:33): the fixed root followed by the unchecked environment name |
| Splitter.FilePath | Scripts/split_openapi.py:16 | `os.path.join(output_dir, f"{safe}.yaml")`: the directory's prefix, then the safe name and `.yaml`, with no slash after the prefix, so the file lies directly in the directory |
| Splitter.FilePathsCollideIff | Scripts/local.py:42 | two fragment files coincide if and only if their directories give the same prefix and their paths the same safe name |
| Splitter.Planned | Scripts/split_openapi.py:14-23 | the files a run writes number at most the entries |
| Splitter.PlannedFiles | Scripts/split_openapi.py:14-16 | a file is written if and only if some entry's path is named to it |
| Splitter.PlannedStep | Scripts/split_openapi.py:22-23 | processing one more entry means writing its fragment last over everything written so far |
| Splitter.OverrideThenUpdate | Scripts/split_openapi.py:22-23 | writing a file after a run equals the run having written it last |
| Splitter.FileSystem.MakeDirs | Scripts/split_openapi.py:13 | `os.makedirs(exist_ok=True)`: the directory exists afterwards, whether or not it did before; no file changes |
| Splitter.FileSystem.WriteFile | Scripts/split_openapi.py:22-23 | the file holds the new document, whatever it held before; nothing else changes |
| Splitter.FileSystem.ReadFile | Scripts/local.py:29-30 | returns the document stored under the name, or none when there is no such file |
| Splitter.SplitPaths | Scripts/split_openapi.py:12-23 | the directory is created; the files become the old files overridden by `Planned`; without `paths`, no file changes |
| Splitter.LastWriterWins | Scripts/split_openapi.py:22-23 | an entry that no later entry shares a file with is what its file holds at the end |
| Splitter.EveryFileIsLastFragment | Scripts/local.py:49-50 | every written file holds the fragment of the last entry, in document order, named to it |
| Splitter.NoCollisionsIffDistinctSafeNames | Scripts/local.py:38-42 | within one directory, entries collide if and only if their safe names agree |
| Splitter.OneFilePerEntryIffNoCollisions | Scripts/split_openapi.py:14-23 | a run writes exactly one file per entry if and only if no two entries share a file name |
| Splitter.TwoCollidingPaths | Scripts/split_openapi.py:22-23 | of two colliding paths only the second one's fragment survives, in the single shared file |
| Splitter.SplitOfFragment | Scripts/split_openapi.py:17-23 | splitting a fragment again writes exactly that fragment under the same name |
| Splitter.RerunChangesNothing | Scripts/split_openapi.py:12-23 | a second identical run leaves every file as the first run wrote it |
| SplitOpenapiScript.Environment | Scripts/split_openapi.py:26 | `sys.argv[1]` exists exactly when there are at least two arguments, and is then the second one |
| SplitOpenapiScript.Run | Scripts/split_openapi.py:25-33 | a missing argument fails before the download and a failed download before any write, both leaving the file system unchanged; otherwise the result is `Saved(./output/<env>)` and the split was done with the brace-keeping rule |
| SplitOpenapiScript.FilesStayInEnvironment | Scripts/split_openapi.py:28 | every fragment's file name starts with `./output/` and has no slash after its directory's prefix; two environments give the same file name only when their directories give the same prefix and the paths the same safe name (facts about name strings: see "Left out" on `.` and `..`) |
| LocalScript.Environment | Scripts/local.py:7 | the first argument when one is given, otherwise `dev` |
| LocalScript.Run | Scripts/local.py:7-52 | a failed generation (non-zero return code) exits with status 1 and leaves the file system unchanged. Otherwise: the file map holds the generated document under the name `swagger.yaml`, overridden by the fragments' names; the output directory exists; the fragments were written with the brace-deleting rule; the result is `Done(number of path entries, dir)`, or a KeyError on `paths` when the key is absent |
| LocalScript.SwaggerFileSurvives | Scripts/local.py:33-50 | no fragment's file name is the string `swagger.yaml` (every one starts with `MyApiProject/output/`), so the split never replaces the map entry of the loaded document |
| LocalScript.CountBoundsFiles | Scripts/local.py:52 | the reported count is at least the number of files written, and equal to it if and only if no two paths share a safe name |

## Left out

- The HTTP download of `split_openapi.py` (`requests.get`, `raise_for_status`, `response.json()`, Scripts/split_openapi.py:7-10) is network I/O. Its outcome is the `download` parameter of `SplitOpenapiScript.Run`.
- The `dotnet swagger tofile` subprocess (Scripts/local.py:16-25) is an external tool. Its command line is the constant `LocalScript.GeneratorCommand`, and its outcome is the `generation` parameter. A tool that cannot be started raises an uncaught error in Python; that case is not modelled.
- YAML and JSON parsing and dumping are library calls. Documents are already-parsed values. Path items and `info` are opaque `Node` values that are carried through unchanged.
- File names are literal, case-sensitive strings, and `os.path.join` is modelled as `posixpath.join` (separator `/`). `.`, `..` and repeated slashes are not resolved, and symbolic links are not followed. Three consequences:
  - An environment such as `../..` makes `local.py` write `MyApiProject/output/../../swagger.yaml`, which on disk is `swagger.yaml`; the model treats that name as a different file.
  - On a case-insensitive file system (NTFS, or APFS by default), `/Users` and `/users` are written to one file, and environments `Dev` and `dev` share one directory. The model keeps them apart.
  - On Windows, `ntpath.join` inserts `\` and treats a `\` left in a safe name as a separator. The model treats `\` as an ordinary character.

  These members state facts about file-name strings: `Splitter.FilePath`, `Splitter.FilePathsCollideIff`, `Splitter.NoCollisionsIffDistinctSafeNames`, `Splitter.OneFilePerEntryIffNoCollisions`, `LocalScript.CountBoundsFiles`, `LocalScript.SwaggerFileSurvives`, `LocalScript.Run` and `SplitOpenapiScript.FilesStayInEnvironment`. Their facts carry over to the disk only on a case-sensitive POSIX file system, for environments without `.` or `..` segments and without symbolic links on the way.
- A `paths` key that is present with a null value, or with a value that is not a mapping, makes `.items()` raise AttributeError (Scripts/split_openapi.py:14, Scripts/local.py:37), after the output directory is created. In local.py this happens before the KeyError at line 52. `Documents.Document` holds `paths` only as absent or as a sequence of entries, so this error is not modelled. A null `openapi` or `info` is modelled (`Documents.Node.Null`) and is copied into the fragments.
- A document that is not a mapping makes Python's `.get` raise AttributeError; that case is not modelled. This covers two cases:
  - a loaded `swagger.yaml` that is not a mapping (an empty one loads as `None`, Scripts/local.py:30, failing at line 37);
  - downloaded JSON that is not an object (`response.json()` at Scripts/split_openapi.py:10). There the error comes at line 14, after line 13 has created the directory. The `download` parameter of `SplitOpenapiScript.Run` can only hold a parsed mapping or a failure before any write.
- `Documents.Document` can hold duplicate path keys, though a parsed mapping cannot. `len(openapi['paths'])` equals the number of entries only for distinct keys (`Documents.DistinctKeys`).
- `os.makedirs` also creates missing parent directories. The model records only the output directory itself, and file writes do not check that their directory exists.
- Console output (`print`) is left out. The exception is the final count and directory of `local.py`, which are the `Done` outcome.
- File handles, permissions and I/O errors are not modelled.
- `Program.cs` and `controllers/WeatherForecastController.cs` (service hosting and a constant controller) are not part of this model.
- The input document is a value, so it cannot be changed by the split. The model therefore does not restate that `split_paths` leaves its argument alone.
