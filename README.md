# eZunder file extractor, modelled in Dafny

`FileExtractor` (subscription/extractor.py) unpacks a JSON archive of a
project into a directory tree. It loads the archive and validates its shape:
a `project`, and a list `files` whose entries each carry `name`, `content`
and `suffix`. It then creates the output directory and writes every entry to
`<output>/<path>/<name>.<suffix>`, or to `<output>/<name>.<suffix>` when the
entry has no `path`. Next it writes `package.json` and `.env.example`. It
collects the paths it wrote in `extracted_files` and every failure in
`errors`. `extract_all` returns True only when no error was recorded.

The model has two layers.

* **Values and specification functions.**
  * `Json`: the parsed archive, and the Python operations the code applies to it (`in`, `all(...)`, truthiness, `dict.get`, `str()`, `type().__name__`).
  * `Storage`: the filesystem as a value `Disk`. It holds files, directories and faults, where a fault is a path the environment refuses with a given errno. It also has the steps `open(p, 'w')`, write and `Path.mkdir(parents=True, exist_ok=True)`.
  * `Messages`: every text the extractor appends, with the CPython 3.12 wording of the exceptions whose `str()` ends up in them (the few exceptions not modelled are listed under "## Left out").
  * `Paths`: target-path composition.
  * `PackageJson`: the variable fields of the package record.
  * `Archive`: validation, one extraction, the loop, and the whole run as functions of the state before them, together with the lemmas about them.
* **The object.** `Extractor.FileExtractor` is a class whose `extractedFiles` and `errors` are sequences that its methods append to. Its methods write through a `Storage.FileSystem` object. Each method is proved to leave exactly the state that the matching `Archive` function computes, so the lemmas of `Archive` describe the object. The loops of `validate_json_structure` and `extract_all` are `while` loops with invariants.

`extract_all` as written cannot return True, because its last steps always fail (see Findings). The model keeps that run as
`ExtractionAsWritten` / `ExtractAllAsWritten`. It also has the evidently intended
run without the README tail, `Extraction` / `ExtractAll`.

## Model

| member | source | states |
|---|---|---|
| Strings.NatStr | subscription/extractor.py:36 | the index in a validation message is a non-empty decimal numeral without leading zeros |
| Strings.ParseNatStr | subscription/extractor.py:36 | the numeral of an index reads back to that index, so no two indices share a numeral |
| Strings.Lower | subscription/extractor.py:83 | `str.lower()` keeps the length and maps every character to its lower-case form |
| Strings.LowerHasNoUpper | subscription/extractor.py:83 | a lower-cased name has no upper-case letter |
| Strings.LowerKeeps | subscription/extractor.py:83 | a text with no upper-case letter, such as the default name, is unchanged by `lower()` |
| Strings.LowerIdempotent | subscription/extractor.py:83 | lower-casing twice equals lower-casing once |
| Strings.LastIndex | subscription/extractor.py:62 | the position of the last occurrence of a character, or -1; nothing after it matches (the split `Path.parent` makes) |
| Strings.LastIndexAtJoint | subscription/extractor.py:60 | putting a separator and a separator-free segment after a prefix puts the last separator at the joint |
| Json.Contains | subscription/extractor.py:25 | `key in value` raises TypeError exactly for None, bools and numbers |
| Json.ContainsAll | subscription/extractor.py:35 | `all(key in v ...)` raises exactly when the first test raises, and is True exactly when every key is contained |
| Json.ContainsAllOfObject | subscription/extractor.py:35 | on a dict, the key test never raises and holds exactly when every key is present |
| Messages.FileMissingKeysNamesIndex | subscription/extractor.py:36 | the message for an incomplete entry carries that entry's index between its fixed head and tail |
| Messages.FileMissingKeysInjective | subscription/extractor.py:36 | different entries get different messages |
| Messages.ValidationMessagesDistinct | subscription/extractor.py:24-37 | the three validation messages never coincide |
| Paths.Parent | subscription/extractor.py:62 | the parent of a non-empty path is shorter than the path |
| Paths.JoinSplits | subscription/extractor.py:60-64 | joining a segment without '/' is undone by parent and name |
| Paths.TargetPathParts | subscription/extractor.py:59-64 | for a name and suffix without '/', the target lies in `<out>/<path>`, or in `<out>` when there is no path, and is named `<name>.<suffix>`; with an empty output directory and no path it is just `<name>.<suffix>` |
| Paths.FileNameParts | subscription/extractor.py:60-64 | with a suffix that holds no '.', the last '.' of the file name separates exactly the name and the suffix |
| PackageJson.PackageNameIsLowercasedProject | subscription/extractor.py:83 | a string project becomes the record's name in lower case |
| PackageJson.PackageDefaults | subscription/extractor.py:83-85 | missing `project`, `version`, `description` default to "ezunder", "1.0.0", "eZunder ePublishing Platform"; a present `version` and `description` are taken as given (a present `project` is lower-cased, see PackageNameIsLowercasedProject) |
| PackageJson.PackageRejectsNonString | subscription/extractor.py:83 | a project that is not a string makes `.lower()` raise AttributeError |
| Storage.OpenFault | subscription/extractor.py:67 | `open(p, 'w')` succeeds exactly when every directory above p resolves, p is not a directory and the environment does not refuse p; a failure always names p, with EISDIR when p is a directory and the environment's errno when it refuses p |
| Storage.OpenFaultBlocked | subscription/extractor.py:67 | when the directory of p does not resolve, `open` fails naming p with ENOTDIR or ENOENT; ENOTDIR only when a regular file is on the way, ENOENT only when a component is neither a directory nor a file |
| Storage.ResolveDirMeaning | subscription/extractor.py:62-67 | a directory resolves exactly when it and every directory above it exist; the errno of a failed resolution is backed by a regular file (ENOTDIR) or a missing component (ENOENT) above it |
| Storage.WriteStepIsOpenThenWrite | subscription/extractor.py:67-68 | writing a file is `open(p, 'w')` followed, only when the open succeeds, by `write` of the content |
| Storage.WriteStepMeaning | subscription/extractor.py:67-68 | a write succeeds exactly when p is a name, every directory above it exists, p is not a directory and the environment does not refuse it; then p holds the content and every other path keeps its presence and content, directories and faults unchanged; a failed write leaves the disk as it was |
| Storage.MakeDirStep | subscription/extractor.py:62 | for a non-empty p (MakeDirsStep never passes ""), one `os.mkdir(p)` succeeds exactly when the parent resolves and p neither exists nor is refused; it adds exactly p on success and nothing on failure, and never touches files or faults |
| Storage.MakeDirsStep | subscription/extractor.py:44 | `mkdir(parents=True, exist_ok=True)` (which retries after creating the parent on any ENOENT error) is a no-op on an existing directory, adds only p and directories above it, leaves files and faults alone, on success p is a directory, and a failure names p or a directory above it |
| Storage.MakeDirsSucceeds | subscription/extractor.py:44 | `mkdir(parents=True, exist_ok=True)` succeeds whenever neither p nor any directory above it is a regular file or refused by the environment |
| Storage.MakeDirsRefused | subscription/extractor.py:44 | a directory the environment refuses, below a parent that resolves, fails with the environment's error naming it and creates nothing, also when the errno is ENOENT and the mkdir is retried |
| Storage.ReachableGrows | subscription/extractor.py:62 | creating directories never makes an existing directory unreachable |
| Storage.MakeDirsReaches | subscription/extractor.py:62 | after a successful `mkdir(parents=True)` the directory and all above it resolve, so a file can be opened inside it |
| Storage.FileAboveBlocksMakeDirs | subscription/extractor.py:62 | with a regular file above the missing parent, `mkdir` fails at once with ENOTDIR naming the requested directory and creates nothing |
| Storage.FileSystem.Open | subscription/extractor.py:67 | the object's new state and error are those of the `open` step |
| Storage.FileSystem.Write | subscription/extractor.py:68 | the written file holds the content and nothing else changes |
| Storage.FileSystem.MakeDirs | subscription/extractor.py:44 | the object's new state and error are those of the `mkdir` step |
| Archive.CheckEntryOfObject | subscription/extractor.py:34-35 | a dict entry is complete exactly when it has `name`, `content` and `suffix` |
| Archive.ScanValid | subscription/extractor.py:33-39 | the entry loop passes exactly when every remaining entry is complete |
| Archive.ScanFirstIncomplete | subscription/extractor.py:33-37 | the loop fails naming k exactly when entry k is incomplete and every earlier one complete |
| Archive.ScanMessages | subscription/extractor.py:33-37 | the loop never yields the messages of the two earlier checks |
| Archive.ArchiveKeysOfObject | subscription/extractor.py:24-25 | on a dict archive, the key test is `project` and `files` both present |
| Archive.ValidationValid | subscription/extractor.py:22-39 | validation returns True exactly for a dict with `project` and a list `files` of complete entries |
| Archive.ValidationMissingKeys | subscription/extractor.py:24-27 | the missing-keys error comes exactly when `project` or `files` is absent |
| Archive.ValidationFilesNotList | subscription/extractor.py:29-31 | "'files' must be a list" comes exactly when both keys exist and `files` is not a list |
| Archive.ValidationFirstIncomplete | subscription/extractor.py:33-37 | the error names index k exactly when k is the first incomplete entry |
| Archive.ValidationStopsAtFirstIncomplete | subscription/extractor.py:33-37 | entries after the first incomplete one are not looked at: replacing them leaves the verdict the same |
| Archive.ValidationOfObjectEntries | subscription/extractor.py:33-37 | an archive whose entries are all dicts never makes validation raise |
| Archive.NoRaiseOnObjects | subscription/extractor.py:33-37 | the entry loop over dicts never raises |
| Archive.FileStepEffects | subscription/extractor.py:50-78 | an extracted entry wrote its content to its planned path and nothing else; a failed one wrote nothing or left that file empty; only a non-dict entry raises, changing nothing; directories are created only for an entry with a `path`, and only the planned target's directory and those above it |
| Archive.PlaceEntryEffects | subscription/extractor.py:56-78 | the same, for an entry that has the three keys, which never raises; without a `path` no directory is created, with one only the target's directory and those above it |
| Archive.WriteEntryEffects | subscription/extractor.py:66-78 | open and write: success stores text content at the target; failure leaves the file as it was or empty |
| Archive.FileStepSucceeds | subscription/extractor.py:59-72 | an entry with text content whose target can be opened at once is extracted to exactly that target, and nothing else changes |
| Archive.FileStepCreatesDirectory | subscription/extractor.py:59-72 | an entry with text content and a `path` whose directory is missing but creatable is extracted to its target; the directories created lie on the way to it |
| Archive.WriteEntrySucceeds | subscription/extractor.py:66-72 | opening a target that can be opened and writing text stores exactly that text there |
| Archive.WriteEntryNonText | subscription/extractor.py:66-76 | content that is not text leaves the opened file empty and appends "Failed to extract file <name>: write() argument must be str, not X", X being "None" for null and the type name otherwise |
| Archive.EntriesBookkeeping | subscription/extractor.py:194-198 | the lists only grow, success_count equals the number of paths appended, successes plus new errors are at most the number of entries (equal when nothing escapes), and faults stay |
| Archive.EntriesInArchiveOrder | subscription/extractor.py:196-198 | the appended paths are planned paths of the entries, in archive order |
| Archive.EntriesAllExtracted | subscription/extractor.py:194-198 | a loop with no error extracts every entry, to its planned path, in order, and counts them all |
| Archive.ValidationGate | subscription/extractor.py:187-189 | a failed validation writes nothing, extracts nothing, appends exactly one error and returns False |
| Archive.FinishPhaseKeeps | subscription/extractor.py:200-202 | the extra files lose no error and extract no more paths; stopping there adds an error |
| Archive.MainPhaseKeepsErrors | subscription/extractor.py:180-241 | a run loses no earlier error or path, and a run that stops early has appended an error |
| Archive.MainPhaseBookkeeping | subscription/extractor.py:180-202 | a run that gets through the extra files validated its archive and appended success_count paths, at most one per entry, in archive order |
| Archive.AsWrittenNeverSucceeds | subscription/extractor.py:172-207 | as written, extract_all always returns False and appends at least one error; past the extra files, the last one is the missing `create_readme` |
| Archive.ExtractionSucceeds | subscription/extractor.py:180-231 | the corrected run returns True only with no error before or after, every entry extracted in order, and `package.json` and `.env.example` holding their documents |
| Archive.CleanRunSucceedsOnlyWhenCorrected | subscription/extractor.py:172-207 | for an archive with a string `project` and no entries, on any disk where the output directory already resolves and neither package.json nor .env.example is a directory or refused, the corrected run returns True and the run as written returns False |
| Archive.CleanRunOnEmptyDisk | subscription/extractor.py:172-207 | the input of the finding: archive `{"project": "demo", "files": []}`, output directory "out", the empty disk with no faults; the corrected run returns True and the run as written returns False |
| Archive.ExtraFilesDistinct | subscription/extractor.py:138-165 | package.json and .env.example are different files of the output directory, also when it is the working directory |
| Archive.CleanDirectory | subscription/extractor.py:44 | creating "out" on the empty disk with no faults adds exactly that directory |
| Archive.ExtrasWritten | subscription/extractor.py:137-170 | in an output directory that resolves, where neither package.json nor .env.example is a directory or refused, a project whose record can be built gets package.json holding the record and .env.example the template, with no error and nothing else changed |
| Extractor.FileExtractor.constructor | subscription/extractor.py:16-20 | a new extractor keeps both paths, with "ezunder_extracted" as the default output directory, and has both lists empty |
| Extractor.FileExtractor.ValidateJsonStructure | subscription/extractor.py:22-39 | the verdict is that of validation; exactly the failure message is appended when it returns False; nothing is appended otherwise |
| Extractor.FileExtractor.CreateDirectoryStructure | subscription/extractor.py:41-48 | the directory is created, or the error is appended and handed back to be re-raised |
| Extractor.FileExtractor.ExtractFile | subscription/extractor.py:50-78 | disk and outcome are those of one extraction; True appends the path written, False appends one error |
| Extractor.FileExtractor.PlaceFile | subscription/extractor.py:56-78 | the same, once the three keys have been read |
| Extractor.FileExtractor.WriteFile | subscription/extractor.py:66-78 | the same, for opening and writing the target |
| Extractor.FileExtractor.ExtractEntries | subscription/extractor.py:194-198 | the loop leaves the disk, the lists and success_count that the entry loop computes, and hands back an escaping exception |
| Extractor.FileExtractor.CreatePackageJson | subscription/extractor.py:80-143 | package.json holds the record, or the write error is appended, or the `.lower()` error escapes |
| Extractor.FileExtractor.WriteEnvExample | subscription/extractor.py:164-170 | .env.example holds the template, or the error is appended |
| Extractor.FileExtractor.WriteReadmeAsWritten | subscription/extractor.py:172-178 | README.md is opened, and so emptied when the open succeeds; one error is appended, the OSError text when the open fails and the NameError text otherwise |
| Extractor.FileExtractor.RunMainPhase | subscription/extractor.py:180-241 | the object ends where the run up to .env.example ends, with each handler's error |
| Extractor.FileExtractor.ExtractValidated | subscription/extractor.py:191-202 | the same, from a validated archive on |
| Extractor.FileExtractor.FinishRun | subscription/extractor.py:200-202 | the same, from the end of the loop on |
| Extractor.FileExtractor.ExtractAllAsWritten | subscription/extractor.py:180-241 | the object follows extract_all as written; it returns False and appends at least one error |
| Extractor.FileExtractor.ExtractAll | subscription/extractor.py:180-241 | the object follows the corrected run, which returns True exactly when the error list is empty |

## Left out

- File I/O is replaced by the `Disk` value and the `FileSystem` object. Which paths fail, and with which errno, is given by the `faults` map. Other OS behaviour (permissions, full disks, races with other processes) is folded into it.
- Reading and decoding the archive (`open` plus `json.load`) is an input, `Loaded`. An `OSError` other than "file not found" when opening the archive, and the wording of decoder errors, are not modelled.
- Floating-point JSON numbers are not modelled; numbers are integers.
- `Json.Str`: `str()` of a list or dict used as a name or suffix is a fixed placeholder, not Python's rendering, because the map does not keep key order.
- `Strings.Lower`: lower-cases ASCII letters only; full Unicode case mapping is not modelled.
- The constant parts of `package.json` (dependencies, scripts, eslint, browserslist) and the text of `.env.example` are not carried; `Manifest` and `EnvTemplate` stand for them. The JSON layout `json.dump(..., indent=2)` produces is not modelled.
- Console output (`print`), the summary figures and `main()` with its command line are I/O and are left out. `success_count` is returned, since the summary is all that uses it.
- The timestamp added as `generated_date` comes from the clock. It is never read, because the call that would use it fails.
- Paths are strings of '/'-separated segments. pathlib normalisation (`.`, `..`, repeated or trailing '/') is not modelled. Neither are a `path` or a `name` that starts with '/', which pathlib makes absolute so that it replaces what comes before it. The working directory is "", and a segment joined to it stands alone.
- Strings that the operating system or the encoder rejects are not modelled. A NUL character in `name`, `suffix` or `path` makes `open` and `os.mkdir` raise ValueError ("embedded null byte", "embedded null character in path"). A lone surrogate in `name` or `content` makes the open or the write raise UnicodeEncodeError. The model extracts an entry with a NUL as it would any other name. A Dafny `char` cannot hold a lone surrogate at all. The `faults` map can make such a path fail, but only with an OSError text; the ValueError and UnicodeEncodeError texts are never produced.
- The repr quoting of file names in `OSError` text is simplified to single quotes.
- The web application of the repository (authentication, AI proxy, documents) and attached_assets/script_1751140876355.py are not part of this model.

## Findings

| source | as written | input that shows it | evidently intended | confidence | as-written member | corrected member |
|---|---|---|---|---|---|---|
| subscription/extractor.py:172-207 | after `.env.example`, `create_env_template` opens README.md, which empties it when the open succeeds, and writes `readme_content`, which is never defined; it appends "Failed to create README.md: name 'readme_content' is not defined", or the OSError text when the open fails. `extract_all` then calls `self.create_readme`, which does not exist, and the handler appends "Unexpected error: ..."; so extract_all never returns True | archive `{"project": "demo", "files": []}`, output directory "out", the empty disk with no faults (`Archive.CleanRunOnEmptyDisk`) | return True when nothing failed, after writing the extra files | high, not executed | Archive.AsWrittenNeverSucceeds | Archive.ExtractionSucceeds |
