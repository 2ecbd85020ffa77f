/**
  The FileExtractor object: its two lists change as it works, and files and
  directories change on the filesystem it is given. Every method is proved
  to do what the matching function of Archive says, so the lemmas there
  apply to the object.
*/
module Extractor {
  import opened Wrappers
  import opened Json
  import opened Messages
  import opened Paths
  import opened PackageJson
  import opened Storage
  import opened Archive

  /** The output directory a caller gets when it names none. */
  const DEFAULT_OUTPUT_DIRECTORY := "ezunder_extracted"

  class FileExtractor {
    const jsonFilePath: string
    const outputDirectory: string
    var extractedFiles: seq<string>
    var errors: seq<string>

    constructor (jsonFilePath: string, outputDirectory: string := DEFAULT_OUTPUT_DIRECTORY)
      ensures this.jsonFilePath == jsonFilePath && this.outputDirectory == outputDirectory
      ensures extractedFiles == [] && errors == []
    {
      this.jsonFilePath := jsonFilePath;
      this.outputDirectory := outputDirectory;
      extractedFiles := [];
      errors := [];
    }

    /** The two lists together with the filesystem. */
    function SessionOn(fs: FileSystem): Session
      reads this, fs
    {
      Session(fs.State(), extractedFiles, errors)
    }

    /**
      validate_json_structure: the keys of the archive, the type of `files`,
      then each entry in turn until the first incomplete one.
    */
    method ValidateJsonStructure(data: Json) returns (verdict: Verdict)
      modifies this
      ensures verdict == Validation(data)
      ensures errors == old(errors) + (if verdict.Invalid? then [verdict.message] else [])
      ensures extractedFiles == old(extractedFiles)
    {
      var keys := ContainsAll(data, ARCHIVE_KEYS);
      if keys.None? {
        return Raises(NotIterable(TypeName(data)));
      }
      if !keys.value {
        errors := errors + [MISSING_KEYS];
        return Invalid(MISSING_KEYS);
      }
      match data {
        case JObj(fields) =>
          assert Contains(data, ARCHIVE_KEYS[1]) == Some(true);
          if !fields["files"].JArr? {
            errors := errors + [FILES_NOT_LIST];
            return Invalid(FILES_NOT_LIST);
          }
          var entries := fields["files"].items;
          var i := 0;
          while i < |entries|
            invariant 0 <= i <= |entries|
            invariant ScanEntries(entries, i) == ScanEntries(entries, 0)
            invariant errors == old(errors) && extractedFiles == old(extractedFiles)
            decreases |entries| - i
          {
            var check := CheckEntry(entries[i]);
            if check.Incomplete? {
              errors := errors + [FileMissingKeys(i)];
              return Invalid(FileMissingKeys(i));
            } else if check.Unsupported? {
              return Raises(NotIterable(check.typeName));
            }
            i := i + 1;
          }
          return Valid;
        case JArr(_) =>
          return Raises(LIST_INDEX_ERROR);
        case _ =>
          return Raises(STR_INDEX_ERROR);
      }
    }

    /** create_directory_structure: a failure is appended and handed back to be re-raised. */
    method CreateDirectoryStructure(fs: FileSystem) returns (raised: Option<OsError>)
      modifies this, fs
      ensures (SessionOn(fs), raised) == DirectoryStep(old(SessionOn(fs)), outputDirectory)
    {
      raised := fs.MakeDirs(outputDirectory);
      if raised.Some? {
        errors := errors + [DirectoryFailed(outputDirectory, OsErrorText(raised.value))];
      }
    }

    /**
      extract_file: True appends the path written to extractedFiles, False
      appends one error; an entry that is not a dict raises in the handler.
    */
    method ExtractFile(fs: FileSystem, entry: Json) returns (outcome: FileOutcome)
      modifies this, fs
      ensures (fs.State(), outcome) == FileStep(old(fs.State()), outputDirectory, entry)
      ensures extractedFiles == old(extractedFiles) + (if outcome.Extracted? then [outcome.path] else [])
      ensures errors == old(errors) + (if outcome.Failed? then [outcome.message] else [])
    {
      if !entry.JObj? {
        return Raised(NoAttribute(TypeName(entry), "get"));
      }
      var f := entry.fields;
      if "name" !in f {
        outcome := Failed(ExtractFailed("unknown", KeyErrorText("name")));
      } else if "content" !in f {
        outcome := Failed(ExtractFailed(Str(f["name"]), KeyErrorText("content")));
      } else if "suffix" !in f {
        outcome := Failed(ExtractFailed(Str(f["name"]), KeyErrorText("suffix")));
      } else {
        outcome := PlaceFile(fs, f);
        return;
      }
      errors := errors + [outcome.message];
    }

    /** The part of extract_file after the three keys have been read. */
    method PlaceFile(fs: FileSystem, f: map<string, Json>) returns (outcome: FileOutcome)
      requires "name" in f && "content" in f && "suffix" in f
      modifies this, fs
      ensures (fs.State(), outcome) == PlaceEntry(old(fs.State()), outputDirectory, f)
      ensures extractedFiles == old(extractedFiles) + (if outcome.Extracted? then [outcome.path] else [])
      ensures errors == old(errors) + (if outcome.Failed? then [outcome.message] else [])
    {
      var name := Str(f["name"]);
      var suffix := Str(f["suffix"]);
      var path := Get(f, "path", JStr(""));
      var target;
      if !Truthy(path) {
        target := TargetPath(outputDirectory, "", name, suffix);
      } else if !path.JStr? {
        outcome := Failed(ExtractFailed(name, PathDivisionError(TypeName(path))));
        errors := errors + [outcome.message];
        return;
      } else {
        target := TargetPath(outputDirectory, path.s, name, suffix);
        var err := fs.MakeDirs(Parent(target));
        if err.Some? {
          outcome := Failed(ExtractFailed(name, OsErrorText(err.value)));
          errors := errors + [outcome.message];
          return;
        }
      }
      outcome := WriteFile(fs, target, f["content"], name);
    }

    /** `open(target, 'w')` and `write(content)`, then record the path. */
    method WriteFile(fs: FileSystem, target: string, content: Json, name: string) returns (outcome: FileOutcome)
      modifies this, fs
      ensures (fs.State(), outcome) == WriteEntry(old(fs.State()), target, content, name)
      ensures extractedFiles == old(extractedFiles) + (if outcome.Extracted? then [outcome.path] else [])
      ensures errors == old(errors) + (if outcome.Failed? then [outcome.message] else [])
    {
      var err := fs.Open(target);
      if err.Some? {
        outcome := Failed(ExtractFailed(name, OsErrorText(err.value)));
      } else if !content.JStr? {
        outcome := Failed(ExtractFailed(name, WriteArgumentError(ArgumentName(content))));
      } else {
        fs.Write(target, Plain(content.s));
        extractedFiles := extractedFiles + [target];
        return Extracted(target);
      }
      errors := errors + [outcome.message];
    }

    /**
      The loop of extract_all: each entry in order, counting the successes;
      an exception from an entry ends the loop and is handed back.
    */
    method ExtractEntries(fs: FileSystem, entries: seq<Json>) returns (successCount: nat, raised: Option<string>)
      modifies this, fs
      ensures var p := EntriesStep(Progress(old(fs.State()), old(extractedFiles), old(errors), 0, None),
                                   outputDirectory, entries);
        && fs.State() == p.disk && extractedFiles == p.extracted && errors == p.errors
        && successCount == p.count && raised == p.raised
    {
      ghost var goal := EntriesStep(Progress(fs.State(), extractedFiles, errors, 0, None), outputDirectory, entries);
      successCount := 0;
      raised := None;
      var i := 0;
      while i < |entries|
        invariant 0 <= i <= |entries|
        invariant EntriesStep(Progress(fs.State(), extractedFiles, errors, successCount, None),
                              outputDirectory, entries[i..]) == goal
        decreases |entries| - i
      {
        ghost var before := Progress(fs.State(), extractedFiles, errors, successCount, None);
        assert entries[i..][0] == entries[i] && entries[i..][1..] == entries[i + 1..];
        var outcome := ExtractFile(fs, entries[i]);
        assert Record(before, fs.State(), outcome) ==
          Progress(fs.State(), extractedFiles, errors, successCount, None).(
            count := if outcome.Extracted? then successCount + 1 else successCount,
            raised := if outcome.Raised? then Some(outcome.exception) else None);
        match outcome {
          case Extracted(_) =>
            successCount := successCount + 1;
          case Failed(_) =>
          case Raised(x) =>
            raised := Some(x);
            return;
        }
        i := i + 1;
      }
      assert entries[i..] == [];
    }

    /** create_package_json: raising while building the record escapes; a failing write is appended. */
    method CreatePackageJson(fs: FileSystem, archive: map<string, Json>) returns (raised: Option<string>)
      modifies this, fs
      ensures (SessionOn(fs), raised) == PackageStep(old(SessionOn(fs)), outputDirectory, archive)
    {
      var package := PackageFields(archive);
      if package.Err? {
        return Some(package.error);
      }
      var packagePath := Join(outputDirectory, "package.json");
      ghost var s0 := SessionOn(fs);
      ghost var d0 := fs.State();
      var err := fs.Open(packagePath);
      if err.Some? {
        errors := errors + [PackageFailed(OsErrorText(err.value))];
        assert SessionOn(fs) == AddError(s0, PackageFailed(OsErrorText(err.value)));
      } else {
        fs.Write(packagePath, Manifest(package.value));
        assert d0.files[packagePath := Plain("")][packagePath := Manifest(package.value)] ==
               d0.files[packagePath := Manifest(package.value)];
        assert SessionOn(fs) == s0.(disk := d0.(files := d0.files[packagePath := Manifest(package.value)]));
      }
      raised := None;
    }

    /** The first half of create_env_template: .env.example. */
    method WriteEnvExample(fs: FileSystem)
      modifies this, fs
      ensures SessionOn(fs) == EnvStep(old(SessionOn(fs)), outputDirectory)
    {
      var envPath := Join(outputDirectory, ".env.example");
      var err := fs.Open(envPath);
      if err.Some? {
        errors := errors + [EnvFailed(OsErrorText(err.value))];
      } else {
        fs.Write(envPath, EnvTemplate);
      }
    }

    /**
      The second half of create_env_template as written: README.md is opened,
      and so emptied when the open succeeds, and one error is appended.
    */
    method WriteReadmeAsWritten(fs: FileSystem)
      modifies this, fs
      ensures SessionOn(fs) == ReadmeStepAsWritten(old(SessionOn(fs)), outputDirectory)
    {
      var err := fs.Open(Join(outputDirectory, "README.md"));
      if err.Some? {
        errors := errors + [ReadmeFailed(OsErrorText(err.value))];
      } else {
        errors := errors + [ReadmeFailed(README_CONTENT_UNDEFINED)];
      }
    }

    /** extract_all up to and including .env.example, with its exception handlers. */
    method RunMainPhase(fs: FileSystem, loaded: Loaded) returns (reached: bool, successCount: nat)
      modifies this, fs
      ensures MainPhase(jsonFilePath, outputDirectory, old(SessionOn(fs)), loaded) ==
        if reached then Reached(SessionOn(fs), successCount) else Stopped(SessionOn(fs))
    {
      ghost var s0 := SessionOn(fs);
      reached, successCount := false, 0;
      match loaded {
        case NotFound =>
          errors := errors + [JsonNotFound(jsonFilePath)];
        case Malformed(detail) =>
          errors := errors + [InvalidJson(detail)];
        case Parsed(data) =>
          var verdict := ValidateJsonStructure(data);
          if verdict.Raises? {
            errors := errors + [Unexpected(verdict.exception)];
            assert SessionOn(fs) == AddError(s0, Unexpected(verdict.exception));
          } else if verdict.Valid? {
            assert SessionOn(fs) == s0;
            reached, successCount := ExtractValidated(fs, data);
          } else {
            assert SessionOn(fs) == AddError(s0, verdict.message);
          }
      }
    }

    /** A validated archive: the output directory, the loop, then the extra files. */
    method ExtractValidated(fs: FileSystem, data: Json) returns (reached: bool, successCount: nat)
      modifies this, fs
      ensures ExtractPhase(jsonFilePath, outputDirectory, old(SessionOn(fs)), data) ==
        if reached then Reached(SessionOn(fs), successCount) else Stopped(SessionOn(fs))
    {
      var dirError := CreateDirectoryStructure(fs);
      if dirError.Some? {
        errors := errors + [HandleOsError(jsonFilePath, dirError.value)];
        return false, 0;
      }
      var count, raised := ExtractEntries(fs, ArchiveEntries(data));
      reached, successCount := FinishRun(fs, data, count, raised);
    }

    /** After the loop: an escaped exception is caught, else package.json and .env.example. */
    method FinishRun(fs: FileSystem, data: Json, count: nat, raised: Option<string>)
      returns (reached: bool, successCount: nat)
      modifies this, fs
      ensures FinishPhase(outputDirectory, Progress(old(fs.State()), old(extractedFiles), old(errors), count, raised), data) ==
        if reached then Reached(SessionOn(fs), successCount) else Stopped(SessionOn(fs))
    {
      if raised.Some? {
        errors := errors + [Unexpected(raised.value)];
        return false, 0;
      }
      var packageError := CreatePackageJson(fs, ArchiveFields(data));
      if packageError.Some? {
        errors := errors + [Unexpected(packageError.value)];
        return false, 0;
      }
      WriteEnvExample(fs);
      return true, count;
    }

    /**
      extract_all as written: after .env.example, README.md is opened (and
      emptied when that succeeds) and the call to the missing create_readme
      is caught, so it returns False.
    */
    method ExtractAllAsWritten(fs: FileSystem, loaded: Loaded) returns (success: bool)
      modifies this, fs
      ensures (SessionOn(fs), success) ==
        ExtractionAsWritten(jsonFilePath, outputDirectory, old(SessionOn(fs)), loaded)
      ensures !success && |errors| > |old(errors)|
    {
      ghost var s0 := SessionOn(fs);
      MainPhaseKeepsErrors(jsonFilePath, outputDirectory, s0, loaded);
      var reached, successCount := RunMainPhase(fs, loaded);
      if reached {
        WriteReadmeAsWritten(fs);
        errors := errors + [Unexpected(NO_CREATE_README)];
      }
      success := false;
    }

    /**
      extract_all without the broken README tail: True exactly when the
      lists hold no error at the end.
    */
    method ExtractAll(fs: FileSystem, loaded: Loaded) returns (success: bool)
      modifies this, fs
      ensures (SessionOn(fs), success) == Extraction(jsonFilePath, outputDirectory, old(SessionOn(fs)), loaded)
      ensures success <==> errors == []
    {
      ghost var s0 := SessionOn(fs);
      MainPhaseKeepsErrors(jsonFilePath, outputDirectory, s0, loaded);
      var reached, successCount := RunMainPhase(fs, loaded);
      success := reached && errors == [];
    }
  }
}
