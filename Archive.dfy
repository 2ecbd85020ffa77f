/**
  The behaviour of the extractor as functions of the state before each step:
  the structural check of the archive (validate_json_structure), the effect
  of extracting one entry (extract_file), the extraction loop, and the whole
  run (extract_all), as written and corrected. The class in Extractor.dfy is
  proved to follow these functions; the lemmas here state what they promise.
*/
module Archive {
  import opened Wrappers
  import opened Strings
  import opened Json
  import opened Messages
  import opened Paths
  import opened PackageJson
  import opened Storage

  const ARCHIVE_KEYS: seq<string> := ["project", "files"]
  const ENTRY_KEYS: seq<string> := ["name", "content", "suffix"]

  // ---------------------------------------------------------------------
  // validate_json_structure (subscription/extractor.py:22-39)

  /** True, False with the error it appends, or an exception that escapes. */
  datatype Verdict = Valid | Invalid(message: string) | Raises(exception: string)

  /** `all(key in entry for key in ENTRY_KEYS)`: complete, incomplete, or a TypeError. */
  datatype EntryCheck = Complete | Incomplete | Unsupported(typeName: string)

  function CheckEntry(entry: Json): EntryCheck
  {
    match ContainsAll(entry, ENTRY_KEYS)
    case None => Unsupported(TypeName(entry))
    case Some(present) => if present then Complete else Incomplete
  }

  /** The loop over the entries from index i on; it returns at the first entry that fails. */
  function ScanEntries(entries: seq<Json>, i: nat): Verdict
    requires i <= |entries|
    decreases |entries| - i
  {
    if i == |entries| then Valid
    else
      match CheckEntry(entries[i])
      case Complete => ScanEntries(entries, i + 1)
      case Incomplete => Invalid(FileMissingKeys(i))
      case Unsupported(t) => Raises(NotIterable(t))
  }

  function Validation(data: Json): Verdict
  {
    match ContainsAll(data, ARCHIVE_KEYS)
    case None => Raises(NotIterable(TypeName(data)))
    case Some(false) => Invalid(MISSING_KEYS)
    case Some(true) =>
      match data
      case JObj(fields) =>
        assert Contains(data, ARCHIVE_KEYS[1]) == Some(true);
        (match fields["files"]
         case JArr(entries) => ScanEntries(entries, 0)
         case _ => Invalid(FILES_NOT_LIST))
      case JArr(_) => Raises(LIST_INDEX_ERROR)
      // only a string contains both keys and is none of the above
      case _ => Raises(STR_INDEX_ERROR)
  }

  /** The top-level object of an archive, and its list of entries. */
  function ArchiveFields(data: Json): map<string, Json>
  {
    if data.JObj? then data.fields else map[]
  }

  function ArchiveEntries(data: Json): seq<Json>
  {
    if data.JObj? && "files" in data.fields && data.fields["files"].JArr?
    then data.fields["files"].items else []
  }

  /** An archive is an object with both keys whose `files` is a list. */
  predicate WellShaped(data: Json)
  {
    data.JObj? && "project" in data.fields && "files" in data.fields && data.fields["files"].JArr?
  }

  /** On an object entry the check is complete exactly when all three keys are present. */
  lemma CheckEntryOfObject(fields: map<string, Json>)
    ensures CheckEntry(JObj(fields)) ==
      (if "name" in fields && "content" in fields && "suffix" in fields then Complete else Incomplete)
  {
    ContainsAllOfObject(fields, ENTRY_KEYS);
  }

  lemma {:induction false} ScanValid(entries: seq<Json>, i: nat)
    requires i <= |entries|
    ensures ScanEntries(entries, i) == Valid <==>
      forall j :: i <= j < |entries| ==> CheckEntry(entries[j]) == Complete
    decreases |entries| - i
  {
    if i < |entries| {
      ScanValid(entries, i + 1);
    }
  }

  lemma {:induction false} ScanFirstIncomplete(entries: seq<Json>, i: nat, k: nat)
    requires i <= |entries|
    ensures ScanEntries(entries, i) == Invalid(FileMissingKeys(k)) <==>
      i <= k < |entries| && CheckEntry(entries[k]) == Incomplete &&
      forall j :: i <= j < k ==> CheckEntry(entries[j]) == Complete
    decreases |entries| - i
  {
    if i < |entries| {
      ScanFirstIncomplete(entries, i + 1, k);
      if CheckEntry(entries[i]) == Incomplete && FileMissingKeys(i) == FileMissingKeys(k) {
        FileMissingKeysInjective(i, k);
      }
    }
  }

  /** The loop over entries never produces the messages of the first two checks. */
  lemma {:induction false} ScanMessages(entries: seq<Json>, i: nat)
    requires i <= |entries|
    ensures ScanEntries(entries, i) != Invalid(MISSING_KEYS)
    ensures ScanEntries(entries, i) != Invalid(FILES_NOT_LIST)
    decreases |entries| - i
  {
    if i < |entries| {
      ValidationMessagesDistinct(i);
      ScanMessages(entries, i + 1);
    }
  }

  lemma ArchiveKeysOfObject(fields: map<string, Json>)
    ensures ContainsAll(JObj(fields), ARCHIVE_KEYS) == Some("project" in fields && "files" in fields)
  {
    ContainsAllOfObject(fields, ARCHIVE_KEYS);
  }

  /**
    Validation passes exactly for an object with `project` and `files` whose
    `files` is a list of entries that each have `name`, `content` and `suffix`.
  */
  lemma ValidationValid(data: Json)
    ensures Validation(data) == Valid <==>
      WellShaped(data) &&
      forall j :: 0 <= j < |ArchiveEntries(data)| ==> CheckEntry(ArchiveEntries(data)[j]) == Complete
  {
    if data.JObj? {
      ArchiveKeysOfObject(data.fields);
      if WellShaped(data) {
        var entries := data.fields["files"].items;
        ScanValid(entries, 0);
        assert Validation(data) == ScanEntries(entries, 0);
        assert ArchiveEntries(data) == entries;
      }
    }
  }

  /** A missing `project` or `files` fails with the one missing-keys message. */
  lemma ValidationMissingKeys(fields: map<string, Json>)
    ensures Validation(JObj(fields)) == Invalid(MISSING_KEYS) <==>
      !("project" in fields && "files" in fields)
  {
    ArchiveKeysOfObject(fields);
    ValidationMessagesDistinct(0);
    if "project" in fields && "files" in fields && fields["files"].JArr? {
      ScanMessages(fields["files"].items, 0);
    }
  }

  /** Both keys present but `files` not a list fails with "'files' must be a list". */
  lemma ValidationFilesNotList(fields: map<string, Json>)
    ensures Validation(JObj(fields)) == Invalid(FILES_NOT_LIST) <==>
      "project" in fields && "files" in fields && !fields["files"].JArr?
  {
    ArchiveKeysOfObject(fields);
    ValidationMessagesDistinct(0);
    if "project" in fields && "files" in fields && fields["files"].JArr? {
      ScanMessages(fields["files"].items, 0);
    }
  }

  /**
    Validation fails naming entry k exactly when k is the lowest index whose
    entry lacks one of the three keys (and no earlier entry raised).
  */
  lemma ValidationFirstIncomplete(fields: map<string, Json>, k: nat)
    ensures Validation(JObj(fields)) == Invalid(FileMissingKeys(k)) <==>
      WellShaped(JObj(fields)) &&
      var entries := fields["files"].items;
      k < |entries| && CheckEntry(entries[k]) == Incomplete &&
      forall j :: 0 <= j < k ==> CheckEntry(entries[j]) == Complete
  {
    ArchiveKeysOfObject(fields);
    ValidationMessagesDistinct(k);
    if WellShaped(JObj(fields)) {
      ScanFirstIncomplete(fields["files"].items, 0, k);
    }
  }

  /** Entries after the first incomplete one are never inspected: replacing them changes nothing. */
  lemma ValidationStopsAtFirstIncomplete(fields: map<string, Json>, k: nat, later: seq<Json>)
    requires Validation(JObj(fields)) == Invalid(FileMissingKeys(k))
    ensures WellShaped(JObj(fields)) && k < |fields["files"].items|
    ensures var changed := fields["files" := JArr(fields["files"].items[..k + 1] + later)];
      Validation(JObj(changed)) == Invalid(FileMissingKeys(k))
  {
    ValidationFirstIncomplete(fields, k);
    var entries := fields["files"].items;
    var changed := fields["files" := JArr(entries[..k + 1] + later)];
    var e2 := entries[..k + 1] + later;
    assert forall j :: 0 <= j <= k ==> e2[j] == entries[j];
    ValidationFirstIncomplete(changed, k);
  }

  /** An archive whose entries are all objects never makes validation raise. */
  lemma ValidationOfObjectEntries(fields: map<string, Json>)
    requires WellShaped(JObj(fields))
    requires forall j :: 0 <= j < |fields["files"].items| ==> fields["files"].items[j].JObj?
    ensures !Validation(JObj(fields)).Raises?
  {
    ArchiveKeysOfObject(fields);
    NoRaiseOnObjects(fields["files"].items, 0);
  }

  lemma {:induction false} NoRaiseOnObjects(entries: seq<Json>, i: nat)
    requires i <= |entries|
    requires forall j :: i <= j < |entries| ==> entries[j].JObj?
    ensures !ScanEntries(entries, i).Raises?
    decreases |entries| - i
  {
    if i < |entries| {
      CheckEntryOfObject(entries[i].fields);
      NoRaiseOnObjects(entries, i + 1);
    }
  }

  // ---------------------------------------------------------------------
  // extract_file (subscription/extractor.py:50-78)

  /** True with the path written, False with the error appended, or an exception that escapes. */
  datatype FileOutcome = Extracted(path: string) | Failed(message: string) | Raised(exception: string)

  /** Where an entry is written: None when its keys are missing or its path is not text. */
  function PlannedPath(out: string, entry: Json): Option<string>
  {
    match entry
    case JObj(f) =>
      if "name" in f && "content" in f && "suffix" in f then
        var path := Get(f, "path", JStr(""));
        if !Truthy(path) then Some(TargetPath(out, "", Str(f["name"]), Str(f["suffix"])))
        else if path.JStr? then Some(TargetPath(out, path.s, Str(f["name"]), Str(f["suffix"])))
        else None
      else None
    case _ => None
  }

  /**
    Extracting one entry: read name, content and suffix (a KeyError is
    caught), then place the file. An entry that is not a dict fails in the
    handler itself (`.get` on it), so that exception escapes.
  */
  function FileStep(d: Disk, out: string, entry: Json): (Disk, FileOutcome)
  {
    match entry
    case JObj(f) =>
      if "name" !in f then (d, Failed(ExtractFailed("unknown", KeyErrorText("name"))))
      else if "content" !in f then (d, Failed(ExtractFailed(Str(f["name"]), KeyErrorText("content"))))
      else if "suffix" !in f then (d, Failed(ExtractFailed(Str(f["name"]), KeyErrorText("suffix"))))
      else PlaceEntry(d, out, f)
    case _ => (d, Raised(NoAttribute(TypeName(entry), "get")))
  }

  /** Build the target path, create its directory when there is a path, write the content. */
  function PlaceEntry(d: Disk, out: string, f: map<string, Json>): (Disk, FileOutcome)
    requires "name" in f && "content" in f && "suffix" in f
  {
    var name := Str(f["name"]);
    var suffix := Str(f["suffix"]);
    var path := Get(f, "path", JStr(""));
    if !Truthy(path) then WriteEntry(d, TargetPath(out, "", name, suffix), f["content"], name)
    else if !path.JStr? then (d, Failed(ExtractFailed(name, PathDivisionError(TypeName(path)))))
    else
      var target := TargetPath(out, path.s, name, suffix);
      var (d1, err) := MakeDirsStep(d, Parent(target));
      if err.Some? then (d1, Failed(ExtractFailed(name, OsErrorText(err.value))))
      else WriteEntry(d1, target, f["content"], name)
  }

  /** `open(target, 'w')` then `write(content)`: a non-string content leaves the file empty. */
  function WriteEntry(d: Disk, target: string, content: Json, name: string): (Disk, FileOutcome)
  {
    var (d1, err) := OpenStep(d, target);
    if err.Some? then (d1, Failed(ExtractFailed(name, OsErrorText(err.value))))
    else if content.JStr? then (d1.(files := d1.files[target := Plain(content.s)]), Extracted(target))
    else (d1, Failed(ExtractFailed(name, WriteArgumentError(ArgumentName(content)))))
  }

  /**
    What one extraction does to the disk: an extracted entry is written to
    its planned path with its content and nothing else is written; a failed
    one writes nothing, or leaves the planned file empty; an escaping
    exception comes only from an entry that is not a dict, and changes
    nothing. Directories are only added, only for an entry with a `path`,
    and only on the way to its planned target; the faults stay.
  */
  lemma FileStepEffects(d: Disk, out: string, entry: Json)
    ensures var (d1, o) := FileStep(d, out, entry);
      && d1.faults == d.faults && d.dirs <= d1.dirs
      && (PlannedPath(out, entry).None? ==> d1.dirs == d.dirs)
      && (PlannedPath(out, entry).Some? ==> d1.dirs <= d.dirs + Lineage(Parent(PlannedPath(out, entry).value)))
      && (entry.JObj? && !Truthy(Get(entry.fields, "path", JStr(""))) ==> d1.dirs == d.dirs)
      && (o.Raised? <==> !entry.JObj?)
      && (o.Raised? ==> d1 == d)
      && (o.Extracted? ==>
            PlannedPath(out, entry) == Some(o.path) && entry.fields["content"].JStr? &&
            d1.files == d.files[o.path := Plain(entry.fields["content"].s)])
      && (o.Failed? ==>
            d1.files == d.files ||
            (PlannedPath(out, entry).Some? && d1.files == d.files[PlannedPath(out, entry).value := Plain("")]))
  {
    if entry.JObj? && "name" in entry.fields && "content" in entry.fields && "suffix" in entry.fields {
      PlaceEntryEffects(d, out, entry.fields);
    }
  }

  lemma PlaceEntryEffects(d: Disk, out: string, f: map<string, Json>)
    requires "name" in f && "content" in f && "suffix" in f
    ensures var (d1, o) := PlaceEntry(d, out, f);
      && d1.faults == d.faults && d.dirs <= d1.dirs && !o.Raised?
      && (PlannedPath(out, JObj(f)).None? ==> d1.dirs == d.dirs)
      && (PlannedPath(out, JObj(f)).Some? ==> d1.dirs <= d.dirs + Lineage(Parent(PlannedPath(out, JObj(f)).value)))
      && (!Truthy(Get(f, "path", JStr(""))) ==> d1.dirs == d.dirs)
      && (o.Extracted? ==>
            PlannedPath(out, JObj(f)) == Some(o.path) && f["content"].JStr? &&
            d1.files == d.files[o.path := Plain(f["content"].s)])
      && (o.Failed? ==>
            d1.files == d.files ||
            (PlannedPath(out, JObj(f)).Some? && d1.files == d.files[PlannedPath(out, JObj(f)).value := Plain("")]))
  {
    var name := Str(f["name"]);
    var suffix := Str(f["suffix"]);
    var path := Get(f, "path", JStr(""));
    if !Truthy(path) {
      WriteEntryEffects(d, TargetPath(out, "", name, suffix), f["content"], name);
    } else if path.JStr? {
      var target := TargetPath(out, path.s, name, suffix);
      var (d1, err) := MakeDirsStep(d, Parent(target));
      if err.None? {
        WriteEntryEffects(d1, target, f["content"], name);
      }
    }
  }

  lemma WriteEntryEffects(d: Disk, target: string, content: Json, name: string)
    ensures var (d1, o) := WriteEntry(d, target, content, name);
      && d1.faults == d.faults && d1.dirs == d.dirs && !o.Raised?
      && (o.Extracted? ==> o.path == target && content.JStr? && d1.files == d.files[target := Plain(content.s)])
      && (o.Failed? ==> d1.files == d.files || d1.files == d.files[target := Plain("")])
  {
    var (d1, o) := WriteEntry(d, target, content, name);
    if o.Extracted? {
      assert d1.files == d.files[target := Plain("")][target := Plain(content.s)];
    }
  }

  /**
    An entry with text content whose planned file can be opened at once (its
    directory exists, it is not a directory, no fault) is extracted there.
  */
  lemma FileStepSucceeds(d: Disk, out: string, entry: Json, target: string)
    requires PlannedPath(out, entry) == Some(target)
    requires entry.fields["content"].JStr?
    requires Reachable(d, Parent(target)) && target !in d.dirs && target !in d.faults
    ensures FileStep(d, out, entry) ==
      (d.(files := d.files[target := Plain(entry.fields["content"].s)]), Extracted(target))
  {
    var f := entry.fields;
    assert d.files[target := Plain("")][target := Plain(f["content"].s)] ==
           d.files[target := Plain(f["content"].s)];
  }

  /**
    An entry with text content and a path, whose planned directory is
    missing but can be created (no regular file and no fault on the way to
    it) and whose target is neither a directory nor refused, is extracted
    there; the directories created lie on the way to the target.
  */
  lemma FileStepCreatesDirectory(d: Disk, out: string, entry: Json, target: string)
    requires PlannedPath(out, entry) == Some(target)
    requires entry.fields["content"].JStr? && Truthy(Get(entry.fields, "path", JStr("")))
    requires forall a :: a in Lineage(Parent(target)) ==> a !in d.files && a !in d.faults
    requires target !in d.dirs && target !in d.faults
    ensures var (d1, o) := FileStep(d, out, entry);
      && o == Extracted(target)
      && d1.files == d.files[target := Plain(entry.fields["content"].s)]
      && d.dirs <= d1.dirs <= d.dirs + Lineage(Parent(target))
  {
    var f := entry.fields;
    var p := Parent(target);
    MakeDirsSucceeds(d, p);
    MakeDirsReaches(d, p);
    var (d1, e) := MakeDirsStep(d, p);
    LineageBounds(p);
    WriteEntrySucceeds(d1, target, f["content"], Str(f["name"]));
    assert PlaceEntry(d, out, f) == WriteEntry(d1, target, f["content"], Str(f["name"]));
  }

  /** Opening a file that can be opened and writing text to it stores exactly that text. */
  lemma WriteEntrySucceeds(d: Disk, target: string, content: Json, name: string)
    requires target != "" && Reachable(d, Parent(target)) && target !in d.dirs && target !in d.faults
    requires content.JStr?
    ensures WriteEntry(d, target, content, name) ==
      (d.(files := d.files[target := Plain(content.s)]), Extracted(target))
  {
    assert d.files[target := Plain("")][target := Plain(content.s)] == d.files[target := Plain(content.s)];
  }

  /**
    Content that is not text: the open truncates the file, and `write` then
    raises the TypeError that names None as "None" and anything else by its
    type name.
  */
  lemma WriteEntryNonText(d: Disk, target: string, content: Json, name: string)
    requires target != "" && Reachable(d, Parent(target)) && target !in d.dirs && target !in d.faults
    requires !content.JStr?
    ensures WriteEntry(d, target, content, name) ==
      (d.(files := d.files[target := Plain("")]),
       Failed(ExtractFailed(name, WriteArgumentError(if content.JNull? then "None" else TypeName(content)))))
  {
    assert OpenFault(d, target).None?;
  }

  // ---------------------------------------------------------------------
  // The loop of extract_all (subscription/extractor.py:194-198)

  /** The state the loop carries: disk, the two lists, success_count, and an escaped exception. */
  datatype Progress = Progress(disk: Disk, extracted: seq<string>, errors: seq<string>, count: nat, raised: Option<string>)

  function Record(p: Progress, d: Disk, o: FileOutcome): Progress
  {
    match o
    case Extracted(t) => p.(disk := d, extracted := p.extracted + [t], count := p.count + 1)
    case Failed(m) => p.(disk := d, errors := p.errors + [m])
    case Raised(x) => p.(disk := d, raised := Some(x))
  }

  /** Extract the entries in archive order; an escaping exception ends the loop. */
  function EntriesStep(p: Progress, out: string, entries: seq<Json>): Progress
    decreases |entries|
  {
    if entries == [] || p.raised.Some? then p
    else
      var (d, o) := FileStep(p.disk, out, entries[0]);
      EntriesStep(Record(p, d, o), out, entries[1..])
  }

  /** The planned paths of the entries that have one, in archive order. */
  function PlannedPaths(out: string, entries: seq<Json>): seq<string>
    decreases |entries|
  {
    if entries == [] then []
    else
      (match PlannedPath(out, entries[0]) case Some(t) => [t] case None => []) +
      PlannedPaths(out, entries[1..])
  }

  /** a keeps its order inside b, possibly with elements of b left out. */
  predicate IsSubsequence<T(==)>(a: seq<T>, b: seq<T>)
    decreases |b|
  {
    a == [] || (b != [] && ((a[0] == b[0] && IsSubsequence(a[1..], b[1..])) || IsSubsequence(a, b[1..])))
  }

  lemma {:induction false} SubsequenceOfLonger<T>(a: seq<T>, x: seq<T>, b: seq<T>)
    requires IsSubsequence(a, b)
    ensures IsSubsequence(a, x + b)
    decreases |x|
  {
    if a != [] && x != [] {
      SubsequenceOfLonger(a, x[1..], b);
      assert (x + b)[1..] == x[1..] + b;
      assert IsSubsequence(a, (x + b)[1..]);
    } else if x == [] {
      assert x + b == b;
    }
  }

  /**
    The loop's bookkeeping: both lists only grow; success_count grows by the
    number of paths appended to extracted_files; every entry processed adds
    one success or one error, so together they are at most the number of
    entries; once an exception has escaped nothing more happens.
  */
  lemma {:induction false} EntriesBookkeeping(p: Progress, out: string, entries: seq<Json>)
    ensures var r := EntriesStep(p, out, entries);
      && p.extracted <= r.extracted && p.errors <= r.errors
      && p.count <= r.count
      && r.count - p.count == |r.extracted| - |p.extracted|
      && (r.count - p.count) + (|r.errors| - |p.errors|) <= |entries|
      && r.disk.faults == p.disk.faults
      && (p.raised.Some? ==> r == p)
      && (p.raised.None? && r.raised.None? ==> (r.count - p.count) + (|r.errors| - |p.errors|) == |entries|)
    decreases |entries|
  {
    if entries != [] && p.raised.None? {
      var (d, o) := FileStep(p.disk, out, entries[0]);
      FileStepEffects(p.disk, out, entries[0]);
      EntriesBookkeeping(Record(p, d, o), out, entries[1..]);
    }
  }

  /** The paths appended during the loop keep the archive order of their entries. */
  lemma {:induction false} EntriesInArchiveOrder(p: Progress, out: string, entries: seq<Json>)
    ensures var r := EntriesStep(p, out, entries);
      p.extracted <= r.extracted &&
      IsSubsequence(r.extracted[|p.extracted|..], PlannedPaths(out, entries))
    decreases |entries|
  {
    var r := EntriesStep(p, out, entries);
    if entries != [] && p.raised.None? {
      var step := FileStep(p.disk, out, entries[0]);
      FileStepPlanned(p.disk, out, entries[0]);
      var q := Record(p, step.0, step.1);
      assert r == EntriesStep(q, out, entries[1..]);
      EntriesInArchiveOrder(q, out, entries[1..]);
      assert q.extracted == p.extracted + (if step.1.Extracted? then [step.1.path] else []);
      OrderStep(p.extracted, q.extracted, r.extracted, step.1, out, entries);
    }
  }

  /** One loop step: the path appended, if any, is the head of the planned paths. */
  lemma OrderStep(before: seq<string>, mid: seq<string>, after: seq<string>, o: FileOutcome, out: string, entries: seq<Json>)
    requires entries != []
    requires mid == before + (if o.Extracted? then [o.path] else [])
    requires o.Extracted? ==> PlannedPath(out, entries[0]) == Some(o.path)
    requires mid <= after
    requires IsSubsequence(after[|mid|..], PlannedPaths(out, entries[1..]))
    ensures before <= after
    ensures IsSubsequence(after[|before|..], PlannedPaths(out, entries))
  {
    var head := match PlannedPath(out, entries[0]) case Some(t) => [t] case None => [];
    var rest := PlannedPaths(out, entries[1..]);
    assert PlannedPaths(out, entries) == head + rest;
    var tail := after[|mid|..];
    if o.Extracted? {
      assert after[|before|..] == [o.path] + tail;
      assert ([o.path] + tail)[1..] == tail;
      assert (head + rest)[1..] == rest;
    } else {
      assert after[|before|..] == tail;
      SubsequenceOfLonger(tail, head, rest);
    }
  }

  /** An extracted entry was written to its planned path. */
  lemma FileStepPlanned(d: Disk, out: string, entry: Json)
    ensures var o := FileStep(d, out, entry).1;
      o.Extracted? ==> PlannedPath(out, entry) == Some(o.path)
  {
    FileStepEffects(d, out, entry);
  }

  /**
    A loop in which nothing fails and nothing escapes extracts every entry,
    each to its planned path, in archive order.
  */
  lemma {:induction false} EntriesAllExtracted(p: Progress, out: string, entries: seq<Json>)
    requires p.raised.None?
    requires EntriesStep(p, out, entries).raised.None?
    requires EntriesStep(p, out, entries).errors == p.errors
    ensures |PlannedPaths(out, entries)| == |entries|
    ensures EntriesStep(p, out, entries).extracted == p.extracted + PlannedPaths(out, entries)
    ensures EntriesStep(p, out, entries).count == p.count + |entries|
    decreases |entries|
  {
    if entries != [] {
      var (d, o) := FileStep(p.disk, out, entries[0]);
      FileStepPlanned(p.disk, out, entries[0]);
      var q := Record(p, d, o);
      assert EntriesStep(p, out, entries) == EntriesStep(q, out, entries[1..]);
      EntriesBookkeeping(q, out, entries[1..]);
      assert q.raised.None? && q.errors == p.errors;
      assert o.Extracted?;
      EntriesAllExtracted(q, out, entries[1..]);
      assert PlannedPaths(out, entries) == [o.path] + PlannedPaths(out, entries[1..]);
    }
  }

  // ---------------------------------------------------------------------
  // extract_all (subscription/extractor.py:180-241)

  /** The extractor's two lists together with the disk. */
  datatype Session = Session(disk: Disk, extracted: seq<string>, errors: seq<string>)

  /** What `json.load` on the archive file gives: no file, a decode error, or the value. */
  datatype Loaded = NotFound | Malformed(detail: string) | Parsed(data: Json)

  function AddError(s: Session, message: string): Session
  {
    s.(errors := s.errors + [message])
  }

  /** create_directory_structure: the error is appended and the OSError re-raised. */
  function DirectoryStep(s: Session, out: string): (Session, Option<OsError>)
  {
    var (d, err) := MakeDirsStep(s.disk, out);
    match err
    case None => (s.(disk := d), None)
    case Some(e) => (AddError(s.(disk := d), DirectoryFailed(out, OsErrorText(e))), err)
  }

  /**
    create_package_json: building the record may raise (outside its try);
    a failing write is caught and appended.
  */
  function PackageStep(s: Session, out: string, archive: map<string, Json>): (Session, Option<string>)
  {
    match PackageFields(archive)
    case Err(x) => (s, Some(x))
    case Ok(pkg) =>
      var (d, err) := WriteStep(s.disk, Join(out, "package.json"), Manifest(pkg));
      (if err.Some? then AddError(s.(disk := d), PackageFailed(OsErrorText(err.value))) else s.(disk := d), None)
  }

  /** The first half of create_env_template: write .env.example. */
  function EnvStep(s: Session, out: string): Session
  {
    var (d, err) := WriteStep(s.disk, Join(out, ".env.example"), EnvTemplate);
    if err.Some? then AddError(s.(disk := d), EnvFailed(OsErrorText(err.value))) else s.(disk := d)
  }

  /**
    The second half of create_env_template as written: README.md is opened
    (and so emptied when the open succeeds), then `readme_content`, which
    is never defined, raises NameError; either way one error is appended.
  */
  function ReadmeStepAsWritten(s: Session, out: string): Session
  {
    var (d, err) := OpenStep(s.disk, Join(out, "README.md"));
    AddError(s.(disk := d), ReadmeFailed(if err.Some? then OsErrorText(err.value) else README_CONTENT_UNDEFINED))
  }

  /** The handlers of extract_all for an OSError: FileNotFoundError is reported as a missing archive. */
  function HandleOsError(jsonPath: string, e: OsError): string
  {
    if IsFileNotFound(e) then JsonNotFound(jsonPath) else Unexpected(OsErrorText(e))
  }

  /** How far a run gets: stopped with False, or through the extra files with success_count. */
  datatype Stage = Stopped(session: Session) | Reached(session: Session, count: nat)

  /** extract_all up to and including the .env.example file (lines 182-202). */
  function MainPhase(jsonPath: string, out: string, s: Session, loaded: Loaded): Stage
  {
    match loaded
    case NotFound => Stopped(AddError(s, JsonNotFound(jsonPath)))
    case Malformed(detail) => Stopped(AddError(s, InvalidJson(detail)))
    case Parsed(data) =>
      match Validation(data)
      case Raises(x) => Stopped(AddError(s, Unexpected(x)))
      case Invalid(m) => Stopped(AddError(s, m))
      case Valid => ExtractPhase(jsonPath, out, s, data)
  }

  /** A validated archive: create the output directory, then run the loop. */
  function ExtractPhase(jsonPath: string, out: string, s: Session, data: Json): Stage
  {
    var (s1, dirError) := DirectoryStep(s, out);
    if dirError.Some? then Stopped(AddError(s1, HandleOsError(jsonPath, dirError.value)))
    else FinishPhase(out, EntriesStep(StartProgress(s1), out, ArchiveEntries(data)), data)
  }

  function StartProgress(s: Session): Progress
  {
    Progress(s.disk, s.extracted, s.errors, 0, None)
  }

  /** After the loop: package.json and .env.example, unless an exception escaped. */
  function FinishPhase(out: string, p: Progress, data: Json): Stage
  {
    var s2 := Session(p.disk, p.extracted, p.errors);
    if p.raised.Some? then Stopped(AddError(s2, Unexpected(p.raised.value)))
    else
      var (s3, packageError) := PackageStep(s2, out, ArchiveFields(data));
      if packageError.Some? then Stopped(AddError(s3, Unexpected(packageError.value)))
      else Reached(EnvStep(s3, out), p.count)
  }

  /**
    extract_all as written: after the extra files it writes README.md and
    calls create_readme, which does not exist; the AttributeError is caught
    by the generic handler.
  */
  function ExtractionAsWritten(jsonPath: string, out: string, s: Session, loaded: Loaded): (Session, bool)
  {
    match MainPhase(jsonPath, out, s, loaded)
    case Stopped(s1) => (s1, false)
    case Reached(s1, _) => (AddError(ReadmeStepAsWritten(s1, out), Unexpected(NO_CREATE_README)), false)
  }

  /** extract_all without the broken README tail: True exactly when no error was recorded. */
  function Extraction(jsonPath: string, out: string, s: Session, loaded: Loaded): (Session, bool)
  {
    match MainPhase(jsonPath, out, s, loaded)
    case Stopped(s1) => (s1, false)
    case Reached(s1, _) => (s1, s1.errors == [])
  }

  /** The message a failed validation leaves: its own, or the generic handler's for an exception. */
  function Rejection(v: Verdict): string
  {
    match v
    case Invalid(m) => m
    case Raises(x) => Unexpected(x)
    case Valid => ""
  }

  /**
    A run whose archive fails validation writes nothing, creates no
    directory, extracts nothing, appends exactly one error and returns False.
  */
  lemma ValidationGate(jsonPath: string, out: string, s: Session, data: Json)
    requires Validation(data) != Valid
    ensures MainPhase(jsonPath, out, s, Parsed(data)) == Stopped(AddError(s, Rejection(Validation(data))))
    ensures Extraction(jsonPath, out, s, Parsed(data)) == (AddError(s, Rejection(Validation(data))), false)
    ensures ExtractionAsWritten(jsonPath, out, s, Parsed(data)) == (AddError(s, Rejection(Validation(data))), false)
  {
  }

  /** The steps after the loop lose no error and extract nothing more. */
  lemma FinishPhaseKeeps(out: string, p: Progress, data: Json)
    ensures var st := FinishPhase(out, p, data);
      && p.errors <= st.session.errors
      && st.session.extracted == p.extracted
      && (st.Stopped? ==> |st.session.errors| > |p.errors|)
      && (st.Reached? ==> st.count == p.count && p.raised.None?)
  {
  }

  /** Every run loses no earlier error, and one that stops early has recorded a new one. */
  lemma MainPhaseKeepsErrors(jsonPath: string, out: string, s: Session, loaded: Loaded)
    ensures var st := MainPhase(jsonPath, out, s, loaded);
      && s.errors <= st.session.errors
      && s.extracted <= st.session.extracted
      && (st.Stopped? ==> |st.session.errors| > |s.errors|)
  {
    if loaded.Parsed? && Validation(loaded.data) == Valid {
      var (s1, dirError) := DirectoryStep(s, out);
      if dirError.None? {
        var p0 := StartProgress(s1);
        EntriesBookkeeping(p0, out, ArchiveEntries(loaded.data));
        FinishPhaseKeeps(out, EntriesStep(p0, out, ArchiveEntries(loaded.data)), loaded.data);
      }
    }
  }

  /**
    A run that gets through the extra files validated its archive, appended
    success_count paths to extracted_files, at most one per entry and in
    archive order, and lost no earlier error.
  */
  lemma MainPhaseBookkeeping(jsonPath: string, out: string, s: Session, loaded: Loaded)
    requires MainPhase(jsonPath, out, s, loaded).Reached?
    ensures loaded.Parsed? && Validation(loaded.data) == Valid
    ensures var st := MainPhase(jsonPath, out, s, loaded);
      && s.errors <= st.session.errors
      && s.extracted <= st.session.extracted
      && |st.session.extracted| == |s.extracted| + st.count
      && st.count <= |ArchiveEntries(loaded.data)|
      && IsSubsequence(st.session.extracted[|s.extracted|..], PlannedPaths(out, ArchiveEntries(loaded.data)))
  {
    var data := loaded.data;
    var (s1, dirError) := DirectoryStep(s, out);
    var p0 := StartProgress(s1);
    var p := EntriesStep(p0, out, ArchiveEntries(data));
    EntriesBookkeeping(p0, out, ArchiveEntries(data));
    EntriesInArchiveOrder(p0, out, ArchiveEntries(data));
    FinishPhaseKeeps(out, p, data);
  }

  /** As written, extract_all never returns True, and always records an error. */
  lemma AsWrittenNeverSucceeds(jsonPath: string, out: string, s: Session, loaded: Loaded)
    ensures !ExtractionAsWritten(jsonPath, out, s, loaded).1
    ensures |ExtractionAsWritten(jsonPath, out, s, loaded).0.errors| > |s.errors|
    ensures MainPhase(jsonPath, out, s, loaded).Reached? ==>
      var e := ExtractionAsWritten(jsonPath, out, s, loaded).0.errors;
      e[|e| - 1] == Unexpected(NO_CREATE_README)
  {
    MainPhaseKeepsErrors(jsonPath, out, s, loaded);
  }

  /**
    When the corrected run returns True there was no error before and none
    now, every entry was extracted to its planned path in archive order, and
    package.json and .env.example hold their documents.
  */
  lemma ExtractionSucceeds(jsonPath: string, out: string, s: Session, loaded: Loaded)
    requires Extraction(jsonPath, out, s, loaded).1
    ensures loaded.Parsed? && Validation(loaded.data) == Valid
    ensures s.errors == []
    ensures var r := Extraction(jsonPath, out, s, loaded).0;
      var entries := ArchiveEntries(loaded.data);
      && r.errors == []
      && |PlannedPaths(out, entries)| == |entries|
      && r.extracted == s.extracted + PlannedPaths(out, entries)
      && PackageFields(ArchiveFields(loaded.data)).Ok?
      && Join(out, "package.json") in r.disk.files
      && r.disk.files[Join(out, "package.json")] == Manifest(PackageFields(ArchiveFields(loaded.data)).value)
      && Join(out, ".env.example") in r.disk.files
      && r.disk.files[Join(out, ".env.example")] == EnvTemplate
  {
    var data := loaded.data;
    var (s1, dirError) := DirectoryStep(s, out);
    var p0 := StartProgress(s1);
    var p := EntriesStep(p0, out, ArchiveEntries(data));
    EntriesBookkeeping(p0, out, ArchiveEntries(data));
    var s2 := Session(p.disk, p.extracted, p.errors);
    var (s3, packageError) := PackageStep(s2, out, ArchiveFields(data));
    assert s1.errors == [];
    EntriesAllExtracted(p0, out, ArchiveEntries(data));
    ExtraFilesDistinct(out);
  }

  /** package.json and .env.example are two different files of the output directory. */
  lemma ExtraFilesDistinct(out: string)
    ensures Join(out, "package.json") != Join(out, ".env.example")
  {
    if out == "" {
      assert "package.json"[0] != ".env.example"[0];
    } else {
      assert Join(out, "package.json")[|out| + 1] == 'p';
      assert Join(out, ".env.example")[|out| + 1] == '.';
    }
  }

  /**
    An archive on which nothing can fail: a string project with no entries,
    extracted into an output directory that already resolves, where neither
    package.json nor .env.example is a directory or refused by the
    environment. The corrected run returns True; the run as written returns
    False.
  */
  lemma CleanRunSucceedsOnlyWhenCorrected(d: Disk, out: string, project: string)
    requires Reachable(d, out)
    requires Join(out, "package.json") !in d.dirs && Join(out, "package.json") !in d.faults
    requires Join(out, ".env.example") !in d.dirs && Join(out, ".env.example") !in d.faults
    ensures var s := Session(d, [], []);
      var loaded := Parsed(JObj(map["project" := JStr(project), "files" := JArr([])]));
      Extraction("archive.json", out, s, loaded).1 &&
      !ExtractionAsWritten("archive.json", out, s, loaded).1
  {
    var s := Session(d, [], []);
    var data := JObj(map["project" := JStr(project), "files" := JArr([])]);
    ValidationValid(data);
    assert DirectoryStep(s, out) == (s, None);
    assert ArchiveEntries(data) == [];
    assert EntriesStep(StartProgress(s), out, []) == StartProgress(s);
    ExtrasWritten(s, out, ArchiveFields(data));
  }

  /** The clean run of the finding, on the empty disk with "out" as output directory. */
  lemma CleanRunOnEmptyDisk()
    ensures var s := Session(Disk(map[], {}, map[]), [], []);
      var loaded := Parsed(JObj(map["project" := JStr("demo"), "files" := JArr([])]));
      Extraction("archive.json", "out", s, loaded).1 &&
      !ExtractionAsWritten("archive.json", "out", s, loaded).1
  {
    var s := Session(Disk(map[], {}, map[]), [], []);
    var data := JObj(map["project" := JStr("demo"), "files" := JArr([])]);
    ValidationValid(data);
    CleanDirectory();
    var s1 := Session(Disk(map[], {"out"}, map[]), [], []);
    assert ArchiveEntries(data) == [];
    assert EntriesStep(StartProgress(s1), "out", []) == StartProgress(s1);
    JoinNames("out");
    ExtrasWritten(s1, "out", ArchiveFields(data));
  }

  lemma CleanDirectory()
    ensures DirectoryStep(Session(Disk(map[], {}, map[]), [], []), "out") ==
      (Session(Disk(map[], {"out"}, map[]), [], []), None)
  {
    var d := Disk(map[], {}, map[]);
    assert LastIndex("out", '/') == -1;
    assert Parent("out") == "";
    assert ResolveDir(d, Parent("out")) == None;
    assert d.(dirs := d.dirs + {"out"}) == Disk(map[], {"out"}, map[]);
    assert MakeDirStep(d, "out") == (Disk(map[], {"out"}, map[]), None);
  }

  /**
    In an output directory that resolves, where neither package.json nor
    .env.example is a directory or refused by the environment, a project
    whose record can be built gets both files written: the record and the
    template, with no error and nothing else changed.
  */
  lemma ExtrasWritten(s: Session, out: string, fields: map<string, Json>)
    requires PackageFields(fields).Ok?
    requires Reachable(s.disk, out)
    requires Join(out, "package.json") !in s.disk.dirs && Join(out, "package.json") !in s.disk.faults
    requires Join(out, ".env.example") !in s.disk.dirs && Join(out, ".env.example") !in s.disk.faults
    ensures var (s3, packageError) := PackageStep(s, out, fields);
      var s4 := EnvStep(s3, out);
      && packageError.None?
      && s4.errors == s.errors && s4.extracted == s.extracted
      && s4.disk == s.disk.(files := s.disk.files[Join(out, "package.json") := Manifest(PackageFields(fields).value)]
                                                 [Join(out, ".env.example") := EnvTemplate])
  {
    JoinNames(out);
    var (s3, packageError) := PackageStep(s, out, fields);
    assert OpenFault(s.disk, Join(out, "package.json")).None?;
    assert s3.disk.dirs == s.disk.dirs && s3.disk.faults == s.disk.faults;
    // writing a file leaves the directories, and so the resolution of out, alone
    ResolveDirMeaning(s.disk, out);
    ResolveDirMeaning(s3.disk, out);
    assert OpenFault(s3.disk, Join(out, ".env.example")).None?;
  }

  /** Both extra files sit directly in the output directory, and neither is "". */
  lemma JoinNames(out: string)
    ensures Parent(Join(out, "package.json")) == out
    ensures Parent(Join(out, ".env.example")) == out
    ensures Join(out, "package.json") != "" && Join(out, ".env.example") != ""
  {
    assert '/' !in "package.json";
    assert '/' !in ".env.example";
    JoinSplits(out, "package.json");
    JoinSplits(out, ".env.example");
  }
}
