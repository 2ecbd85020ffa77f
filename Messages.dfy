/**
  The texts the extractor appends to its error list
  (subscription/extractor.py), and the texts of the Python exceptions whose
  `str()` ends up in them (CPython 3.12 wording).
*/
module Messages {
  import opened Strings

  // validate_json_structure
  const MISSING_KEYS := "Missing required keys: ['project', 'files']"
  const FILES_NOT_LIST := "'files' must be a list"
  const FILE_KEYS_TAIL := " missing required keys: ['name', 'content', 'suffix']"
  const FILE_HEAD := "File "

  function FileMissingKeys(index: nat): string
  {
    FILE_HEAD + NatStr(index) + FILE_KEYS_TAIL
  }

  /** The index named by a FileMissingKeys message: the numeral between head and tail. */
  function NamedIndex(message: string): nat
    requires |FILE_HEAD| + |FILE_KEYS_TAIL| <= |message|
    requires AllDigits(message[|FILE_HEAD|..|message| - |FILE_KEYS_TAIL|])
  {
    ParseNat(message[|FILE_HEAD|..|message| - |FILE_KEYS_TAIL|])
  }

  /** The message for entry i names i. */
  lemma FileMissingKeysNamesIndex(i: nat)
    ensures var m := FileMissingKeys(i);
      |FILE_HEAD| + |FILE_KEYS_TAIL| <= |m| &&
      m[|FILE_HEAD|..|m| - |FILE_KEYS_TAIL|] == NatStr(i) &&
      NamedIndex(m) == i
  {
    var m := FileMissingKeys(i);
    assert m[|FILE_HEAD|..|m| - |FILE_KEYS_TAIL|] == NatStr(i);
    ParseNatStr(i);
  }

  /** Different entries get different messages. */
  lemma FileMissingKeysInjective(i: nat, j: nat)
    requires FileMissingKeys(i) == FileMissingKeys(j)
    ensures i == j
  {
    FileMissingKeysNamesIndex(i);
    FileMissingKeysNamesIndex(j);
  }

  /** The three validation messages never coincide. */
  lemma ValidationMessagesDistinct(i: nat)
    ensures MISSING_KEYS != FILES_NOT_LIST
    ensures MISSING_KEYS != FileMissingKeys(i)
    ensures FILES_NOT_LIST != FileMissingKeys(i)
  {
    assert MISSING_KEYS[0] == 'M' && FILES_NOT_LIST[0] == '\'' && FileMissingKeys(i)[0] == 'F';
  }

  // extract_file, create_directory_structure, create_package_json,
  // create_env_template and the handlers of extract_all
  function ExtractFailed(name: string, cause: string): string
  {
    "Failed to extract file " + name + ": " + cause
  }

  function DirectoryFailed(directory: string, cause: string): string
  {
    "Failed to create directory " + directory + ": " + cause
  }

  function PackageFailed(cause: string): string { "Failed to create package.json: " + cause }

  function EnvFailed(cause: string): string { "Failed to create .env.example: " + cause }

  function ReadmeFailed(cause: string): string { "Failed to create README.md: " + cause }

  function JsonNotFound(jsonPath: string): string { "JSON file not found: " + jsonPath }

  function InvalidJson(detail: string): string { "Invalid JSON format: " + detail }

  function Unexpected(cause: string): string { "Unexpected error: " + cause }

  // str() of the Python exceptions raised on the way
  function NotIterable(typeName: string): string
  {
    "argument of type '" + typeName + "' is not iterable"
  }

  const LIST_INDEX_ERROR := "list indices must be integers or slices, not str"
  const STR_INDEX_ERROR := "string indices must be integers, not 'str'"

  function NoAttribute(typeName: string, attribute: string): string
  {
    "'" + typeName + "' object has no attribute '" + attribute + "'"
  }

  function KeyErrorText(key: string): string { "'" + key + "'" }

  function PathDivisionError(typeName: string): string
  {
    "unsupported operand type(s) for /: 'PosixPath' and '" + typeName + "'"
  }

  /** The TypeError of `write` for a non-string argument, named as Json.ArgumentName names it. */
  function WriteArgumentError(shown: string): string
  {
    "write() argument must be str, not " + shown
  }

  const README_CONTENT_UNDEFINED := "name 'readme_content' is not defined"
  const NO_CREATE_README := "'FileExtractor' object has no attribute 'create_readme'"
}
