/**
  The variable part of the package.json record that create_package_json
  builds from the archive's top-level object: the lower-cased project name,
  the version and the description, each with its default.
*/
module PackageJson {
  import opened Wrappers
  import opened Strings
  import opened Json
  import opened Messages

  const DEFAULT_NAME := "ezunder"
  const DEFAULT_VERSION := "1.0.0"
  const DEFAULT_DESCRIPTION := "eZunder ePublishing Platform"

  /**
    The record written to package.json. Its constant parts ("private": true,
    the dependency, script, eslint, browserslist and devDependency blocks)
    are the same for every archive and are not carried.
  */
  datatype Package = Package(name: string, version: Json, description: Json)

  /**
    `name`, `version` and `description` of the record, or the text of the
    AttributeError that `.lower()` raises when `project` is not a string.
  */
  function PackageFields(archive: map<string, Json>): Result<Package, string>
  {
    var project := Get(archive, "project", JStr(DEFAULT_NAME));
    if project.JStr? then
      Ok(Package(Lower(project.s),
                 Get(archive, "version", JStr(DEFAULT_VERSION)),
                 Get(archive, "description", JStr(DEFAULT_DESCRIPTION))))
    else
      Err(NoAttribute(TypeName(project), "lower"))
  }

  /** A string project value gives a record named by its lower-cased form. */
  lemma PackageNameIsLowercasedProject(archive: map<string, Json>)
    requires "project" in archive && archive["project"].JStr?
    ensures PackageFields(archive).Ok?
    ensures PackageFields(archive).value.name == Lower(archive["project"].s)
    ensures NoUpper(PackageFields(archive).value.name)
  {
    LowerHasNoUpper(archive["project"].s);
  }

  /** Missing fields take their defaults; a present field is taken as it is. */
  lemma PackageDefaults(archive: map<string, Json>)
    requires "project" !in archive || archive["project"].JStr?
    ensures PackageFields(archive).Ok?
    ensures "project" !in archive ==> PackageFields(archive).value.name == DEFAULT_NAME
    ensures PackageFields(archive).value.version ==
      (if "version" in archive then archive["version"] else JStr(DEFAULT_VERSION))
    ensures PackageFields(archive).value.description ==
      (if "description" in archive then archive["description"] else JStr(DEFAULT_DESCRIPTION))
  {
    if "project" !in archive {
      assert NoUpper(DEFAULT_NAME);
      LowerKeeps(DEFAULT_NAME);
    }
  }

  /** A project value that is not a string makes `.lower()` raise. */
  lemma PackageRejectsNonString(archive: map<string, Json>)
    requires "project" in archive && !archive["project"].JStr?
    ensures PackageFields(archive) == Err(NoAttribute(TypeName(archive["project"]), "lower"))
  {
  }
}
