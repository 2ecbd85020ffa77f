/**
  Path composition as extract_file does it with pathlib: the target of an
  entry is `<out>/<path>/<name>.<suffix>`, or `<out>/<name>.<suffix>` when the
  entry has no path. Paths are relative strings of '/'-separated segments;
  "" is the working directory.
*/
module Paths {
  import opened Strings

  /** `Path(directory) / segment`; below the working directory "" the segment stands alone. */
  function Join(directory: string, segment: string): string
  {
    if directory == "" then segment else directory + "/" + segment
  }

  /** The f-string `f"{name}.{suffix}"`. */
  function FileName(name: string, suffix: string): string
  {
    name + "." + suffix
  }

  /** The directory an entry goes to: the output directory, or its `path` below it. */
  function TargetDir(out: string, path: string): string
  {
    if path == "" then out else Join(out, path)
  }

  /** The file an entry is written to (subscription/extractor.py:59-64). */
  function TargetPath(out: string, path: string, name: string, suffix: string): string
  {
    Join(TargetDir(out, path), FileName(name, suffix))
  }

  /** `Path(p).parent`: everything before the last '/'. */
  function Parent(p: string): (q: string)
    ensures p != "" ==> |q| < |p|
  {
    var k := LastIndex(p, '/');
    if k < 0 then "" else p[..k]
  }

  /** `Path(p).name`: everything after the last '/'. */
  function BaseName(p: string): string
  {
    p[LastIndex(p, '/') + 1..]
  }

  /** Joining a segment without '/' can be undone by Parent and BaseName. */
  lemma JoinSplits(directory: string, segment: string)
    requires '/' !in segment
    ensures Parent(Join(directory, segment)) == directory
    ensures BaseName(Join(directory, segment)) == segment
  {
    if directory == "" {
      assert LastIndex(segment, '/') == -1;
    } else {
      LastIndexAtJoint(directory, '/', segment);
      assert directory + "/" + segment == directory + ['/'] + segment;
    }
  }

  /**
    The target lies in TargetDir and is called name.suffix, provided name and
    suffix hold no '/'; in particular `path` adds a directory level exactly
    when it is non-empty.
  */
  lemma TargetPathParts(out: string, path: string, name: string, suffix: string)
    requires '/' !in name && '/' !in suffix
    ensures Parent(TargetPath(out, path, name, suffix)) == TargetDir(out, path)
    ensures BaseName(TargetPath(out, path, name, suffix)) == FileName(name, suffix)
    ensures path != "" ==> Parent(TargetPath(out, path, name, suffix)) == Join(out, path)
    ensures path == "" ==> Parent(TargetPath(out, path, name, suffix)) == out
    ensures out == "" && path == "" ==> TargetPath(out, path, name, suffix) == FileName(name, suffix)
  {
    var f := FileName(name, suffix);
    assert f == name + ['.'] + suffix;
    assert '/' !in f by {
      forall i | 0 <= i < |f| ensures f[i] != '/' {
        if i < |name| { assert f[i] == name[i]; }
        else if i > |name| { assert f[i] == suffix[i - |name| - 1]; }
      }
    }
    JoinSplits(TargetDir(out, path), f);
  }

  /**
    Name and suffix are joined by exactly one '.': when the suffix holds no
    '.', the last '.' of the file name sits right after the name, and the
    text on either side of it is the name and the suffix.
  */
  lemma FileNameParts(name: string, suffix: string)
    requires '.' !in suffix
    ensures var f := FileName(name, suffix);
      LastIndex(f, '.') == |name| && f[..|name|] == name && f[|name| + 1..] == suffix
  {
    LastIndexAtJoint(name, '.', suffix);
    assert name + "." + suffix == name + ['.'] + suffix;
  }
}
