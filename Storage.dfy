/**
  The filesystem the extractor writes to. It stands in for the calls the
  source makes into the operating system: `open(p, 'w')` with `write`, and
  `Path.mkdir(parents=True, exist_ok=True)`. Which paths the environment
  refuses (permissions, a full disk, ...) is part of the state, as `faults`.
*/
module Storage {
  import opened Wrappers
  import opened Strings
  import opened Paths
  import opened PackageJson

  /** What a file holds: text, the package.json record, or the fixed .env.example text. */
  datatype Content = Plain(text: string) | Manifest(package: Package) | EnvTemplate

  /** An errno and its message, as an OSError carries them. */
  datatype Fault = Fault(errno: nat, reason: string)

  /** An OSError raised for one file name. */
  datatype OsError = OsError(fault: Fault, filename: string)

  const NO_SUCH_FILE := Fault(2, "No such file or directory")
  const FILE_EXISTS := Fault(17, "File exists")
  const NOT_A_DIRECTORY := Fault(20, "Not a directory")
  const IS_A_DIRECTORY := Fault(21, "Is a directory")

  /** `str(e)` for an OSError. */
  function OsErrorText(e: OsError): string
  {
    "[Errno " + NatStr(e.fault.errno) + "] " + e.fault.reason + ": '" + e.filename + "'"
  }

  /** `isinstance(e, FileNotFoundError)`. */
  predicate IsFileNotFound(e: OsError) { e.fault.errno == 2 }

  /**
    Regular files with their contents, directories, and the paths at which
    the environment makes creating a file or a directory fail.
  */
  datatype Disk = Disk(files: map<string, Content>, dirs: set<string>, faults: map<string, Fault>)

  /**
    p is the working directory "", which always exists, or is recorded as a
    directory. This is not `Path(p).is_dir()`: that also needs every
    directory above p, which is Reachable.
  */
  predicate InDirs(d: Disk, p: string) { p == "" || p in d.dirs }

  /** p and the directories above it, up to the working directory. */
  function Lineage(p: string): (r: set<string>)
    ensures p != "" ==> p in r
    decreases |p|
  {
    if p == "" then {} else {p} + Lineage(Parent(p))
  }

  /** Every member of Lineage(p) is a non-empty path no longer than p. */
  lemma {:induction false} LineageBounds(p: string)
    ensures forall a :: a in Lineage(p) ==> a != "" && |a| <= |p|
    decreases |p|
  {
    if p != "" {
      LineageBounds(Parent(p));
    }
  }

  /**
    Resolving the directory q, as the kernel does on the way to something
    inside it: its ancestors from the top first, then q itself. A missing
    component gives ENOENT, a regular file in the way ENOTDIR.
  */
  function ResolveDir(d: Disk, q: string): (r: Option<Fault>)
    ensures r.Some? ==> r.value == NOT_A_DIRECTORY || r.value == NO_SUCH_FILE
    decreases |q|
  {
    if q == "" then None
    else
      match ResolveDir(d, Parent(q))
      case Some(f) => Some(f)
      case None =>
        if q in d.dirs then None
        else if q in d.files then Some(NOT_A_DIRECTORY)
        else Some(NO_SUCH_FILE)
  }

  /** q and every directory above it exist: `Path(q).is_dir()`. */
  predicate Reachable(d: Disk, q: string) { ResolveDir(d, q).None? }

  /**
    Resolution succeeds exactly when q and every directory above it are
    directories; ENOTDIR names a regular file on the way, ENOENT a component
    that is neither a directory nor a file.
  */
  lemma {:induction false} ResolveDirMeaning(d: Disk, q: string)
    ensures Reachable(d, q) <==> forall a :: a in Lineage(q) ==> a in d.dirs
    ensures ResolveDir(d, q) == Some(NOT_A_DIRECTORY) ==> exists a :: a in Lineage(q) && a in d.files
    ensures ResolveDir(d, q) == Some(NO_SUCH_FILE) ==> exists a :: a in Lineage(q) && a !in d.dirs && a !in d.files
    decreases |q|
  {
    if q != "" {
      ResolveDirMeaning(d, Parent(q));
    }
  }

  /** Why `open(p, 'w')` fails on d, if it does. */
  function OpenFault(d: Disk, p: string): (r: Option<OsError>)
    ensures r.None? <==> p != "" && Reachable(d, Parent(p)) && p !in d.dirs && p !in d.faults
    ensures r.None? ==> InDirs(d, Parent(p))
    ensures r.Some? ==> r.value.filename == p
    ensures p != "" && Reachable(d, Parent(p)) && p in d.dirs ==> r == Some(OsError(IS_A_DIRECTORY, p))
    ensures p != "" && Reachable(d, Parent(p)) && p !in d.dirs && p in d.faults ==> r == Some(OsError(d.faults[p], p))
  {
    if p == "" then Some(OsError(NO_SUCH_FILE, p))
    else
      match ResolveDir(d, Parent(p))
      case Some(f) => Some(OsError(f, p))
      case None =>
        if p in d.dirs then Some(OsError(IS_A_DIRECTORY, p))
        else if p in d.faults then Some(OsError(d.faults[p], p))
        else None
  }

  /**
    When the directory of p does not resolve, `open` fails naming p with
    ENOTDIR or ENOENT: ENOTDIR only when a regular file stands on the way,
    ENOENT only when a component is missing altogether.
  */
  lemma OpenFaultBlocked(d: Disk, p: string)
    requires p != "" && !Reachable(d, Parent(p))
    ensures var r := OpenFault(d, p);
      && r.Some? && r.value.filename == p
      && (r.value.fault == NOT_A_DIRECTORY || r.value.fault == NO_SUCH_FILE)
      && (r.value.fault == NOT_A_DIRECTORY ==> exists a :: a in Lineage(Parent(p)) && a in d.files)
      && (r.value.fault == NO_SUCH_FILE ==> exists a :: a in Lineage(Parent(p)) && a !in d.dirs && a !in d.files)
  {
    ResolveDirMeaning(d, Parent(p));
  }

  /** `open(p, 'w')`: on success the file exists and is empty. */
  function OpenStep(d: Disk, p: string): (Disk, Option<OsError>)
  {
    match OpenFault(d, p)
    case Some(e) => (d, Some(e))
    case None => (d.(files := d.files[p := Plain("")]), None)
  }

  /** `open(p, 'w')` followed by a write of c. */
  function WriteStep(d: Disk, p: string, c: Content): (r: (Disk, Option<OsError>))
    ensures r.1 == OpenFault(d, p)
    ensures r.0 == if r.1.None? then d.(files := d.files[p := c]) else d
  {
    match OpenFault(d, p)
    case Some(e) => (d, Some(e))
    case None => (d.(files := d.files[p := c]), None)
  }

  /** The write step is the source's two calls: `open(p, 'w')`, then `write` on success. */
  lemma WriteStepIsOpenThenWrite(d: Disk, p: string, c: Content)
    ensures var (d1, e) := OpenStep(d, p);
      WriteStep(d, p, c) == (if e.None? then (d1.(files := d1.files[p := c]), None) else (d1, e))
  {
    var (d1, e) := OpenStep(d, p);
    if e.None? {
      assert d.files[p := Plain("")][p := c] == d.files[p := c];
    }
  }

  /**
    A write succeeds exactly when p is a name, every directory above it
    exists, p is not a directory and the environment does not refuse it.
    Then p holds c and every other path keeps its presence and content;
    otherwise the disk is unchanged.
  */
  lemma WriteStepMeaning(d: Disk, p: string, c: Content)
    ensures var (d1, e) := WriteStep(d, p, c);
      && (e.None? <==>
            p != "" && (forall a :: a in Lineage(Parent(p)) ==> a in d.dirs) && p !in d.dirs && p !in d.faults)
      && (e.None? ==>
            && p in d1.files && d1.files[p] == c
            && (forall q :: q != p ==> (q in d1.files <==> q in d.files))
            && (forall q :: q != p && q in d.files ==> d1.files[q] == d.files[q])
            && d1.dirs == d.dirs && d1.faults == d.faults)
      && (e.Some? ==> d1 == d)
  {
    if p != "" {
      ResolveDirMeaning(d, Parent(p));
    }
  }

  /**
    One `os.mkdir(p)`: the parent must resolve, p must not exist yet, and
    the environment must not refuse p. Only p is ever added. The working
    directory "" is never passed: MakeDirsStep stops before it.
  */
  function MakeDirStep(d: Disk, p: string): (r: (Disk, Option<Fault>))
    requires p != ""
    ensures r.0.files == d.files && r.0.faults == d.faults
    ensures r.0.dirs == if r.1.None? then d.dirs + {p} else d.dirs
    ensures r.1.None? <==>
      Reachable(d, Parent(p)) && p !in d.dirs && p !in d.files && p !in d.faults
  {
    match ResolveDir(d, Parent(p))
    case Some(f) => (d, Some(f))
    case None =>
      if p in d.dirs || p in d.files then (d, Some(FILE_EXISTS))
      else if p in d.faults then (d, Some(d.faults[p]))
      else (d.(dirs := d.dirs + {p}), None)
  }

  /**
    `Path(p).mkdir(parents=True, exist_ok=True)` as CPython 3.12 runs it:
    `os.mkdir(p)`; on FileNotFoundError (chosen by errno ENOENT alone,
    whatever the message) the parent is created the same way
    (its error escapes as it is) and `os.mkdir(p)` is tried once more; any
    other OSError is ignored when p is a directory after all. A failure
    further down leaves the directories created above it in place.
  */
  function MakeDirsStep(d: Disk, p: string): (r: (Disk, Option<OsError>))
    ensures r.0.files == d.files && r.0.faults == d.faults
    ensures d.dirs <= r.0.dirs <= d.dirs + Lineage(p)
    ensures r.1.None? ==> InDirs(r.0, p)
    ensures r.1.Some? ==> r.1.value.filename in Lineage(p)
    ensures Reachable(d, p) ==> r == (d, None)
    decreases |p|
  {
    if p == "" then (d, None)
    else
      var (d1, f) := MakeDirStep(d, p);
      if f.None? then (d1, None)
      else if f.value.errno == NO_SUCH_FILE.errno then
        var (d2, e) := MakeDirsStep(d, Parent(p));
        if e.Some? then (d2, e)
        else
          var (d3, g) := MakeDirStep(d2, p);
          if g.None? || Reachable(d2, p) then (d3, None) else (d3, Some(OsError(g.value, p)))
      else if Reachable(d, p) then (d, None)
      else (d, Some(OsError(f.value, p)))
  }

  /** Adding directories and keeping the files never makes a reachable directory unreachable. */
  lemma {:induction false} ReachableGrows(d: Disk, e: Disk, q: string)
    requires d.dirs <= e.dirs && e.files == d.files
    requires Reachable(d, q)
    ensures Reachable(e, q)
    decreases |q|
  {
    if q != "" {
      ReachableGrows(d, e, Parent(q));
    }
  }

  /** After a successful `mkdir(parents=True)`, p and every directory above it resolve. */
  lemma {:induction false} MakeDirsReaches(d: Disk, p: string)
    requires MakeDirsStep(d, p).1.None?
    ensures Reachable(MakeDirsStep(d, p).0, p)
    decreases |p|
  {
    if p != "" && !Reachable(d, p) {
      var (d1, f) := MakeDirStep(d, p);
      if f.None? {
        ReachableGrows(d, d1, Parent(p));
      } else if f.value.errno == NO_SUCH_FILE.errno {
        var (d2, e) := MakeDirsStep(d, Parent(p));
        MakeDirsReaches(d, Parent(p));
        var (d3, g) := MakeDirStep(d2, p);
        if g.None? {
          ReachableGrows(d2, d3, Parent(p));
        }
      }
    }
  }

  /**
    `mkdir(parents=True)` succeeds when neither p nor any directory above it
    is a regular file or refused by the environment.
  */
  lemma {:induction false} MakeDirsSucceeds(d: Disk, p: string)
    requires forall a :: a in Lineage(p) ==> a !in d.files && a !in d.faults
    ensures MakeDirsStep(d, p).1.None?
    decreases |p|
  {
    if p != "" {
      var (d1, f) := MakeDirStep(d, p);
      if f.Some? && f.value.errno == NO_SUCH_FILE.errno {
        assert Lineage(Parent(p)) <= Lineage(p);
        MakeDirsSucceeds(d, Parent(p));
        MakeDirsReaches(d, Parent(p));
      } else if f.Some? {
        assert Lineage(Parent(p)) <= Lineage(p);
        ResolveDirMeaning(d, Parent(p));
      }
    }
  }

  /** A regular file above the missing parent makes `mkdir` fail at once, naming p itself. */
  lemma FileAboveBlocksMakeDirs(d: Disk, p: string)
    requires p != "" && ResolveDir(d, Parent(p)) == Some(NOT_A_DIRECTORY)
    ensures MakeDirsStep(d, p) == (d, Some(OsError(NOT_A_DIRECTORY, p)))
  {
    assert !Reachable(d, p);
  }

  /**
    A directory the environment refuses, below a parent that resolves,
    fails with the environment's own error and creates nothing, whatever
    its errno: an ENOENT refusal goes through the retry and fails again.
  */
  lemma MakeDirsRefused(d: Disk, p: string)
    requires p != "" && Reachable(d, Parent(p))
    requires p !in d.dirs && p !in d.files && p in d.faults
    ensures MakeDirsStep(d, p) == (d, Some(OsError(d.faults[p], p)))
  {
    assert !Reachable(d, p);
  }

  /** The filesystem as mutable state; State() is its current value. */
  class FileSystem {
    var files: map<string, Content>
    var dirs: set<string>
    const faults: map<string, Fault>

    constructor (files: map<string, Content>, dirs: set<string>, faults: map<string, Fault>)
      ensures State() == Disk(files, dirs, faults)
    {
      this.files := files;
      this.dirs := dirs;
      this.faults := faults;
    }

    function State(): Disk
      reads this
    {
      Disk(files, dirs, faults)
    }

    /** `open(p, 'w')`. */
    method Open(p: string) returns (err: Option<OsError>)
      modifies this
      ensures (State(), err) == OpenStep(old(State()), p)
    {
      err := OpenFault(State(), p);
      if err.None? {
        files := files[p := Plain("")];
      }
    }

    /** `f.write(c)` on the file just opened at p. */
    method Write(p: string, c: Content)
      modifies this
      ensures State() == old(State()).(files := old(files)[p := c])
    {
      files := files[p := c];
    }

    /** `Path(p).mkdir(parents=True, exist_ok=True)`. */
    method MakeDirs(p: string) returns (err: Option<OsError>)
      modifies this
      ensures (State(), err) == MakeDirsStep(old(State()), p)
    {
      var r := MakeDirsStep(State(), p);
      dirs := r.0.dirs;
      err := r.1;
    }
  }
}
