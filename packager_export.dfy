/**
 * The patched Packager.ExportPackage: when the selection contains package
 * assets, the set of project-relative paths to pack is built here instead of
 * by the Asset Store tools. It holds every selected asset plus, for each
 * package root, the files of its hidden `~` folders that survive the fixed
 * filters and, when the upload config asks for it, the package's ignore
 * files.
 */
module PackagerExport {
  import opened Text
  import opened Outcomes
  import opened FileTree
  import opened PackagePaths
  import opened IgnoreRules

  /** `defaultNpmIgnore`, compared literally against a file's name by HashSet.Contains. */
  const DefaultNpmIgnore: set<string> := {
    ".*.swp", "._*", ".DS_Store", ".git", ".hg", ".npmrc",
    ".lock-wscript", ".svn", ".wafpickle-*", "config.gypi", "CVS", "npm-debug.log"
  }

  /** FileInfo.Extension: from the last '.' of the name; "" without one or when it ends the name. */
  function Extension(name: string): (e: string)
    ensures e == [] || (|e| >= 2 && e[0] == '.' && '.' !in e[1..] && EndsWith(name, e))
    ensures e == [] <==> '.' !in name || name[|name| - 1] == '.'
  {
    var i := LastIndexOf(name, '.');
    if i < 0 || i == |name| - 1 then ""
    else
      assert name[i..][1..] == name[i + 1..];
      name[i..]
  }

  /** `file.Extension.EndsWith(".meta", OrdinalIgnoreCase)`. */
  predicate IsMetaFile(name: string) {
    EndsWithIgnoreCase(Extension(name), ".meta")
  }

  /** A folder the sweep descends into: not a dot-folder, and ending in `~`. */
  predicate IsHiddenFolderName(name: string) {
    !StartsWith(name, ".") && EndsWith(name, "~")
  }

  // ---- the sweep of one package root ------------------------------------------

  /**
   * Which ignore test a sweep applies: the exporter's own (a raw prefix test
   * over the rule list CollectIgnoreFiles leaves behind), or the intended one
   * its comments describe (folder containment over the corrected list).
   */
  datatype IgnoreMode = AsWritten | Intended

  /** The context of one root's sweep. */
  datatype Sweep = Sweep(project: Project, root: string, rules: seq<RuleSet>, respectIgnoreFiles: bool,
                         matches: Matcher, mode: IgnoreMode)
  {
    /** `Path.GetFullPath(root)`. */
    function Full(): string {
      FullPath(project, root)
    }
  }

  /** The ignore test of one file path under the sweep's mode. */
  function IgnoreTest(s: Sweep, path: string): Outcome<bool> {
    match s.mode
    case AsWritten => IgnoredAsWritten(s.rules, s.matches, ReplaceAll(path, "\\", "/"))
    case Intended => Ok(Ignored(s.rules, s.matches, path))
  }

  /**
   * The file filters in the exporter's order: the npm defaults, `.meta`, then
   * the ignore files when the upload config asks for them.
   */
  function Keep(s: Sweep, f: File): Outcome<bool> {
    if NameOf(f.path) in DefaultNpmIgnore || IsMetaFile(NameOf(f.path)) then Ok(false)
    else if !s.respectIgnoreFiles then Ok(true)
    else
      match IgnoreTest(s, f.path)
      case Throws(e) => Throws(e)
      case Ok(ignored) => Ok(!ignored)
  }

  /** `file.FullName.Replace(fullPath, root)`. */
  function ExportPathOf(s: Sweep, f: File): string {
    ReplaceAll(f.path, s.Full(), s.root)
  }

  /** What one listed file adds to the export paths of hidden folder `dir`. */
  function PickedFrom(s: Sweep, dir: string, f: File): Outcome<set<string>> {
    if !IsUnder(f.path, dir) then Ok({})
    else
      match Keep(s, f)
      case Throws(e) => Throws(e)
      case Ok(keep) => Ok(if keep then {ExportPathOf(s, f)} else {})
  }

  /** The swept paths of hidden folder `dir`, over the listed files. */
  function KeptIn(s: Sweep, dir: string, files: seq<File>): Outcome<set<string>> {
    UnionAll(files, f => PickedFrom(s, dir, f))
  }

  /** The union of the outcomes of `part` over `xs` in order, or the first exception. */
  function UnionAll<T>(xs: seq<T>, part: T -> Outcome<set<string>>): Outcome<set<string>>
    decreases |xs|
  {
    if xs == [] then Ok({})
    else
      match UnionAll(xs[..|xs| - 1], part)
      case Throws(e) => Throws(e)
      case Ok(acc) =>
        match part(xs[|xs| - 1])
        case Throws(e) => Throws(e)
        case Ok(v) => Ok(acc + v)
  }

  /**
   * A union fails exactly when some part fails, with the exception of one of
   * them; otherwise it holds exactly what some part holds.
   */
  lemma {:induction false} UnionMeaning<T>(xs: seq<T>, part: T -> Outcome<set<string>>)
    ensures UnionAll(xs, part).Throws? ==>
      exists k :: 0 <= k < |xs| && part(xs[k]) == Throws(UnionAll(xs, part).error)
    ensures UnionAll(xs, part).Ok? <==> forall k :: 0 <= k < |xs| ==> part(xs[k]).Ok?
    ensures UnionAll(xs, part).Ok? ==> forall p :: p in UnionAll(xs, part).value <==>
      exists k :: 0 <= k < |xs| && p in part(xs[k]).value
    decreases |xs|
  {
    if xs != [] {
      var init := xs[..|xs| - 1];
      UnionMeaning(init, part);
      assert forall k :: 0 <= k < |init| ==> init[k] == xs[k];
    }
  }

  /** One more part: its outcome is added, or its exception is the union's. */
  lemma UnionAllStep<T>(xs: seq<T>, part: T -> Outcome<set<string>>, i: nat, acc: set<string>)
    requires i < |xs| && UnionAll(xs[..i], part) == Ok(acc)
    ensures part(xs[i]).Ok? ==> UnionAll(xs[..i + 1], part) == Ok(acc + part(xs[i]).value)
    ensures part(xs[i]).Throws? ==> UnionAll(xs, part) == Throws(part(xs[i]).error)
  {
    assert xs[..i + 1][..i] == xs[..i];
    if part(xs[i]).Throws? {
      UnionAllKeepsThrow(xs, part, i + 1);
    }
  }

  lemma {:induction false} UnionAllKeepsThrow<T>(xs: seq<T>, part: T -> Outcome<set<string>>, n: nat)
    requires n <= |xs| && UnionAll(xs[..n], part).Throws?
    ensures UnionAll(xs, part) == UnionAll(xs[..n], part)
    decreases |xs| - n
  {
    if n < |xs| {
      assert xs[..n + 1][..n] == xs[..n];
      UnionAllKeepsThrow(xs, part, n + 1);
    } else {
      assert xs[..n] == xs;
    }
  }

  /** Unions of parts that agree on every element agree. */
  lemma {:induction false} UnionAllCongruent<T>(xs: seq<T>, p1: T -> Outcome<set<string>>, p2: T -> Outcome<set<string>>)
    requires forall k :: 0 <= k < |xs| ==> p1(xs[k]) == p2(xs[k])
    ensures UnionAll(xs, p1) == UnionAll(xs, p2)
    decreases |xs|
  {
    if xs != [] {
      var init := xs[..|xs| - 1];
      assert forall k :: 0 <= k < |init| ==> init[k] == xs[k];
      UnionAllCongruent(init, p1, p2);
    }
  }

  /**
   * The files of hidden folder `dir` fail the sweep exactly when the ignore
   * test of one of them throws; otherwise a path is kept from `dir` exactly
   * when some file under `dir` passes the filters and maps to it.
   */
  lemma KeptInMembers(s: Sweep, dir: string, files: seq<File>, p: string)
    ensures KeptIn(s, dir, files).Throws? <==>
      exists j :: 0 <= j < |files| && IsUnder(files[j].path, dir) && Keep(s, files[j]).Throws?
    ensures KeptIn(s, dir, files).Ok? ==> (p in KeptIn(s, dir, files).value <==>
      exists j :: 0 <= j < |files| && IsUnder(files[j].path, dir) && Keep(s, files[j]) == Ok(true)
        && p == ExportPathOf(s, files[j]))
  {
    UnionMeaning(files, f => PickedFrom(s, dir, f));
    forall j | 0 <= j < |files|
      ensures PickedFrom(s, dir, files[j]).Throws? <==> IsUnder(files[j].path, dir) && Keep(s, files[j]).Throws?
      ensures PickedFrom(s, dir, files[j]).Ok? ==> (p in PickedFrom(s, dir, files[j]).value <==>
        IsUnder(files[j].path, dir) && Keep(s, files[j]) == Ok(true) && p == ExportPathOf(s, files[j]))
    {
    }
  }

  lemma KeptInStep(s: Sweep, dir: string, files: seq<File>, j: nat, acc: set<string>)
    requires j < |files| && KeptIn(s, dir, files[..j]) == Ok(acc)
    ensures PickedFrom(s, dir, files[j]).Ok? ==>
      KeptIn(s, dir, files[..j + 1]) == Ok(acc + PickedFrom(s, dir, files[j]).value)
    ensures PickedFrom(s, dir, files[j]).Throws? ==> KeptIn(s, dir, files) == Throws(PickedFrom(s, dir, files[j]).error)
  {
    UnionAllStep(files, f => PickedFrom(s, dir, f), j, acc);
  }

  /** A directory the sweep of `s` enumerates and descends into. */
  predicate IsSweptDir(s: Sweep, d: Dir) {
    IsUnder(d.path, s.Full()) && IsHiddenFolderName(NameOf(d.path))
  }

  /** What one listed directory adds to the root's export paths. */
  function SweptDir(s: Sweep, d: Dir, files: seq<File>): Outcome<set<string>> {
    if IsSweptDir(s, d) then KeptIn(s, d.path, files) else Ok({})
  }

  /** The swept paths of every hidden folder among `dirs`. */
  function SweptIn(s: Sweep, dirs: seq<Dir>, files: seq<File>): Outcome<set<string>> {
    UnionAll(dirs, d => SweptDir(s, d, files))
  }

  /**
   * The hidden folders fail the sweep exactly when one of them does;
   * otherwise a path is swept exactly when it is kept from some hidden folder
   * below the root.
   */
  lemma SweptInMembers(s: Sweep, dirs: seq<Dir>, files: seq<File>, p: string)
    ensures SweptIn(s, dirs, files).Throws? <==>
      exists i :: 0 <= i < |dirs| && IsSweptDir(s, dirs[i]) && KeptIn(s, dirs[i].path, files).Throws?
    ensures SweptIn(s, dirs, files).Ok? ==> (p in SweptIn(s, dirs, files).value <==>
      exists i :: 0 <= i < |dirs| && IsSweptDir(s, dirs[i]) && p in KeptIn(s, dirs[i].path, files).value)
  {
    UnionMeaning(dirs, d => SweptDir(s, d, files));
  }

  lemma SweptInStep(s: Sweep, dirs: seq<Dir>, files: seq<File>, i: nat, acc: set<string>)
    requires i < |dirs| && SweptIn(s, dirs[..i], files) == Ok(acc)
    ensures SweptDir(s, dirs[i], files).Ok? ==>
      SweptIn(s, dirs[..i + 1], files) == Ok(acc + SweptDir(s, dirs[i], files).value)
    ensures SweptDir(s, dirs[i], files).Throws? ==> SweptIn(s, dirs, files) == Throws(SweptDir(s, dirs[i], files).error)
  {
    UnionAllStep(dirs, d => SweptDir(s, d, files), i, acc);
  }

  /** The rule list a sweep of folder `full` consults. */
  function RulesFor(fs: FileSystem, full: string, mode: IgnoreMode): seq<RuleSet> {
    match mode
    case AsWritten => IgnoreRuleSetsAsWritten(fs, full)
    case Intended => IgnoreRuleSets(fs, full)
  }

  /** The sweep context of `root`. */
  function SweepFor(fs: FileSystem, proj: Project, root: string, respectIgnoreFiles: bool, m: Matcher,
                    mode: IgnoreMode): Sweep {
    Sweep(proj, root, RulesFor(fs, FullPath(proj, root), mode), respectIgnoreFiles, m, mode)
  }

  /** The sweep of one package root, whose directory is listed recursively first. */
  function SweepOf(fs: FileSystem, proj: Project, root: string, respectIgnoreFiles: bool, m: Matcher,
                   mode: IgnoreMode): Outcome<set<string>> {
    if !ListableDeep(fs, FullPath(proj, root)) then Throws(DirectoryListing)
    else SweptIn(SweepFor(fs, proj, root, respectIgnoreFiles, m, mode), fs.dirs, fs.files)
  }

  /**
   * A root's sweep fails when its folder cannot be listed, or when the ignore
   * test of a file in one of its hidden folders throws; the intended test
   * never throws.
   */
  lemma SweepOfThrows(fs: FileSystem, proj: Project, root: string, respectIgnoreFiles: bool, m: Matcher,
                      mode: IgnoreMode)
    ensures var s := SweepFor(fs, proj, root, respectIgnoreFiles, m, mode);
      SweepOf(fs, proj, root, respectIgnoreFiles, m, mode).Throws? <==>
        !ListableDeep(fs, FullPath(proj, root)) ||
        exists i, j :: 0 <= i < |fs.dirs| && 0 <= j < |fs.files| && IsSweptDir(s, fs.dirs[i])
          && IsUnder(fs.files[j].path, fs.dirs[i].path) && Keep(s, fs.files[j]).Throws?
    ensures SweepOf(fs, proj, root, respectIgnoreFiles, m, mode).Throws? ==>
      SweepOf(fs, proj, root, respectIgnoreFiles, m, mode).error in {DirectoryListing, SubstringOutOfRange}
    ensures mode == Intended ==>
      (SweepOf(fs, proj, root, respectIgnoreFiles, m, mode).Throws? <==> !ListableDeep(fs, FullPath(proj, root)))
  {
    var s := SweepFor(fs, proj, root, respectIgnoreFiles, m, mode);
    var dirs, files := fs.dirs, fs.files;
    SweptInMembers(s, dirs, files, "");
    forall i | 0 <= i < |dirs| && IsSweptDir(s, dirs[i])
      ensures KeptIn(s, dirs[i].path, files).Throws? <==>
        exists j :: 0 <= j < |files| && IsUnder(files[j].path, dirs[i].path) && Keep(s, files[j]).Throws?
    {
      KeptInMembers(s, dirs[i].path, files, "");
    }
    if SweptIn(s, dirs, files).Throws? {
      ThrowsAreSubstring(s, dirs, files);
    }
    if mode == Intended {
      forall j | 0 <= j < |files|
        ensures !Keep(s, files[j]).Throws?
      {
      }
    }
  }

  /** The only exception a hidden folder's files raise is the ignore test's Substring failure. */
  lemma ThrowsAreSubstring(s: Sweep, dirs: seq<Dir>, files: seq<File>)
    requires SweptIn(s, dirs, files).Throws?
    ensures SweptIn(s, dirs, files).error == SubstringOutOfRange
  {
    var e := SweptIn(s, dirs, files).error;
    UnionMeaning(dirs, d => SweptDir(s, d, files));
    var i :| 0 <= i < |dirs| && SweptDir(s, dirs[i], files) == Throws(e);
    var dir := dirs[i].path;
    assert KeptIn(s, dir, files) == Throws(e);
    UnionMeaning(files, f => PickedFrom(s, dir, f));
    var j :| 0 <= j < |files| && PickedFrom(s, dir, files[j]) == Throws(e);
    KeepThrows(s, files[j]);
  }

  /** A file's filters throw only in the as-written ignore test, and only its Substring failure. */
  lemma KeepThrows(s: Sweep, f: File)
    ensures Keep(s, f).Throws? ==> s.mode == AsWritten && Keep(s, f).error == SubstringOutOfRange
  {
  }

  /** `p` is among the paths swept from `root`. */
  predicate InSweep(fs: FileSystem, proj: Project, root: string, respectIgnoreFiles: bool, m: Matcher,
                    mode: IgnoreMode, p: string) {
    SweepOf(fs, proj, root, respectIgnoreFiles, m, mode).Ok? && p in SweepOf(fs, proj, root, respectIgnoreFiles, m, mode).value
  }

  /**
   * A path is swept from `root` exactly when some file of a hidden folder
   * below the root's folder passes the filters and maps back to it.
   */
  lemma InSweepMeaning(fs: FileSystem, proj: Project, root: string, respectIgnoreFiles: bool, m: Matcher,
                       mode: IgnoreMode, p: string)
    ensures var s := SweepFor(fs, proj, root, respectIgnoreFiles, m, mode);
      SweepOf(fs, proj, root, respectIgnoreFiles, m, mode).Ok? ==>
      (InSweep(fs, proj, root, respectIgnoreFiles, m, mode, p) <==>
        exists i, j :: 0 <= i < |fs.dirs| && 0 <= j < |fs.files| && IsSweptDir(s, fs.dirs[i])
          && IsUnder(fs.files[j].path, fs.dirs[i].path) && Keep(s, fs.files[j]) == Ok(true)
          && p == ExportPathOf(s, fs.files[j]))
  {
    if SweepOf(fs, proj, root, respectIgnoreFiles, m, mode).Ok? {
      var s := SweepFor(fs, proj, root, respectIgnoreFiles, m, mode);
      SweptInMembers(s, fs.dirs, fs.files, p);
      forall i | 0 <= i < |fs.dirs| && IsSweptDir(s, fs.dirs[i])
        ensures KeptIn(s, fs.dirs[i].path, fs.files).Ok?
        ensures p in KeptIn(s, fs.dirs[i].path, fs.files).value <==>
          exists j :: 0 <= j < |fs.files| && IsUnder(fs.files[j].path, fs.dirs[i].path)
            && Keep(s, fs.files[j]) == Ok(true) && p == ExportPathOf(s, fs.files[j])
      {
        KeptInMembers(s, fs.dirs[i].path, fs.files, p);
      }
    }
  }

  /** Every swept path is project-relative under its package root. */
  lemma SweptPathsUnderRoot(fs: FileSystem, proj: Project, root: string, respectIgnoreFiles: bool, m: Matcher,
                            mode: IgnoreMode)
    requires SweepOf(fs, proj, root, respectIgnoreFiles, m, mode).Ok?
    ensures forall p :: p in SweepOf(fs, proj, root, respectIgnoreFiles, m, mode).value ==> StartsWith(p, root)
  {
    var full := FullPath(proj, root);
    var s := SweepFor(fs, proj, root, respectIgnoreFiles, m, mode);
    forall p | p in SweepOf(fs, proj, root, respectIgnoreFiles, m, mode).value
      ensures StartsWith(p, root)
    {
      InSweepMeaning(fs, proj, root, respectIgnoreFiles, m, mode, p);
      var i, j :| 0 <= i < |fs.dirs| && 0 <= j < |fs.files| && IsSweptDir(s, fs.dirs[i])
        && IsUnder(fs.files[j].path, fs.dirs[i].path) && Keep(s, fs.files[j]) == Ok(true)
        && p == ExportPathOf(s, fs.files[j]);
      IsUnderTrans(fs.files[j].path, fs.dirs[i].path, full);
      ReplaceAllLeading(fs.files[j].path, full, root);
    }
  }

  /**
   * A file the as-written sweep keeps is kept by the intended one too: the
   * as-written list holds every intended rule set, and a file no rule set
   * catches under the raw prefix test is caught by none under containment.
   */
  lemma KeepAsWrittenThenIntended(fs: FileSystem, proj: Project, root: string, respectIgnoreFiles: bool,
                                  m: Matcher, f: File)
    ensures Keep(SweepFor(fs, proj, root, respectIgnoreFiles, m, AsWritten), f) == Ok(true) ==>
      Keep(SweepFor(fs, proj, root, respectIgnoreFiles, m, Intended), f) == Ok(true)
  {
    var full := FullPath(proj, root);
    if Keep(SweepFor(fs, proj, root, respectIgnoreFiles, m, AsWritten), f) == Ok(true)
       && respectIgnoreFiles && NameOf(f.path) !in DefaultNpmIgnore && !IsMetaFile(NameOf(f.path)) {
      IntendedRulesIncluded(fs, full);
      AsWrittenIgnoresAtLeast(IgnoreRuleSets(fs, full), IgnoreRuleSetsAsWritten(fs, full), m, f.path);
    }
  }

  /**
   * The two ignore modes sweep a root alike when the ignore files are not
   * consulted; otherwise an as-written sweep that succeeds keeps no more than
   * the intended one.
   */
  lemma SweepModesCompare(fs: FileSystem, proj: Project, root: string, respectIgnoreFiles: bool, m: Matcher)
    ensures !respectIgnoreFiles ==>
      SweepOf(fs, proj, root, respectIgnoreFiles, m, AsWritten) == SweepOf(fs, proj, root, respectIgnoreFiles, m, Intended)
    ensures SweepOf(fs, proj, root, respectIgnoreFiles, m, AsWritten).Ok? ==>
      SweepOf(fs, proj, root, respectIgnoreFiles, m, Intended).Ok? &&
      SweepOf(fs, proj, root, respectIgnoreFiles, m, AsWritten).value
        <= SweepOf(fs, proj, root, respectIgnoreFiles, m, Intended).value
  {
    var sA := SweepFor(fs, proj, root, respectIgnoreFiles, m, AsWritten);
    var sI := SweepFor(fs, proj, root, respectIgnoreFiles, m, Intended);
    if !respectIgnoreFiles {
      forall i | 0 <= i < |fs.dirs|
        ensures SweptDir(sA, fs.dirs[i], fs.files) == SweptDir(sI, fs.dirs[i], fs.files)
      {
        var dir := fs.dirs[i].path;
        UnionAllCongruent(fs.files, f => PickedFrom(sA, dir, f), f => PickedFrom(sI, dir, f));
      }
      UnionAllCongruent(fs.dirs, d => SweptDir(sA, d, fs.files), d => SweptDir(sI, d, fs.files));
    }
    if SweepOf(fs, proj, root, respectIgnoreFiles, m, AsWritten).Ok? {
      SweepOfThrows(fs, proj, root, respectIgnoreFiles, m, Intended);
      forall p | p in SweepOf(fs, proj, root, respectIgnoreFiles, m, AsWritten).value
        ensures p in SweepOf(fs, proj, root, respectIgnoreFiles, m, Intended).value
      {
        InSweepMeaning(fs, proj, root, respectIgnoreFiles, m, AsWritten, p);
        InSweepMeaning(fs, proj, root, respectIgnoreFiles, m, Intended, p);
        var i, j :| 0 <= i < |fs.dirs| && 0 <= j < |fs.files| && IsSweptDir(sA, fs.dirs[i])
          && IsUnder(fs.files[j].path, fs.dirs[i].path) && Keep(sA, fs.files[j]) == Ok(true)
          && p == ExportPathOf(sA, fs.files[j]);
        KeepAsWrittenThenIntended(fs, proj, root, respectIgnoreFiles, m, fs.files[j]);
        assert IsSweptDir(sI, fs.dirs[i]) && ExportPathOf(sI, fs.files[j]) == p;
      }
    }
  }

  lemma IsUnderTrans(p: string, d: string, e: string)
    requires IsUnder(p, d) && IsUnder(d, e)
    ensures StartsWith(p, e)
  {
    assert p[..|e|] == d[..|e|];
  }

  // ---- package roots ---------------------------------------------------------

  /** The `packageRoots` HashSet after the selected paths `paths` have been visited, in insertion order. */
  function PackageRoots(paths: seq<string>): (r: Outcome<seq<string>>)
    ensures r.Throws? ==> r.error == SubstringOutOfRange
    ensures r.Ok? ==> NoDuplicates(r.value)
    decreases |paths|
  {
    if paths == [] then Ok([])
    else
      var init := paths[..|paths| - 1];
      match PackageRoots(init)
      case Throws(e) => Throws(e)
      case Ok(roots) =>
        match PackageRootOf(paths[|paths| - 1])
        case NotInPackages => Ok(roots)
        case NoSlashAfterName => Throws(SubstringOutOfRange)
        case Root(name) =>
          if PackageDir(name) in roots then Ok(roots) else Ok(roots + [PackageDir(name)])
  }

  /** The roots loop throws exactly when some selected path is `Packages/<name>` with nothing after it. */
  lemma {:induction false} PackageRootsThrows(paths: seq<string>)
    ensures PackageRoots(paths).Throws? <==> exists k :: 0 <= k < |paths| && PackageRootOf(paths[k]).NoSlashAfterName?
    decreases |paths|
  {
    if paths != [] {
      var init := paths[..|paths| - 1];
      assert forall k :: 0 <= k < |init| ==> init[k] == paths[k];
      PackageRootsThrows(init);
    }
  }

  /** The roots are exactly the `Packages/<name>` folders of the selected package paths. */
  lemma {:induction false} PackageRootsMembers(paths: seq<string>, root: string)
    ensures PackageRoots(paths).Ok? ==> (root in PackageRoots(paths).value <==>
      exists k :: 0 <= k < |paths| && PackageRootOf(paths[k]).Root? && root == PackageDir(PackageRootOf(paths[k]).name))
    decreases |paths|
  {
    if paths != [] {
      var init := paths[..|paths| - 1];
      PackageRootsMembers(init, root);
      if PackageRoots(paths).Ok? {
        var last := PackageRootOf(paths[|paths| - 1]);
        assert PackageRoots(init).Ok? && !last.NoSlashAfterName?;
        assert root in PackageRoots(paths).value <==>
          root in PackageRoots(init).value || (last.Root? && root == PackageDir(last.name));
        assert forall k :: 0 <= k < |init| ==> init[k] == paths[k];
      }
    }
  }

  /** The sweeps of `roots` in turn, stopping at the first one that throws. */
  function SweepAll(fs: FileSystem, proj: Project, roots: seq<string>, respectIgnoreFiles: bool, m: Matcher,
                    mode: IgnoreMode): (r: Outcome<set<string>>)
    ensures r.Throws? ==> r.error in {DirectoryListing, SubstringOutOfRange}
  {
    var sweep := root => SweepOf(fs, proj, root, respectIgnoreFiles, m, mode);
    SweepErrors(fs, proj, roots, respectIgnoreFiles, m, mode, sweep);
    UnionAll(roots, sweep)
  }

  lemma SweepErrors(fs: FileSystem, proj: Project, roots: seq<string>, respectIgnoreFiles: bool, m: Matcher,
                    mode: IgnoreMode, sweep: string -> Outcome<set<string>>)
    requires forall root :: sweep(root) == SweepOf(fs, proj, root, respectIgnoreFiles, m, mode)
    ensures UnionAll(roots, sweep).Throws? ==> UnionAll(roots, sweep).error in {DirectoryListing, SubstringOutOfRange}
  {
    UnionMeaning(roots, sweep);
    if UnionAll(roots, sweep).Throws? {
      var k :| 0 <= k < |roots| && sweep(roots[k]) == Throws(UnionAll(roots, sweep).error);
      SweepOfThrows(fs, proj, roots[k], respectIgnoreFiles, m, mode);
    }
  }

  /**
   * The sweeps fail exactly when some root's sweep does; otherwise their
   * union is every root's sweep.
   */
  lemma SweepAllMeaning(fs: FileSystem, proj: Project, roots: seq<string>, respectIgnoreFiles: bool, m: Matcher,
                        mode: IgnoreMode)
    ensures SweepAll(fs, proj, roots, respectIgnoreFiles, m, mode).Throws? <==>
      exists k :: 0 <= k < |roots| && SweepOf(fs, proj, roots[k], respectIgnoreFiles, m, mode).Throws?
    ensures SweepAll(fs, proj, roots, respectIgnoreFiles, m, mode).Ok? ==> forall p ::
      p in SweepAll(fs, proj, roots, respectIgnoreFiles, m, mode).value <==>
      exists k :: 0 <= k < |roots| && InSweep(fs, proj, roots[k], respectIgnoreFiles, m, mode, p)
  {
    UnionMeaning(roots, root => SweepOf(fs, proj, root, respectIgnoreFiles, m, mode));
  }

  // ---- the export decision ---------------------------------------------------

  /** What Prefix decides: let the original exporter run, or pack exactly these paths. */
  datatype Decision = RunOriginal | Export(paths: set<string>)

  predicate AnyInPackages(selected: seq<string>) {
    exists k :: 0 <= k < |selected| && StartsWith(selected[k], PackagesPrefix)
  }

  /**
   * The export set for the selected asset paths: `needsManifest` is the
   * "Include Dependencies" option, `respectIgnoreFiles` whether an upload
   * config is in use and asks for its ignore files to be honoured, `mode`
   * the ignore test applied.
   */
  function ExportSet(fs: FileSystem, proj: Project, selected: seq<string>, needsManifest: bool,
                     respectIgnoreFiles: bool, m: Matcher, mode: IgnoreMode): Outcome<Decision>
  {
    if AnyInPackages(selected) && needsManifest then Throws(IncludeDependencies)
    else if !AnyInPackages(selected) then Ok(RunOriginal)
    else
      match PackageRoots(selected)
      case Throws(e) => Throws(e)
      case Ok(roots) =>
        match SweepAll(fs, proj, roots, respectIgnoreFiles, m, mode)
        case Throws(e) => Throws(e)
        case Ok(swept) => Ok(Export((set p | p in selected) + swept))
  }

  /** The original exporter runs exactly when no selected path is a package path. */
  lemma RunsOriginalIffNoPackages(fs: FileSystem, proj: Project, selected: seq<string>, needsManifest: bool,
                                  respectIgnoreFiles: bool, m: Matcher, mode: IgnoreMode)
    ensures ExportSet(fs, proj, selected, needsManifest, respectIgnoreFiles, m, mode) == Ok(RunOriginal)
        <==> !AnyInPackages(selected)
    ensures ExportSet(fs, proj, selected, needsManifest, respectIgnoreFiles, m, mode) == Throws(IncludeDependencies)
        <==> AnyInPackages(selected) && needsManifest
  {
  }

  /**
   * An exported set holds every selected path, and otherwise exactly the
   * swept files of the package roots, each under its root.
   */
  lemma ExportedPaths(fs: FileSystem, proj: Project, selected: seq<string>, needsManifest: bool,
                      respectIgnoreFiles: bool, m: Matcher, mode: IgnoreMode, paths: set<string>)
    requires ExportSet(fs, proj, selected, needsManifest, respectIgnoreFiles, m, mode) == Ok(Export(paths))
    ensures forall k :: 0 <= k < |selected| ==> selected[k] in paths
    ensures PackageRoots(selected).Ok?
    ensures forall p :: p in paths <==> (p in selected ||
      exists k :: 0 <= k < |PackageRoots(selected).value|
        && InSweep(fs, proj, PackageRoots(selected).value[k], respectIgnoreFiles, m, mode, p))
    ensures forall p :: p in paths && p !in selected ==>
      exists root :: root in PackageRoots(selected).value && StartsWith(p, root)
  {
    ExportSetParts(fs, proj, selected, needsManifest, respectIgnoreFiles, m, mode, paths);
    var roots := PackageRoots(selected).value;
    ExportedFromRoots(fs, proj, selected, roots, respectIgnoreFiles, m, mode, paths);
  }

  lemma ExportedFromRoots(fs: FileSystem, proj: Project, selected: seq<string>, roots: seq<string>,
                          respectIgnoreFiles: bool, m: Matcher, mode: IgnoreMode, paths: set<string>)
    requires SweepAll(fs, proj, roots, respectIgnoreFiles, m, mode).Ok?
    requires paths == (set p | p in selected) + SweepAll(fs, proj, roots, respectIgnoreFiles, m, mode).value
    ensures forall k :: 0 <= k < |selected| ==> selected[k] in paths
    ensures forall p :: p in paths <==> (p in selected ||
      exists k :: 0 <= k < |roots| && InSweep(fs, proj, roots[k], respectIgnoreFiles, m, mode, p))
    ensures forall p :: p in paths && p !in selected ==> exists root :: root in roots && StartsWith(p, root)
  {
    SweepAllMeaning(fs, proj, roots, respectIgnoreFiles, m, mode);
    forall p | p in paths && p !in selected
      ensures exists root :: root in roots && StartsWith(p, root)
    {
      var k :| 0 <= k < |roots| && InSweep(fs, proj, roots[k], respectIgnoreFiles, m, mode, p);
      SweptPathsUnderRoot(fs, proj, roots[k], respectIgnoreFiles, m, mode);
    }
  }

  lemma ExportSetParts(fs: FileSystem, proj: Project, selected: seq<string>, needsManifest: bool,
                       respectIgnoreFiles: bool, m: Matcher, mode: IgnoreMode, paths: set<string>)
    requires ExportSet(fs, proj, selected, needsManifest, respectIgnoreFiles, m, mode) == Ok(Export(paths))
    ensures PackageRoots(selected).Ok?
    ensures SweepAll(fs, proj, PackageRoots(selected).value, respectIgnoreFiles, m, mode).Ok?
    ensures paths == (set p | p in selected) + SweepAll(fs, proj, PackageRoots(selected).value, respectIgnoreFiles, m, mode).value
  {
  }

  /**
   * The exporter as written and as intended decide alike when the ignore
   * files are not consulted; otherwise, whenever the exporter as written
   * produces a set, the intended one produces one too, and the written set
   * holds nothing the intended set lacks.
   */
  lemma ExportSetModesCompare(fs: FileSystem, proj: Project, selected: seq<string>, needsManifest: bool,
                              respectIgnoreFiles: bool, m: Matcher)
    ensures !respectIgnoreFiles ==>
      ExportSet(fs, proj, selected, needsManifest, respectIgnoreFiles, m, AsWritten)
        == ExportSet(fs, proj, selected, needsManifest, respectIgnoreFiles, m, Intended)
    ensures ExportSet(fs, proj, selected, needsManifest, respectIgnoreFiles, m, AsWritten) == Ok(RunOriginal) <==>
      ExportSet(fs, proj, selected, needsManifest, respectIgnoreFiles, m, Intended) == Ok(RunOriginal)
    ensures forall written ::
      ExportSet(fs, proj, selected, needsManifest, respectIgnoreFiles, m, AsWritten) == Ok(Export(written)) ==>
      ExportSet(fs, proj, selected, needsManifest, respectIgnoreFiles, m, Intended).Ok? &&
      ExportSet(fs, proj, selected, needsManifest, respectIgnoreFiles, m, Intended).value.Export? &&
      written <= ExportSet(fs, proj, selected, needsManifest, respectIgnoreFiles, m, Intended).value.paths
  {
    if AnyInPackages(selected) && !needsManifest && PackageRoots(selected).Ok? {
      var roots := PackageRoots(selected).value;
      var sweepA := root => SweepOf(fs, proj, root, respectIgnoreFiles, m, AsWritten);
      var sweepI := root => SweepOf(fs, proj, root, respectIgnoreFiles, m, Intended);
      forall k | 0 <= k < |roots|
        ensures !respectIgnoreFiles ==> sweepA(roots[k]) == sweepI(roots[k])
        ensures sweepA(roots[k]).Ok? ==> sweepI(roots[k]).Ok? && sweepA(roots[k]).value <= sweepI(roots[k]).value
      {
        SweepModesCompare(fs, proj, roots[k], respectIgnoreFiles, m);
      }
      if !respectIgnoreFiles {
        UnionAllCongruent(roots, sweepA, sweepI);
      }
      SweepAllMeaning(fs, proj, roots, respectIgnoreFiles, m, AsWritten);
      SweepAllMeaning(fs, proj, roots, respectIgnoreFiles, m, Intended);
    }
  }

  // ---- the imperative Prefix -------------------------------------------------

  /**
   * PackagerExportPatch.Prefix up to the staging of the collected paths:
   * the selected paths, then the package roots, then each root's sweep, with
   * the exporter's own ignore handling.
   */
  method Prefix(fs: FileSystem, proj: Project, selected: seq<string>, needsManifest: bool,
                respectIgnoreFiles: bool, m: Matcher) returns (r: Outcome<Decision>)
    ensures r == ExportSet(fs, proj, selected, needsManifest, respectIgnoreFiles, m, AsWritten)
  {
    var anyInPackages := exists k :: 0 <= k < |selected| && StartsWith(selected[k], PackagesPrefix);
    if anyInPackages && needsManifest {
      return Throws(IncludeDependencies);
    }
    if !anyInPackages {
      return Ok(RunOriginal);
    }
    var exportPaths := AddSelected(selected);
    var roots := CollectPackageRoots(selected);
    if roots.Throws? {
      return Throws(roots.error);
    }
    var swept := SweepRoots(fs, proj, roots.value, respectIgnoreFiles, m);
    if swept.Throws? {
      return Throws(swept.error);
    }
    r := Ok(Export(exportPaths + swept.value));
  }

  /** `foreach (var p in assetDatabasePaths) exportPaths.Add(p)`. */
  method AddSelected(selected: seq<string>) returns (exportPaths: set<string>)
    ensures exportPaths == set p | p in selected
  {
    exportPaths := {};
    var i := 0;
    while i < |selected|
      invariant 0 <= i <= |selected|
      invariant exportPaths == set p | p in selected[..i]
    {
      assert selected[..i + 1] == selected[..i] + [selected[i]];
      exportPaths := exportPaths + {selected[i]};
      i := i + 1;
    }
    assert selected[..i] == selected;
  }

  /** The loop filling `packageRoots`. */
  method CollectPackageRoots(selected: seq<string>) returns (r: Outcome<seq<string>>)
    ensures r == PackageRoots(selected)
  {
    var roots: seq<string> := [];
    var i := 0;
    while i < |selected|
      invariant 0 <= i <= |selected|
      invariant PackageRoots(selected[..i]) == Ok(roots)
    {
      assert selected[..i + 1][..i] == selected[..i];
      match PackageRootOf(selected[i]) {
        case NotInPackages =>
        case NoSlashAfterName =>
          PackageRootsThrows(selected);
          return Throws(SubstringOutOfRange);
        case Root(name) =>
          if PackageDir(name) !in roots {
            roots := roots + [PackageDir(name)];
          }
      }
      i := i + 1;
    }
    assert selected[..i] == selected;
    r := Ok(roots);
  }

  /** The `foreach (var root in packageRoots)` loop, sharing one ignore list. */
  method SweepRoots(fs: FileSystem, proj: Project, roots: seq<string>, respectIgnoreFiles: bool, m: Matcher)
    returns (r: Outcome<set<string>>)
    ensures r == SweepAll(fs, proj, roots, respectIgnoreFiles, m, AsWritten)
  {
    ghost var sweep := root => SweepOf(fs, proj, root, respectIgnoreFiles, m, AsWritten);
    var ignore := new IgnoreList();
    var swept: set<string> := {};
    var j := 0;
    while j < |roots|
      invariant 0 <= j <= |roots|
      invariant UnionAll(roots[..j], sweep) == Ok(swept)
    {
      var rootPaths := SweepRoot(fs, proj, roots[j], respectIgnoreFiles, m, ignore);
      UnionAllStep(roots, sweep, j, swept);
      if rootPaths.Throws? {
        return Throws(rootPaths.error);
      }
      swept := swept + rootPaths.value;
      j := j + 1;
    }
    assert roots[..j] == roots;
    r := Ok(swept);
  }

  /** One iteration of the `foreach (var root in packageRoots)` loop. */
  method SweepRoot(fs: FileSystem, proj: Project, root: string, respectIgnoreFiles: bool, m: Matcher,
                   ignore: IgnoreList) returns (r: Outcome<set<string>>)
    modifies ignore
    ensures r == SweepOf(fs, proj, root, respectIgnoreFiles, m, AsWritten)
  {
    var full := FullPath(proj, root);
    ignore.CollectIgnoreFiles(fs, full);
    if !ListableDeep(fs, full) {
      return Throws(DirectoryListing);
    }
    var s := Sweep(proj, root, ignore.ruleSets, respectIgnoreFiles, m, AsWritten);
    r := SweepHiddenFolders(fs, s, ignore);
  }

  /** `foreach (var directory in ...GetDirectories("*", AllDirectories))`: every hidden folder below the root. */
  method SweepHiddenFolders(fs: FileSystem, s: Sweep, ignore: IgnoreList) returns (r: Outcome<set<string>>)
    requires ignore.ruleSets == s.rules && s.mode == AsWritten
    ensures r == SweptIn(s, fs.dirs, fs.files)
  {
    var found: set<string> := {};
    var i := 0;
    while i < |fs.dirs|
      invariant 0 <= i <= |fs.dirs|
      invariant SweptIn(s, fs.dirs[..i], fs.files) == Ok(found)
    {
      var d := fs.dirs[i];
      var inDir: Outcome<set<string>> := Ok({});
      if IsSweptDir(s, d) {
        inDir := SweepFolder(fs, s, d.path, ignore);
      }
      assert inDir == SweptDir(s, d, fs.files);
      SweptInStep(s, fs.dirs, fs.files, i, found);
      if inDir.Throws? {
        return Throws(inDir.error);
      }
      found := found + inDir.value;
      i := i + 1;
    }
    assert fs.dirs[..i] == fs.dirs;
    r := Ok(found);
  }

  /** The files of one hidden folder, filtered in the order the exporter tests them. */
  method SweepFolder(fs: FileSystem, s: Sweep, dir: string, ignore: IgnoreList) returns (r: Outcome<set<string>>)
    requires ignore.ruleSets == s.rules && s.mode == AsWritten
    ensures r == KeptIn(s, dir, fs.files)
  {
    var inDir: set<string> := {};
    var j := 0;
    while j < |fs.files|
      invariant 0 <= j <= |fs.files|
      invariant KeptIn(s, dir, fs.files[..j]) == Ok(inDir)
    {
      var f := fs.files[j];
      var picked: Outcome<set<string>> := Ok({});
      if IsUnder(f.path, dir) {
        var keep := KeepFile(s, f, ignore);
        if keep.Throws? {
          picked := Throws(keep.error);
        } else if keep.value {
          picked := Ok({ExportPathOf(s, f)});
        }
      }
      assert picked == PickedFrom(s, dir, f);
      KeptInStep(s, dir, fs.files, j, inDir);
      if picked.Throws? {
        return Throws(picked.error);
      }
      inDir := inDir + picked.value;
      j := j + 1;
    }
    assert fs.files[..j] == fs.files;
    r := Ok(inDir);
  }

  /** The filters of one listed file: the npm defaults, `.meta`, then the ignore files when asked for. */
  method KeepFile(s: Sweep, f: File, ignore: IgnoreList) returns (keep: Outcome<bool>)
    requires ignore.ruleSets == s.rules && s.mode == AsWritten
    ensures keep == Keep(s, f)
  {
    if NameOf(f.path) in DefaultNpmIgnore || IsMetaFile(NameOf(f.path)) {
      return Ok(false);
    }
    keep := Ok(true);
    if s.respectIgnoreFiles {
      var ignored := ignore.IsIgnored(f.path, s.matches);
      if ignored.Throws? {
        return Throws(ignored.error);
      }
      keep := Ok(!ignored.value);
    }
  }
}
