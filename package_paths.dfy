/**
 * Path rules shared by the export patch, the upload config and the GUID
 * collector: the package root of an asset path, full paths inside the
 * project, and the two sanitisation tests applied to packages.
 *
 * Path.GetFullPath is modelled lexically for the paths these rules build,
 * with Unity's package resolution on top: a path `Packages/<name>[/rest]`
 * resolves into the folder the package manager keeps package `<name>` in
 * (the project's own `Packages/<name>` for an embedded package,
 * `Library/PackageCache/...` for a registry or git package, anywhere for a
 * `file:` package); any other project-relative path without `.` or `..`
 * segments resolves to `dir + "/" + rel`, and
 * `Application.dataPath + "/../Library"` to `dir + "/Library"`.
 */
module PackagePaths {
  import opened Text

  const PackagesPrefix: string := "Packages/"

  /** What `Substring("Packages/".Length)` followed by `Substring(0, IndexOf("/"))` makes of a path. */
  datatype PackageRoot =
    | NotInPackages            // the path does not start with `Packages/`
    | Root(name: string)       // `Packages/<name>/...`
    | NoSlashAfterName         // `Packages/<name>`: Substring(0, -1) throws

  function PackageRootOf(path: string): (r: PackageRoot)
    ensures r.NotInPackages? <==> !StartsWith(path, PackagesPrefix)
    ensures r.Root? ==> '/' !in r.name && StartsWith(path, PackagesPrefix + r.name + "/")
    ensures r.NoSlashAfterName? ==> StartsWith(path, PackagesPrefix) && '/' !in path[|PackagesPrefix|..]
  {
    if !StartsWith(path, PackagesPrefix) then NotInPackages
    else
      var rest := path[|PackagesPrefix|..];
      var i := IndexOf(rest, '/');
      if i < 0 then NoSlashAfterName
      else
        assert path == PackagesPrefix + rest[..i] + "/" + rest[i + 1..];
        Root(rest[..i])
  }

  /** The converse: every `Packages/<name>/<rest>` path has root `name`. */
  lemma PackageRootOfJoin(name: string, rest: string)
    requires '/' !in name
    ensures PackageRootOf(PackagesPrefix + name + "/" + rest) == Root(name)
  {
    var path := PackagesPrefix + name + "/" + rest;
    assert path[..|PackagesPrefix|] == PackagesPrefix;
    var tail := path[|PackagesPrefix|..];
    assert tail == name + "/" + rest;
    assert tail[|name|] == '/';
    var i := IndexOf(tail, '/');
    var j := if i < |name| then i else |name|;
    assert tail[j] == '/';
    assert tail[..i] == name;
  }

  /** The project-relative directory `Packages/<name>`. */
  function PackageDir(name: string): string {
    PackagesPrefix + name
  }

  /**
   * The project the editor has open: its folder, and the folder on disk each
   * package name resolves to.
   */
  datatype Project = Project(dir: string, packageFolder: string -> FolderPath)

  /** A folder on disk as Unity reports it: never the empty string. */
  type FolderPath = s: string | s != [] witness "/"

  /** Path.GetFullPath of a project-relative path with no dot segments. */
  function FullPath(proj: Project, rel: string): (full: string)
    ensures |full| > 0
  {
    match PackageRootOf(rel)
    case NotInPackages => proj.dir + "/" + rel
    case NoSlashAfterName => proj.packageFolder(rel[|PackagesPrefix|..])
    case Root(name) => proj.packageFolder(name) + "/" + rel[|PackagesPrefix| + |name| + 1..]
  }

  /** `Packages/<name>` is the package's folder on disk. */
  lemma FullPathOfPackageDir(proj: Project, name: string)
    requires '/' !in name
    ensures FullPath(proj, PackageDir(name)) == proj.packageFolder(name)
  {
    var rel := PackageDir(name);
    assert rel[..|PackagesPrefix|] == PackagesPrefix;
    assert rel[|PackagesPrefix|..] == name;
  }

  /** A path inside package `name` lies at the same place inside the package's folder. */
  lemma FullPathInPackage(proj: Project, name: string, rest: string)
    requires '/' !in name
    ensures FullPath(proj, PackagesPrefix + name + "/" + rest) == proj.packageFolder(name) + "/" + rest
  {
    PackageRootOfJoin(name, rest);
    var rel := PackagesPrefix + name + "/" + rest;
    assert rel[|PackagesPrefix| + |name| + 1..] == rest;
  }

  /** The folder an embedded package lives in: `Packages/<name>` inside the project. */
  function EmbeddedFolder(proj: Project, name: string): string {
    proj.dir + "/" + PackageDir(name)
  }

  /** Path.GetFullPath(Application.dataPath + "/../Library"). */
  function LibraryRoot(proj: Project): string {
    proj.dir + "/Library"
  }

  /** The Library sanitisation test, as both call sites apply it to `Packages/<name>`. */
  predicate InLibrary(proj: Project, name: string) {
    StartsWith(FullPath(proj, PackageDir(name)), LibraryRoot(proj))
  }

  /**
   * The Library test looks at where the package really lives: it rejects a
   * package kept anywhere under `<project>/Library` (the package cache) and
   * passes an embedded package.
   */
  lemma LibraryTestMeaning(proj: Project, name: string)
    requires '/' !in name
    ensures InLibrary(proj, name) <==> StartsWith(proj.packageFolder(name), LibraryRoot(proj))
    ensures StartsWith(proj.packageFolder(name), LibraryRoot(proj) + "/") ==> InLibrary(proj, name)
    ensures proj.packageFolder(name) == EmbeddedFolder(proj, name) ==> !InLibrary(proj, name)
  {
    FullPathOfPackageDir(proj, name);
    var folder := proj.packageFolder(name);
    var lib := LibraryRoot(proj);
    if StartsWith(folder, lib + "/") {
      assert folder[..|lib|] == (lib + "/")[..|lib|];
    }
    if folder == EmbeddedFolder(proj, name) {
      var k := |proj.dir| + 1;
      assert folder[k] == 'P';
      assert lib[k] == 'L';
    }
  }

  /** The Unity-registry sanitisation test: `com.unity.`, compared ignoring case. */
  predicate IsUnityRegistryName(name: string) {
    StartsWithIgnoreCase(name, "com.unity.")
  }
}
