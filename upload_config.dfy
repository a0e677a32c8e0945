/**
 * AssetStoreUploadConfig: the list of folders to export, how each entry is
 * mapped to the object actually exported, and the archive name derived from
 * where the config asset lives.
 */
module UploadConfig {
  import opened Text
  import opened Outcomes
  import opened PackagePaths

  /** A UnityEngine.Object reference, known by its asset path. */
  datatype Asset = Asset(path: string)

  /**
   * What the config reads from the editor: the open project, whether
   * developer mode is on, and the asset paths at which
   * LoadAssetAtPath<DefaultAsset> finds an object.
   */
  datatype Editor = Editor(project: Project, developerMode: bool, folderAssets: set<string>)

  /** A null, missing or destroyed object is `None`. */
  type Item = Option<Asset>

  /** GetActualExportObject: a package asset is replaced by its package folder. */
  function ActualExportObject(ed: Editor, obj: Item): (r: Outcome<Item>)
    ensures obj.None? ==> r == Ok(None)
    ensures obj.Some? && !StartsWith(obj.value.path, PackagesPrefix) ==> r == Ok(obj)
    ensures r.Throws? <==> obj.Some? && PackageRootOf(obj.value.path).NoSlashAfterName?
    ensures r.Ok? && r.value.Some? && obj.Some? && StartsWith(obj.value.path, PackagesPrefix) ==>
      && PackageRootOf(obj.value.path).Root?
      && r.value.value.path == PackageDir(PackageRootOf(obj.value.path).name)
      && r.value.value.path in ed.folderAssets
    ensures (obj.Some? && PackageRootOf(obj.value.path).Root? && !ed.developerMode
             && InLibrary(ed.project, PackageRootOf(obj.value.path).name)) ==> r == Ok(None)
    ensures (obj.Some? && PackageRootOf(obj.value.path).Root? && !ed.developerMode
             && IsUnityRegistryName(PackageRootOf(obj.value.path).name)) ==> r == Ok(None)
  {
    match obj
    case None => Ok(None)
    case Some(a) =>
      match PackageRootOf(a.path)
      case NotInPackages => Ok(obj)
      case NoSlashAfterName => Throws(SubstringOutOfRange)
      case Root(name) =>
        var root := PackageDir(name);
        if !ed.developerMode && InLibrary(ed.project, name) then Ok(None)
        else if !ed.developerMode && IsUnityRegistryName(name) then Ok(None)
        else if root in ed.folderAssets then Ok(Some(Asset(root)))
        else Ok(None)
  }

  /**
   * Any asset inside package `name` is exported as the package folder, unless
   * developer mode is off and the package is kept under the Library folder
   * or comes from the Unity registry.
   */
  lemma PackageAssetExportsRoot(ed: Editor, name: string, rest: string)
    requires '/' !in name
    ensures ActualExportObject(ed, Some(Asset(PackagesPrefix + name + "/" + rest)))
         == if !ed.developerMode && (StartsWith(ed.project.packageFolder(name), LibraryRoot(ed.project))
                                     || IsUnityRegistryName(name)) then Ok(None)
            else if PackageDir(name) in ed.folderAssets then Ok(Some(Asset(PackageDir(name))))
            else Ok(None)
  {
    PackageRootOfJoin(name, rest);
    LibraryTestMeaning(ed.project, name);
  }

  /** The entry converts to a non-null object (the implicit bool conversion of Object). */
  predicate HasExportObject(ed: Editor, x: Item) {
    ActualExportObject(ed, x).Ok? && ActualExportObject(ed, x).value.Some?
  }

  /** `items.Any(x => GetActualExportObject(x))`, with the exception of the first failing call. */
  function AnyExportable(ed: Editor, xs: seq<Item>): (r: Outcome<bool>)
    ensures r == Ok(true) ==> exists k :: 0 <= k < |xs| && HasExportObject(ed, xs[k])
    ensures r.Throws? ==> exists k :: 0 <= k < |xs| && ActualExportObject(ed, xs[k]).Throws?
    ensures (forall k :: 0 <= k < |xs| ==> ActualExportObject(ed, xs[k]).Ok?) ==>
      r == Ok(exists k :: 0 <= k < |xs| && HasExportObject(ed, xs[k]))
    decreases |xs|
  {
    if xs == [] then Ok(false)
    else
      var rest := AnyExportable(ed, xs[1..]);
      assert forall k :: 0 <= k < |xs[1..]| ==> xs[1..][k] == xs[k + 1];
      match ActualExportObject(ed, xs[0])
      case Throws(e) => Throws(e)
      case Ok(o) => if o.Some? then Ok(true) else rest
  }

  /** IsValid: a non-null item list with at least one exportable entry. */
  function IsValid(ed: Editor, items: Option<seq<Item>>): (r: Outcome<bool>)
    ensures items.None? ==> r == Ok(false)
    ensures r == Ok(true) ==> items.Some? && exists k :: 0 <= k < |items.value| && HasExportObject(ed, items.value[k])
  {
    match items
    case None => Ok(false)
    case Some(xs) => AnyExportable(ed, xs)
  }

  /** When no entry throws, IsValid holds exactly when some entry has an export object. */
  lemma IsValidMeaning(ed: Editor, xs: seq<Item>)
    requires forall k :: 0 <= k < |xs| ==> ActualExportObject(ed, xs[k]).Ok?
    ensures IsValid(ed, Some(xs)) == Ok(exists k :: 0 <= k < |xs| && HasExportObject(ed, xs[k]))
  {
  }

  /**
   * The export paths after the entries of `xs` have been added to the
   * HashSet in order (insertion order is the order of ToArray).
   */
  function ExportPathsOf(ed: Editor, xs: seq<Item>): (r: Outcome<seq<string>>)
    ensures r.Ok? ==> NoDuplicates(r.value)
    decreases |xs|
  {
    if xs == [] then Ok([])
    else
      match ExportPathsOf(ed, xs[..|xs| - 1])
      case Throws(e) => Throws(e)
      case Ok(ps) =>
        match ActualExportObject(ed, xs[|xs| - 1])
        case Throws(e) => Throws(e)
        case Ok(o) =>
          if o.None? || o.value.path in ps then Ok(ps)
          else Ok(ps + [o.value.path])
  }

  /**
   * The export paths are exactly the export objects of the entries, and the
   * loop throws exactly when some entry's export object does.
   */
  lemma {:induction false} ExportPathsOfMeaning(ed: Editor, xs: seq<Item>, p: string)
    ensures var r := ExportPathsOf(ed, xs);
      r.Ok? ==> (p in r.value <==> exists k :: 0 <= k < |xs| && ActualExportObject(ed, xs[k]) == Ok(Some(Asset(p))))
    decreases |xs|
  {
    if xs != [] {
      var init := xs[..|xs| - 1];
      ExportPathsOfMeaning(ed, init, p);
      var r := ExportPathsOf(ed, xs);
      if r.Ok? {
        var last := ActualExportObject(ed, xs[|xs| - 1]);
        assert ExportPathsOf(ed, init).Ok? && last.Ok?;
        assert p in r.value <==> p in ExportPathsOf(ed, init).value || last == Ok(Some(Asset(p)));
        assert forall k :: 0 <= k < |init| ==> init[k] == xs[k];
      }
    }
  }

  lemma {:induction false} ExportPathsOfThrows(ed: Editor, xs: seq<Item>)
    ensures ExportPathsOf(ed, xs).Throws? <==> exists k :: 0 <= k < |xs| && ActualExportObject(ed, xs[k]).Throws?
    decreases |xs|
  {
    if xs != [] {
      var init := xs[..|xs| - 1];
      assert forall k :: 0 <= k < |init| ==> init[k] == xs[k];
      ExportPathsOfThrows(ed, init);
    }
  }

  /** GetExportPaths: `[]` for a null or empty list, else the distinct export paths. */
  function ExportPaths(ed: Editor, items: Option<seq<Item>>): (r: Outcome<seq<string>>)
    ensures items.None? || items.value == [] ==> r == Ok([])
  {
    match items
    case None => Ok([])
    case Some(xs) => ExportPathsOf(ed, xs)
  }

  /** The HashSet loop of GetExportPaths. */
  method GetExportPaths(ed: Editor, items: Option<seq<Item>>) returns (r: Outcome<seq<string>>)
    ensures r == ExportPaths(ed, items)
  {
    if items.None? || items.value == [] {
      return Ok([]);
    }
    var xs := items.value;
    var paths: seq<string> := [];
    var i := 0;
    while i < |xs|
      invariant 0 <= i <= |xs|
      invariant ExportPathsOf(ed, xs[..i]) == Ok(paths)
    {
      assert xs[..i + 1][..i] == xs[..i];
      var actual := ActualExportObject(ed, xs[i]);
      if actual.Throws? {
        assert ExportPathsOf(ed, xs[..i + 1]) == Throws(actual.error);
        ExportPathsOfExtend(ed, xs, i + 1);
        return Throws(actual.error);
      }
      if actual.value.Some? && actual.value.value.path !in paths {
        paths := paths + [actual.value.value.path];
      }
      i := i + 1;
    }
    assert xs[..i] == xs;
    r := Ok(paths);
  }

  /** Once a prefix of the entries throws, the whole list does. */
  lemma {:induction false} ExportPathsOfExtend(ed: Editor, xs: seq<Item>, n: nat)
    requires n <= |xs| && ExportPathsOf(ed, xs[..n]).Throws?
    ensures ExportPathsOf(ed, xs) == ExportPathsOf(ed, xs[..n])
    decreases |xs| - n
  {
    if n < |xs| {
      assert xs[..n + 1][..n] == xs[..n];
      ExportPathsOfExtend(ed, xs, n + 1);
    } else {
      assert xs[..n] == xs;
    }
  }

  // ---- GetExportFilename ------------------------------------------------------

  /** Path.GetDirectoryName of an asset path: the text before its last '/', or "" without one. */
  function DirectoryName(p: string): string {
    var i := LastIndexOf(p, '/');
    if i < 0 then "" else p[..i]
  }

  /**
   * The middle of the archive name: the config's folder with `\` made `/`,
   * `Assets/` and `Packages/` removed, `/` made `_`, and `_` trimmed.
   */
  function MiddleName(configPath: string): (m: string)
    ensures '/' !in m && '\\' !in m
    ensures m == [] || (m[0] != '_' && m[|m| - 1] != '_')
  {
    var s1 := ReplaceAll(DirectoryName(configPath), "\\", "/");
    var s2 := ReplaceAll(s1, "Assets/", "");
    var s3 := ReplaceAll(s2, "Packages/", "");
    var s4 := ReplaceAll(s3, "/", "_");
    assert '\\' !in s3;
    TrimChar(s4, '_')
  }

  /** GetExportFilename: `None` for a destroyed config, whose asset path is `None`. */
  function ExportFilename(configPath: Option<string>, outputSubFolder: string): (r: Option<string>)
    ensures r.None? <==> configPath.None?
    ensures r.Some? ==> (StartsWith(r.value, outputSubFolder + "/HybridPackage_")
                         && EndsWith(r.value, ".unitypackage"))
    ensures r.Some? ==> '/' !in r.value[|outputSubFolder| + 1..]
  {
    match configPath
    case None => None
    case Some(p) =>
      var m := MiddleName(p);
      var head := outputSubFolder + "/HybridPackage_";
      var name := head + (m + ".unitypackage");
      ArchiveNameShape(outputSubFolder, m);
      Some(name)
  }

  lemma ArchiveNameShape(outputSubFolder: string, m: string)
    requires '/' !in m
    ensures var name := outputSubFolder + "/HybridPackage_" + (m + ".unitypackage");
      && StartsWith(name, outputSubFolder + "/HybridPackage_")
      && EndsWith(name, ".unitypackage")
      && '/' !in name[|outputSubFolder| + 1..]
  {
    var head := outputSubFolder + "/HybridPackage_";
    StartsWithConcat(head, m + ".unitypackage");
    EndsWithConcat(head, m, ".unitypackage");
    ArchiveNameTail(outputSubFolder, m);
  }

  lemma ArchiveNameTail(outputSubFolder: string, m: string)
    requires '/' !in m
    ensures '/' !in (outputSubFolder + "/HybridPackage_" + (m + ".unitypackage"))[|outputSubFolder| + 1..]
  {
    var name := outputSubFolder + "/HybridPackage_" + (m + ".unitypackage");
    assert name == outputSubFolder + "/" + ("HybridPackage_" + m + ".unitypackage");
    assert name[|outputSubFolder| + 1..] == "HybridPackage_" + m + ".unitypackage";
    assert '/' !in "HybridPackage_" && '/' !in ".unitypackage";
  }
}
