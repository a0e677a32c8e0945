/**
 * The replacement for AssetStorePackageController.GetGUIDS: which GUIDs the
 * Asset Store uploader packs for the folder chosen in its window. A folder
 * holding an upload config exports the config's paths; a folder that is an
 * embedded or local package exports that package; anything else is left to
 * the original method.
 */
module AssetGuids {
  import opened Text
  import opened Outcomes
  import opened FileTree
  import opened PackagePaths
  import opened UploadConfig

  /** An upload config as loaded from the chosen folder: its `items` list. */
  datatype Config = Config(items: Option<seq<Item>>)

  /**
   * The asset-database queries the collector makes, as given functions:
   * File.Exists on a project-relative path, AssetPathToGUID ("" for an
   * unknown path), CollectAllChildren of a GUID, the paths of
   * FindAssets("package"), and the first upload config FindAssets finds and
   * loads under a folder (None when the folder is missing or has none).
   */
  datatype AssetDatabase = AssetDatabase(
    isFile: string -> bool,
    guidOf: string -> string,
    childrenOf: string -> seq<string>,
    packageJsons: seq<string>,
    configIn: string -> Option<Config>)

  /** The outcome of the patched GetGUIDS: run the original, or these GUIDs. */
  datatype GuidsResult = RunOriginal | Collected(guids: seq<string>, fromConfig: bool)

  // ---- m_LocalRootPath ---------------------------------------------------------

  /**
   * The folder chosen in the uploader (`m_LocalRootPath`, None when null):
   * None when the original method must run (null, "" or "/"), otherwise the
   * path with one leading '/' removed unless that '/' starts a dot segment.
   */
  function LocalRoot(raw: Option<string>): (r: Option<string>)
    ensures r.None? <==> raw.None? || raw.value == "" || raw.value == "/"
    ensures r.Some? ==> |r.value| > 0 && (raw.value == r.value || raw.value == "/" + r.value)
    ensures r.Some? ==> (r.value == raw.value <==> !StartsWith(raw.value, "/") || StartsWith(raw.value, "/."))
  {
    match raw
    case None => None
    case Some(l) =>
      if l == "" || l == "/" then None
      else if StartsWith(l, "/") && !StartsWith(l, "/.") then
        assert l == "/" + l[1..];
        Some(l[1..])
      else Some(l)
  }

  // ---- package.json discovery ----------------------------------------------------

  /** PackageInfoMock. */
  datatype PackageInfo = PackageInfo(name: string, resolvedPath: string)

  /** The directory a package's manifest resolves to: the package's folder on disk, with `\` made `/`. */
  function ResolvedDir(proj: Project, name: string): string {
    ReplaceAll(proj.packageFolder(name), "\\", "/")
  }

  /** The LINQ parser of one FindAssets("package") path: only `Packages/<name>/package.json`. */
  function PackageInfoOf(proj: Project, x: string): (r: Option<PackageInfo>)
    ensures r.Some? ==> '/' !in r.value.name && x == PackagesPrefix + r.value.name + "/package.json"
    ensures r.Some? ==> r.value.resolvedPath == ResolvedDir(proj, r.value.name)
  {
    if !(StartsWith(x, PackagesPrefix) && EndsWith(x, "/package.json")) then None
    else if x == "" then None
    else
      var parts := Split(x, '/');
      if |parts| != 3 then None
      else
        ManifestPathParts(x, parts);
        ManifestDirectory(proj, parts[1]);
        Some(PackageInfo(parts[1], ReplaceAll(DirectoryOf(FullPath(proj, x)), "\\", "/")))
  }

  lemma ManifestPathParts(x: string, parts: seq<string>)
    requires StartsWith(x, PackagesPrefix) && EndsWith(x, "/package.json")
    requires parts == Split(x, '/') && |parts| == 3
    ensures x == PackagesPrefix + parts[1] + "/package.json"
  {
    var a, n, f := parts[0], parts[1], parts[2];
    assert '/' !in a && '/' !in n && '/' !in f;
    JoinSplit(x, '/');
    assert parts == [a, n, f];
    JoinThree(a, n, f, '/');
    assert x == a + "/" + n + "/" + f;
    assert x == a + "/" + (n + "/" + f);
    PackagesPrefixSplit(x);
    SameFirstSegment(parts[0], "Packages", parts[1] + "/" + parts[2], x[|PackagesPrefix|..]);
    ManifestSuffixSplit(x);
    assert x == (parts[0] + "/" + parts[1]) + "/" + parts[2];
    SameLastSegment(x[..|x| - 13], parts[0] + "/" + parts[1], "package.json", parts[2]);
    ManifestPathJoin(parts[1]);
  }

  lemma ManifestPathJoin(name: string)
    ensures "Packages" + "/" + name + "/" + "package.json" == PackagesPrefix + name + "/package.json"
  {
    assert PackagesPrefix == "Packages" + "/";
    assert "/package.json" == "/" + "package.json";
  }

  lemma PackagesPrefixSplit(x: string)
    requires StartsWith(x, PackagesPrefix)
    ensures x == "Packages" + "/" + x[|PackagesPrefix|..] && '/' !in "Packages"
  {
    assert PackagesPrefix == "Packages" + "/";
  }

  lemma ManifestSuffixSplit(x: string)
    requires EndsWith(x, "/package.json")
    ensures x == x[..|x| - 13] + "/" + "package.json" && '/' !in "package.json"
  {
    assert "/package.json" == "/" + "package.json";
    assert x == x[..|x| - 13] + x[|x| - 13..];
  }

  lemma SameFirstSegment(a: string, b: string, s: string, t: string)
    requires '/' !in a && '/' !in b && a + "/" + s == b + "/" + t
    ensures a == b
  {
    IndexOfJoin(a, '/', s);
    IndexOfJoin(b, '/', t);
    assert (a + "/" + s)[..|a|] == a;
    assert (b + "/" + t)[..|b|] == b;
  }

  lemma SameLastSegment(a: string, b: string, s: string, t: string)
    requires '/' !in s && '/' !in t && a + "/" + s == b + "/" + t
    ensures s == t
  {
    LastIndexOfJoin(a, '/', s);
    LastIndexOfJoin(b, '/', t);
    assert (a + "/" + s)[|a| + 1..] == s;
    assert (b + "/" + t)[|b| + 1..] == t;
  }

  /** Every `Packages/<name>/package.json` is recognised, with its resolved directory. */
  lemma PackageInfoOfManifest(proj: Project, name: string)
    requires '/' !in name
    ensures PackageInfoOf(proj, PackagesPrefix + name + "/package.json")
         == Some(PackageInfo(name, ResolvedDir(proj, name)))
  {
    ManifestPathShape(name);
    ManifestPathSplit(name);
    ManifestDirectory(proj, name);
  }

  lemma ManifestPathShape(name: string)
    ensures var x := PackagesPrefix + name + "/package.json";
      StartsWith(x, PackagesPrefix) && EndsWith(x, "/package.json")
  {
    var x := PackagesPrefix + name + "/package.json";
    assert x == PackagesPrefix + (name + "/package.json");
    StartsWithConcat(PackagesPrefix, name + "/package.json");
    assert x[|x| - |"/package.json"|..] == "/package.json";
  }

  lemma ManifestPathSplit(name: string)
    requires '/' !in name
    ensures Split(PackagesPrefix + name + "/package.json", '/') == ["Packages", name, "package.json"]
  {
    var parts := ["Packages", name, "package.json"];
    ManifestPartsJoin(name);
    ManifestPartsPlain(name);
    SplitJoin(parts, '/');
  }

  lemma ManifestPartsJoin(name: string)
    ensures Join(["Packages", name, "package.json"], '/') == PackagesPrefix + name + "/package.json"
  {
    JoinThree("Packages", name, "package.json", '/');
    ManifestPathJoin(name);
  }

  lemma ManifestPartsPlain(name: string)
    requires '/' !in name
    ensures forall k :: 0 <= k < 3 ==> '/' !in ["Packages", name, "package.json"][k]
  {
    assert '/' !in "Packages" && '/' !in "package.json";
  }

  lemma ManifestDirectory(proj: Project, name: string)
    requires '/' !in name
    ensures DirectoryOf(FullPath(proj, PackagesPrefix + name + "/package.json")) == proj.packageFolder(name)
  {
    var rel := PackagesPrefix + name + "/package.json";
    assert rel == PackagesPrefix + name + "/" + "package.json";
    FullPathInPackage(proj, name, "package.json");
    var full := proj.packageFolder(name) + "/" + "package.json";
    assert FullPath(proj, rel) == full;
    assert '/' !in "package.json";
    ParentOfJoin(proj.packageFolder(name), "package.json");
    assert ParentOf(full) == Some(proj.packageFolder(name));
  }

  /** The non-null package infos, in FindAssets order; Distinct() compares references and removes nothing. */
  function PackageInfos(proj: Project, paths: seq<string>): (r: seq<PackageInfo>)
    ensures |r| <= |paths|
  {
    Parsed(paths, x => PackageInfoOf(proj, x))
  }

  /** The results of `parse` that are not null, in order (a LINQ Select then Where). */
  function Parsed<T>(xs: seq<string>, parse: string -> Option<T>): (r: seq<T>)
    ensures |r| <= |xs|
    decreases |xs|
  {
    if xs == [] then []
    else
      var rest := Parsed(xs[1..], parse);
      match parse(xs[0])
      case None => rest
      case Some(v) => [v] + rest
  }

  lemma {:induction false} ParsedMembers<T>(xs: seq<string>, parse: string -> Option<T>, v: T)
    ensures v in Parsed(xs, parse) <==> exists k :: 0 <= k < |xs| && parse(xs[k]) == Some(v)
    decreases |xs|
  {
    if xs != [] {
      ParsedMembers(xs[1..], parse, v);
      assert forall k :: 0 <= k < |xs[1..]| ==> xs[1..][k] == xs[k + 1];
      assert forall k :: 0 < k < |xs| ==> xs[k] == xs[1..][k - 1];
    }
  }

  /** The package infos are exactly those parsed from the FindAssets paths. */
  lemma PackageInfosMembers(proj: Project, paths: seq<string>, info: PackageInfo)
    ensures info in PackageInfos(proj, paths) <==>
      exists k :: 0 <= k < |paths| && PackageInfoOf(proj, paths[k]) == Some(info)
  {
    ParsedMembers(paths, x => PackageInfoOf(proj, x), info);
  }

  /** The first package whose resolved directory is the chosen folder's full path. */
  function FindPackage(infos: seq<PackageInfo>, localFullPath: string): (r: Option<PackageInfo>)
    ensures r.None? <==> forall k :: 0 <= k < |infos| ==> infos[k].resolvedPath != localFullPath
    ensures r.Some? ==> exists k :: (0 <= k < |infos| && infos[k] == r.value
                                     && infos[k].resolvedPath == localFullPath
                                     && forall j :: 0 <= j < k ==> infos[j].resolvedPath != localFullPath)
    decreases |infos|
  {
    if infos == [] then None
    else if infos[0].resolvedPath == localFullPath then Some(infos[0])
    else
      var r := FindPackage(infos[1..], localFullPath);
      assert forall k :: 0 <= k < |infos[1..]| ==> infos[1..][k] == infos[k + 1];
      r
  }

  // ---- sanitisation ----------------------------------------------------------

  /**
   * The asset-database path to collect from: the chosen folder itself, or
   * `Packages/<name>` for a matched package, which outside developer mode
   * must not lie in the Library folder nor belong to the Unity registry.
   */
  function AssetDbPath(ed: Editor, localRoot: string, pkg: Option<PackageInfo>): (r: Outcome<string>)
    ensures pkg.None? ==> r == Ok(localRoot)
    ensures r.Throws? <==> (pkg.Some? && !ed.developerMode
                            && (InLibrary(ed.project, pkg.value.name) || IsUnityRegistryName(pkg.value.name)))
    ensures r.Ok? && pkg.Some? ==> r.value == PackageDir(pkg.value.name)
  {
    match pkg
    case None => Ok(localRoot)
    case Some(info) =>
      if !ed.developerMode && InLibrary(ed.project, info.name) then Throws(LibraryPackage)
      else if !ed.developerMode && IsUnityRegistryName(info.name) then Throws(UnityRegistryPackage)
      else Ok(PackageDir(info.name))
  }

  /** Outside developer mode a package kept under the Library folder (the package cache) is refused. */
  lemma LibraryPackagesRefused(ed: Editor, localRoot: string, info: PackageInfo)
    requires '/' !in info.name
    ensures !ed.developerMode && StartsWith(ed.project.packageFolder(info.name), LibraryRoot(ed.project)) ==>
      AssetDbPath(ed, localRoot, Some(info)) == Throws(LibraryPackage)
  {
    LibraryTestMeaning(ed.project, info.name);
  }

  /** An embedded package is refused outside developer mode exactly when it comes from the Unity registry. */
  lemma RegistryPackagesRefused(ed: Editor, localRoot: string, info: PackageInfo)
    requires '/' !in info.name && ed.project.packageFolder(info.name) == EmbeddedFolder(ed.project, info.name)
    ensures AssetDbPath(ed, localRoot, Some(info))
         == if !ed.developerMode && IsUnityRegistryName(info.name) then Throws(UnityRegistryPackage)
            else Ok(PackageDir(info.name))
  {
    LibraryTestMeaning(ed.project, info.name);
  }

  // ---- AddChildrenToResults ------------------------------------------------------

  /** A path that is no file and whose GUID has no children in the asset database. */
  predicate Unresolvable(db: AssetDatabase, assetPath: string) {
    !db.isFile(assetPath) && |db.childrenOf(db.guidOf(assetPath))| == 0
  }

  /** The GUIDs one asset path stands for: a file's own GUID, or all the children of a folder's GUID. */
  function Expansion(db: AssetDatabase, assetPath: string): seq<string> {
    if db.isFile(assetPath) then [db.guidOf(assetPath)] else db.childrenOf(db.guidOf(assetPath))
  }

  /** A file adds its own GUID; a folder adds all its children, and must have some. */
  function AddChildrenToResults(db: AssetDatabase, results: seq<string>, assetPath: string): (r: Outcome<seq<string>>)
    ensures r.Throws? <==> Unresolvable(db, assetPath)
    ensures r.Ok? ==> |r.value| > |results| && r.value == results + Expansion(db, assetPath)
    ensures r.Ok? && db.isFile(assetPath) ==> r.value == results + [db.guidOf(assetPath)]
    ensures r.Ok? && !db.isFile(assetPath) ==> r.value == results + db.childrenOf(db.guidOf(assetPath))
  {
    if db.isFile(assetPath) then Ok(results + [db.guidOf(assetPath)])
    else
      var children := db.childrenOf(db.guidOf(assetPath));
      if |children| == 0 then Throws(NotInAssetDatabase)
      else Ok(results + children)
  }

  /** AddChildrenToResults for each path in turn, stopping at the first exception. */
  function AddAllChildren(db: AssetDatabase, results: seq<string>, paths: seq<string>): (r: Outcome<seq<string>>)
    ensures r.Throws? <==> exists k :: 0 <= k < |paths| && Unresolvable(db, paths[k])
    ensures r.Ok? ==> |r.value| >= |results| + |paths| && r.value[..|results|] == results
    decreases |paths|
  {
    if paths == [] then
      Ok(results)
    else
      var init := paths[..|paths| - 1];
      assert forall k :: 0 <= k < |init| ==> init[k] == paths[k];
      match AddAllChildren(db, results, init)
      case Throws(e) => Throws(e)
      case Ok(acc) =>
        var r := AddChildrenToResults(db, acc, paths[|paths| - 1]);
        assert r.Ok? ==> r.value[..|results|] == acc[..|results|];
        r
  }

  /** The collected GUIDs are the initial ones plus the expansion of every path. */
  lemma {:induction false} AddAllChildrenMembers(db: AssetDatabase, results: seq<string>, paths: seq<string>, g: string)
    ensures AddAllChildren(db, results, paths).Ok? ==>
      (g in AddAllChildren(db, results, paths).value <==>
       g in results || exists k :: 0 <= k < |paths| && g in Expansion(db, paths[k]))
    decreases |paths|
  {
    if paths != [] {
      var init := paths[..|paths| - 1];
      AddAllChildrenMembers(db, results, init, g);
      if AddAllChildren(db, results, paths).Ok? {
        var acc := AddAllChildren(db, results, init).value;
        var last := paths[|paths| - 1];
        assert AddAllChildren(db, results, paths).value == acc + Expansion(db, last);
        assert forall k :: 0 <= k < |init| ==> init[k] == paths[k];
      }
    }
  }

  /** Enumerable.Distinct: first occurrences, in order. */
  function Distinct(s: seq<string>): (r: seq<string>)
    ensures NoDuplicates(r)
    ensures forall x :: x in r <==> x in s
    ensures |r| <= |s|
    decreases |s|
  {
    if s == [] then []
    else
      var d := Distinct(s[..|s| - 1]);
      assert forall x :: x in s <==> x in s[..|s| - 1] || x == s[|s| - 1] by {
        assert s == s[..|s| - 1] + [s[|s| - 1]];
      }
      if s[|s| - 1] in d then d else d + [s[|s| - 1]]
  }

  // ---- the patched GetGUIDS ----------------------------------------------------

  /** The upload config that takes over a chosen folder, if any. */
  function ConfigFor(db: AssetDatabase, localRoot: string): Option<Config> {
    if StartsWith(localRoot, "/..") then None else db.configIn("Assets/" + localRoot)
  }

  /** GUIDs collected through an upload config: it must be valid, then its export paths are expanded. */
  function ConfigGuids(db: AssetDatabase, ed: Editor, config: Config): (r: Outcome<seq<string>>)
    ensures IsValid(ed, config.items) == Ok(false) ==> r == Throws(InvalidUploadConfig)
  {
    match IsValid(ed, config.items)
    case Throws(e) => Throws(e)
    case Ok(valid) =>
      if !valid then Throws(InvalidUploadConfig)
      else
        match ExportPaths(ed, config.items)
        case Throws(e) => Throws(e)
        case Ok(paths) => AddAllChildren(db, [], paths)
  }

  /**
   * The patched GetGUIDS, for a chosen folder `raw` whose full path
   * (Path.GetFullPath(Application.dataPath + localRootPath)) is `localFullPath`.
   */
  function CollectGuids(db: AssetDatabase, ed: Editor, raw: Option<string>, localFullPath: string): (r: Outcome<GuidsResult>)
  {
    match LocalRoot(raw)
    case None => Ok(RunOriginal)
    case Some(l) =>
      match ConfigFor(db, l)
      case Some(config) =>
        (match ConfigGuids(db, ed, config)
         case Throws(e) => Throws(e)
         case Ok(gs) => Ok(Collected(gs, true)))
      case None =>
        if db.guidOf("Assets/" + l) != "" then Ok(RunOriginal)
        else
          var pkg := FindPackage(PackageInfos(ed.project, db.packageJsons), localFullPath);
          match AssetDbPath(ed, l, pkg)
          case Throws(e) => Throws(e)
          case Ok(p) =>
            match AddChildrenToResults(db, [], p)
            case Throws(e) => Throws(e)
            case Ok(gs) => Ok(Collected(Distinct(gs), false))
  }

  /** The original method runs for a blank folder choice and for a plain folder under Assets. */
  lemma RunsOriginal(db: AssetDatabase, ed: Editor, raw: Option<string>, localFullPath: string)
    ensures LocalRoot(raw).None? ==> CollectGuids(db, ed, raw, localFullPath) == Ok(RunOriginal)
    ensures (LocalRoot(raw).Some? && ConfigFor(db, LocalRoot(raw).value).None?
             && db.guidOf("Assets/" + LocalRoot(raw).value) != "") ==> CollectGuids(db, ed, raw, localFullPath) == Ok(RunOriginal)
  {
  }

  /** Through a valid config, the GUIDs are exactly those its export paths stand for. */
  lemma ConfigGuidsMembers(db: AssetDatabase, ed: Editor, config: Config, g: string)
    requires ConfigGuids(db, ed, config).Ok?
    ensures ExportPaths(ed, config.items).Ok?
    ensures var paths := ExportPaths(ed, config.items).value;
      g in ConfigGuids(db, ed, config).value <==> exists k :: 0 <= k < |paths| && g in Expansion(db, paths[k])
  {
    AddAllChildrenMembers(db, [], ExportPaths(ed, config.items).value, g);
  }

  /** Developer mode is on, or the package is neither cached under Library nor from the Unity registry. */
  predicate MayExport(ed: Editor, name: string) {
    ed.developerMode
    || (!StartsWith(ed.project.packageFolder(name), LibraryRoot(ed.project)) && !IsUnityRegistryName(name))
  }

  /**
   * A package folder: outside developer mode a package kept under the
   * Library folder is refused first, then a Unity-registry package;
   * otherwise exactly the GUIDs the package folder stands for are
   * collected, each once.
   */
  lemma PackageFolderGuids(db: AssetDatabase, ed: Editor, raw: Option<string>, localFullPath: string, info: PackageInfo)
    requires LocalRoot(raw).Some? && ConfigFor(db, LocalRoot(raw).value).None?
    requires db.guidOf("Assets/" + LocalRoot(raw).value) == ""
    requires FindPackage(PackageInfos(ed.project, db.packageJsons), localFullPath) == Some(info)
    ensures !ed.developerMode && StartsWith(ed.project.packageFolder(info.name), LibraryRoot(ed.project)) ==>
      CollectGuids(db, ed, raw, localFullPath) == Throws(LibraryPackage)
    ensures !ed.developerMode && !StartsWith(ed.project.packageFolder(info.name), LibraryRoot(ed.project))
            && IsUnityRegistryName(info.name) ==>
      CollectGuids(db, ed, raw, localFullPath) == Throws(UnityRegistryPackage)
    ensures MayExport(ed, info.name) && Unresolvable(db, PackageDir(info.name)) ==>
      CollectGuids(db, ed, raw, localFullPath) == Throws(NotInAssetDatabase)
    ensures MayExport(ed, info.name) && !Unresolvable(db, PackageDir(info.name)) ==>
      var r := CollectGuids(db, ed, raw, localFullPath);
      && r.Ok? && r.value.Collected? && !r.value.fromConfig
      && NoDuplicates(r.value.guids)
      && |r.value.guids| > 0
      && forall g :: g in r.value.guids <==> g in Expansion(db, PackageDir(info.name))
  {
    var infos := PackageInfos(ed.project, db.packageJsons);
    var k :| 0 <= k < |infos| && infos[k] == info;
    PackageInfosMembers(ed.project, db.packageJsons, info);
    LibraryTestMeaning(ed.project, info.name);
    var gs := AddChildrenToResults(db, [], PackageDir(info.name));
    if gs.Ok? {
      assert gs.value[0] in Distinct(gs.value);
    }
  }

  /** The loop of the patched GetGUIDS, proved against CollectGuids. */
  method GetGuids(db: AssetDatabase, ed: Editor, raw: Option<string>, localFullPath: string)
    returns (r: Outcome<GuidsResult>)
    ensures r == CollectGuids(db, ed, raw, localFullPath)
  {
    var root := LocalRoot(raw);
    if root.None? {
      return Ok(RunOriginal);
    }
    var l := root.value;
    var config := ConfigFor(db, l);
    if config.Some? {
      var gs := GetConfigGuids(db, ed, config.value);
      return if gs.Ok? then Ok(Collected(gs.value, true)) else Throws(gs.error);
    }
    if db.guidOf("Assets/" + l) != "" {
      return Ok(RunOriginal);
    }
    var infos := PackageInfos(ed.project, db.packageJsons);
    var packageInfo := FindPackageOf(infos, localFullPath);
    var assetDbPath := AssetDbPath(ed, l, packageInfo);
    if assetDbPath.Throws? {
      return Throws(assetDbPath.error);
    }
    var results := AddChildrenToResults(db, [], assetDbPath.value);
    if results.Throws? {
      return Throws(results.error);
    }
    r := Ok(Collected(Distinct(results.value), false));
  }

  /** The upload-config branch of GetGUIDS: validate, then collect every export path's children. */
  method GetConfigGuids(db: AssetDatabase, ed: Editor, config: Config) returns (r: Outcome<seq<string>>)
    ensures r == ConfigGuids(db, ed, config)
  {
    var valid := IsValid(ed, config.items);
    if valid.Throws? {
      return Throws(valid.error);
    }
    if !valid.value {
      return Throws(InvalidUploadConfig);
    }
    var paths := GetExportPaths(ed, config.items);
    if paths.Throws? {
      return Throws(paths.error);
    }
    r := AddChildrenOfAll(db, paths.value);
  }

  /** The foreach over the export paths, proved against AddAllChildren. */
  method AddChildrenOfAll(db: AssetDatabase, paths: seq<string>) returns (r: Outcome<seq<string>>)
    ensures r == AddAllChildren(db, [], paths)
  {
    var results: seq<string> := [];
    var i := 0;
    while i < |paths|
      invariant 0 <= i <= |paths|
      invariant AddAllChildren(db, [], paths[..i]) == Ok(results)
    {
      assert paths[..i + 1][..i] == paths[..i];
      var next := AddChildrenToResults(db, results, paths[i]);
      if next.Throws? {
        AddAllChildrenExtend(db, paths, i + 1);
        return Throws(next.error);
      }
      results := next.value;
      i := i + 1;
    }
    assert paths[..i] == paths;
    r := Ok(results);
  }

  /** The search for the package whose resolved path is the chosen folder, proved against FindPackage. */
  method FindPackageOf(infos: seq<PackageInfo>, localFullPath: string) returns (packageInfo: Option<PackageInfo>)
    ensures packageInfo == FindPackage(infos, localFullPath)
  {
    packageInfo := None;
    var k := 0;
    while k < |infos|
      invariant 0 <= k <= |infos|
      invariant packageInfo.None? ==> FindPackage(infos[k..], localFullPath) == FindPackage(infos, localFullPath)
      invariant packageInfo.Some? ==> packageInfo == FindPackage(infos, localFullPath)
      decreases |infos| - k, if packageInfo.None? then 1 else 0
    {
      if infos[k].resolvedPath == localFullPath {
        packageInfo := Some(infos[k]);
        break;
      }
      assert infos[k..][1..] == infos[k + 1..];
      k := k + 1;
    }
    if packageInfo.None? {
      assert infos[k..] == [];
    }
  }

  /** Once a prefix of the paths throws, so do all the paths. */
  lemma {:induction false} AddAllChildrenExtend(db: AssetDatabase, paths: seq<string>, n: nat)
    requires n <= |paths| && AddAllChildren(db, [], paths[..n]).Throws?
    ensures AddAllChildren(db, [], paths).Throws?
    ensures AddAllChildren(db, [], paths) == AddAllChildren(db, [], paths[..n])
    decreases |paths| - n
  {
    if n < |paths| {
      assert paths[..n + 1][..n] == paths[..n];
      AddAllChildrenExtend(db, paths, n + 1);
    } else {
      assert paths[..n] == paths;
    }
  }
}
