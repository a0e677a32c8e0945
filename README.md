# Hybrid packages: a Dafny model of the `.unitypackage` builder

The hybrid-packages editor extension lets the Unity Asset Store tools upload
UPM packages (folders under `Packages/`) as `.unitypackage` archives. It does
three things, and this project models each of them and proves what it
promises:

- **The patched `Packager.ExportPackage`** (`PackagerExportPatch.Prefix`).
  When the selection holds a package asset, the extension builds the export
  set itself. The set holds every selected asset path. For each package root
  it also holds the files of the root's hidden `~` folders, minus:
  - the fixed `defaultNpmIgnore` names;
  - `.meta` files;
  - when an upload config asks for it, whatever the package's
    `.gitignore`/`.npmignore` files exclude.

  Modules: `PackagerExport` (the sweep and the decision) and `IgnoreRules`
  (collecting and applying the ignore files).
- **The patched `AssetStorePackageController.GetGUIDS`** (`GetGUIDsPatch`).
  This decides which GUIDs the uploader packs for the folder chosen in its
  window:
  - a folder holding an upload config: the config's export paths;
  - a local or embedded package folder: that package, after the Library and
    Unity-registry sanitisation;
  - anything else: the original method.

  Modules: `AssetGuids`, `UploadConfig` (`IsValid`, `GetExportPaths`,
  `GetActualExportObject`, `GetExportFilename`) and `PackagePaths` (package
  roots and the sanitisation tests).
- **`UnitypackageExporter`**. `AddToUnityPackage` stages one asset as a
  `<guid>/pathname`, `<guid>/asset` and `<guid>/asset.meta` folder. The GUID
  comes from the asset's `.meta` file, or else from the MD5 digest of its
  bytes in uppercase hex. `ExportUnitypackage` guards the archive name and
  gathers the GUIDs. Module: `Staging`.

Behaviour of the code worth knowing:
- The two-argument `AddToUnityPackage` does not repair GUID collisions and
  does not reject a repeated path. A second source with a staged GUID
  overwrites `pathname` and then fails at the `asset` copy (`StageReusedGuid`).
- A missing source is logged and skipped, not raised (`StageGuards`).
- Both `.gitignore` and `.npmignore` of a folder are used; neither takes
  priority.
- Ignore files are honoured only when an upload config with
  `respectIgnoreFiles` is in use.

Conventions of the model:
- Exceptions are values: `Outcomes.Outcome` is `Ok(value)` or `Throws(error)`.
- The disk is a snapshot, `FileTree.FileSystem`. It holds directories, some
  of which cannot be listed, and files with their bytes and lines. The
  filesystem root is the empty path; `FileInfo.Directory.FullName` spells
  it `/` (`FileTree.DirectoryOf`), so a rule file in the root is recorded
  under `/`.
- Path.GetFullPath follows Unity's package resolution. `Packages/<name>`
  is the package's folder on disk, which `PackagePaths.Project` gives as
  a function of the name. An embedded package lives at
  `<project>/Packages/<name>`. A registry or git package lives under
  `<project>/Library/PackageCache`. A `file:` package lives wherever it was
  put. Any other relative path is joined to the project folder.
- The exporter's ignore handling is modelled as written: the raw text-prefix
  test, and upward rule files kept even outside a repository. The behaviour
  its comments describe is `PackagerExport.IgnoreMode.Intended`. The lemmas
  compare the two.
- The asset database, the editor state and the Ignore library's glob matcher
  are given as functions and values (`AssetGuids.AssetDatabase`,
  `UploadConfig.Editor`, `IgnoreRules.Matcher`). MD5 is a given function
  from bytes to a 16-byte `Staging.Digest`.
- Each C# loop is a Dafny `method` proved equal to a function that states its result.
  The properties are proved about that function. `IgnoreRules.IgnoreList`
  and `Staging.StagingDir` are classes, because the source updates their
  state in place.

## Model

| member | source | states |
|---|---|---|
| PackagePaths.PackageRootOf | Editor/AssetStoreToolsExtension.cs:455-461 | a path outside `Packages/` has no root; otherwise the root is the first segment after the prefix, and `Packages/<name>` with no further `/` is the failing case |
| PackagePaths.PackageRootOfJoin | Editor/AssetStoreToolsExtension.cs:455-461 | every `Packages/<name>/<rest>` path has root `name` (converse of PackageRootOf) |
| PackagePaths.FullPathOfPackageDir | Editor/AssetStoreUploadConfig.cs:53 | `Packages/<name>` resolves to the folder on disk that Unity keeps package `name` in |
| PackagePaths.FullPathInPackage | Editor/AssetStoreToolsExtension.cs:331 | a path inside package `name` resolves to the same place inside that package's folder |
| PackagePaths.LibraryTestMeaning | Editor/AssetStoreUploadConfig.cs:51-54 | the Library test on `Packages/<name>` holds iff the package's folder starts with `<project>/Library` as text; it holds for every folder below the Library, and never for an embedded package |
| UploadConfig.ActualExportObject | Editor/AssetStoreUploadConfig.cs:36-64 | a null object stays null; a non-package asset is itself; an asset in a package becomes the package folder asset; outside developer mode it is null when the package's folder lies under the Library, or when the package is Unity-registry scoped; it throws exactly for `Packages/<name>` without a further `/` |
| UploadConfig.PackageAssetExportsRoot | Editor/AssetStoreUploadConfig.cs:42-61 | for any asset inside package `name`: null outside developer mode when the package's folder starts with `<project>/Library` or the name is registry scoped; otherwise the package folder asset, or null when that does not load |
| UploadConfig.AnyExportable | Editor/AssetStoreUploadConfig.cs:19 | `Any` is true only with an exportable entry; it throws only if some entry throws; when none throws it is exactly "some entry is exportable" |
| UploadConfig.IsValid | Editor/AssetStoreUploadConfig.cs:19 | a null list is invalid; valid implies some entry has an export object |
| UploadConfig.IsValidMeaning | Editor/AssetStoreUploadConfig.cs:19 | when no entry throws, valid iff some entry has an export object |
| UploadConfig.ExportPathsOf | Editor/AssetStoreUploadConfig.cs:25-33 | the HashSet contents in insertion order hold no duplicates |
| UploadConfig.ExportPathsOfMeaning | Editor/AssetStoreUploadConfig.cs:25-31 | a path is exported iff some entry's actual export object is the asset at that path |
| UploadConfig.ExportPathsOfThrows | Editor/AssetStoreUploadConfig.cs:25-31 | the loop throws iff some entry's GetActualExportObject throws |
| UploadConfig.ExportPathsOfExtend | Editor/AssetStoreUploadConfig.cs:26-31 | once an entry throws, the entries after it do not change the outcome |
| UploadConfig.ExportPaths | Editor/AssetStoreUploadConfig.cs:21-23 | a null or empty list gives no paths |
| UploadConfig.GetExportPaths | Editor/AssetStoreUploadConfig.cs:21-34 | the HashSet loop computes ExportPaths |
| UploadConfig.MiddleName | Editor/AssetStoreUploadConfig.cs:69-74 | the middle of the archive name has no `/` or `\` and neither starts nor ends with `_` |
| UploadConfig.ExportFilename | Editor/AssetStoreUploadConfig.cs:66-76 | null exactly for a destroyed config; otherwise `<outputSubFolder>/HybridPackage_<middle>.unitypackage`, with no `/` after the output folder |
| UploadConfig.ArchiveNameShape | Editor/AssetStoreUploadConfig.cs:69-75 | the name built from a slash-free middle has the prefix, the suffix and a single folder level |
| AssetGuids.LocalRoot | Editor/AssetStoreToolsExtension.cs:272-281 | null, "" and "/" defer to the original method; otherwise one leading `/` is dropped exactly when it does not start `/.` |
| AssetGuids.PackageInfoOf | Editor/AssetStoreToolsExtension.cs:324-335 | a recognised manifest path is exactly `Packages/<name>/package.json` with a slash-free name; its resolved path is the package's folder on disk, with `\` turned into `/` |
| AssetGuids.PackageInfoOfManifest | Editor/AssetStoreToolsExtension.cs:324-335 | every `Packages/<name>/package.json` is recognised, with its name and the package's resolved folder (converse of PackageInfoOf) |
| AssetGuids.ManifestDirectory | Editor/AssetStoreToolsExtension.cs:331 | the directory of the resolved manifest path is the package's folder |
| AssetGuids.PackageInfosMembers | Editor/AssetStoreToolsExtension.cs:321-338 | the package infos are exactly those parsed from the FindAssets paths |
| AssetGuids.FindPackage | Editor/AssetStoreToolsExtension.cs:340-351 | null iff no package resolves to the chosen folder; otherwise the first that does |
| AssetGuids.AssetDbPath | Editor/AssetStoreToolsExtension.cs:353-368 | without a package the chosen folder; with one `Packages/<name>`, throwing exactly outside developer mode for a package whose folder starts with `<project>/Library` or one that is registry scoped |
| AssetGuids.RegistryPackagesRefused | Editor/AssetStoreToolsExtension.cs:358-367 | an embedded package passes the Library test; outside developer mode it is then refused exactly when registry scoped |
| AssetGuids.LibraryPackagesRefused | Editor/AssetStoreToolsExtension.cs:358-363 | outside developer mode, a package whose folder lies under `<project>/Library` throws the Library exception |
| AssetGuids.AddChildrenToResults | Editor/AssetStoreToolsExtension.cs:250-265 | a file appends exactly its own GUID; a folder appends exactly its children; it throws iff the path is no file and has no children; earlier results are kept as a prefix |
| AssetGuids.AddAllChildren | Editor/AssetStoreToolsExtension.cs:301-304 | expanding every export path throws iff some path is unresolvable; otherwise each path adds at least one GUID |
| AssetGuids.AddAllChildrenMembers | Editor/AssetStoreToolsExtension.cs:301-304 | the collected GUIDs are the earlier results plus exactly the expansions (own GUID or children) of the export paths |
| AssetGuids.AddAllChildrenExtend | Editor/AssetStoreToolsExtension.cs:301-304 | an exception from one export path ends the whole loop with that outcome |
| AssetGuids.Distinct | Editor/AssetStoreToolsExtension.cs:378 | the result has no duplicates and the same members as its input |
| AssetGuids.ConfigGuids | Editor/AssetStoreToolsExtension.cs:295-306 | an invalid upload config raises the invalid-config exception |
| AssetGuids.ConfigGuidsMembers | Editor/AssetStoreToolsExtension.cs:295-306 | a valid config collects exactly the GUIDs of the expansions of its export paths |
| AssetGuids.RunsOriginal | Editor/AssetStoreToolsExtension.cs:274-315 | the original method runs for a blank choice and for a folder under Assets with no config and a GUID |
| AssetGuids.PackageFolderGuids | Editor/AssetStoreToolsExtension.cs:353-378 | for a matched package folder outside developer mode: a folder under the Library throws the Library exception, otherwise a registry package throws the registry one; when it may be exported, an unresolvable folder throws, and otherwise exactly the GUIDs of the folder's expansion are collected, each once, at least one |
| AssetGuids.GetGuids | Editor/AssetStoreToolsExtension.cs:268-381 | the patched GetGUIDS, with its loops, computes CollectGuids |
| AssetGuids.GetConfigGuids | Editor/AssetStoreToolsExtension.cs:295-306 | the upload-config branch (validity check, export paths, children) computes ConfigGuids |
| AssetGuids.AddChildrenOfAll | Editor/AssetStoreToolsExtension.cs:301-304 | the loop over the export paths computes AddAllChildren |
| AssetGuids.FindPackageOf | Editor/AssetStoreToolsExtension.cs:340-351 | the search loop over the package infos computes FindPackage |
| IgnoreRules.PatternLineMeaning | Editor/AssetStoreToolsExtension.cs:487 | a line is a pattern iff it has a non-whitespace character and the first one is not `#` |
| IgnoreRules.PatternLines | Editor/AssetStoreToolsExtension.cs:487 | exactly the pattern lines of a rule file are handed on |
| IgnoreRules.RuleSetsIn | Editor/AssetStoreToolsExtension.cs:484-491 | a rule set is collected iff it comes from a listed file of the searched name |
| IgnoreRules.FindRuleFiles | Editor/AssetStoreToolsExtension.cs:480-497 | AddToIgnore's listing loop computes RuleFiles, and nothing when the listing throws |
| IgnoreRules.WalkUpwards | Editor/AssetStoreToolsExtension.cs:503-529 | the parent walk reports a repository exactly when WalkUp does, and then returns its rule sets |
| IgnoreRules.RepoMeansMarkedAncestor | Editor/AssetStoreToolsExtension.cs:506-523 | the walk reports a repository only when an ancestor holds a `.git` directory or file |
| IgnoreRules.MarkedAncestorMeansRepo | Editor/AssetStoreToolsExtension.cs:506-523 | an ancestor holding a `.git` marker, reached through listable folders only, makes the walk report a repository (converse of RepoMeansMarkedAncestor) |
| IgnoreRules.NoRepoNoUpwardRules | Editor/AssetStoreToolsExtension.cs:531-534 | outside a repository only the rule files below the root are used |
| IgnoreRules.AsWrittenAgreesInRepo | Editor/AssetStoreToolsExtension.cs:480-534 | inside a repository the as-written rule list equals the intended one |
| IgnoreRules.IntendedRulesIncluded | Editor/AssetStoreToolsExtension.cs:480-534 | every rule set of the intended list is in the as-written list |
| IgnoreRules.AsWrittenKeepsRulesOutsideRepo | Editor/AssetStoreToolsExtension.cs:480-534 | outside a repository the as-written list keeps a parent folder's rule file, where the intended list is empty |
| IgnoreRules.ForeignRulesIrrelevant | Editor/AssetStoreToolsExtension.cs:546-552 | rule sets of folders that do not contain the file never change the verdict |
| IgnoreRules.IgnoredAsWritten | Editor/AssetStoreToolsExtension.cs:539-564 | as written, a file is ignored only if some rule folder is a text prefix of its path; an exception is always the Substring one, for a path equal to a rule folder |
| IgnoreRules.IgnoredAsWrittenMeaning | Editor/AssetStoreToolsExtension.cs:539-564 | in list order, the first rule set whose folder is a text prefix of the path decides unless its patterns pass the remainder: ignored iff such a set ignores it, the Substring exception iff the path equals such a set's folder, not ignored iff no set does either |
| IgnoreRules.AsWrittenIgnoresAtLeast | Editor/AssetStoreToolsExtension.cs:546-552 | a file the raw prefix test lets through, over a list holding every intended rule set, is not ignored by the containment test |
| IgnoreRules.AsWrittenLeaksToSibling | Editor/AssetStoreToolsExtension.cs:546-553 | as written, the rules of `/pkg/Doc` are consulted for `/pkg/Docs~/notes.txt`; with the containment check they are not |
| IgnoreRules.IgnoreList.constructor | Editor/AssetStoreToolsExtension.cs:470 | the ignore list starts empty |
| IgnoreRules.IgnoreList.CollectIgnoreFiles | Editor/AssetStoreToolsExtension.cs:473-537 | the list is rebuilt as written: the root's rule files, then every upward rule file the walk met, whether or not it reached a repository (IgnoreRuleSetsAsWritten); each under its folder's FullName, `/` for the filesystem root |
| IgnoreRules.IgnoreList.AddToIgnore | Editor/AssetStoreToolsExtension.cs:480-497 | the listed rule files are appended to `ignoreFiles`, whatever list is passed, keeping what it held, each under its folder's FullName with `\` turned into `/` |
| IgnoreRules.RootRuleFileFolder | Editor/AssetStoreToolsExtension.cs:488-490 | a rule file in the filesystem root is recorded under `/`, its folder's FullName |
| IgnoreRules.RootRuleSetExample | Editor/AssetStoreToolsExtension.cs:546-553 | as written, the rules recorded under `/` are asked about `/w/pkg/Doc~/a.txt` minus two characters, `/pkg/Doc~/a.txt`; the containment check never applies them |
| IgnoreRules.IgnoreList.IsIgnored | Editor/AssetStoreToolsExtension.cs:539-564 | the as-written test over the list: IgnoredAsWritten of the path with `\` turned into `/`, throwing where Substring does |
| PackagerExport.Extension | Editor/AssetStoreToolsExtension.cs:600 | the extension is empty, or starts with the name's last `.` and ends the name |
| PackagerExport.KeptInMembers | Editor/AssetStoreToolsExtension.cs:595-607 | a hidden folder's files throw iff the ignore test of one below it throws; otherwise a path is kept iff some file below the folder passes the three filters and maps to it |
| PackagerExport.KeepThrows | Editor/AssetStoreToolsExtension.cs:597-603 | only the as-written ignore test throws, and only the Substring exception |
| PackagerExport.SweptInMembers | Editor/AssetStoreToolsExtension.cs:580-614 | the hidden folders throw iff one of them does; otherwise a path is swept iff it is kept from some `~` folder, not a dot-folder, below the root |
| PackagerExport.SweepOfThrows | Editor/AssetStoreToolsExtension.cs:576-614 | a root's sweep throws iff its folder cannot be listed or the ignore test of a file in one of its hidden folders throws; only those two exceptions occur, and the intended test never throws |
| PackagerExport.InSweepMeaning | Editor/AssetStoreToolsExtension.cs:579-607 | a path is swept from a root iff some file of a hidden folder below the root's folder passes the filters and maps to it |
| PackagerExport.SweptPathsUnderRoot | Editor/AssetStoreToolsExtension.cs:605 | every swept path is project-relative and starts with its package root |
| PackagerExport.KeepAsWrittenThenIntended | Editor/AssetStoreToolsExtension.cs:597-603 | a file the exporter as written keeps is kept by the intended filters too |
| PackagerExport.SweepModesCompare | Editor/AssetStoreToolsExtension.cs:576-614 | without ignore files both modes sweep a root alike; otherwise an as-written sweep that succeeds is a subset of the intended sweep, which succeeds too |
| PackagerExport.PackageRoots | Editor/AssetStoreToolsExtension.cs:453-465 | the roots are distinct; the only exception is the Substring one |
| PackagerExport.PackageRootsMembers | Editor/AssetStoreToolsExtension.cs:453-465 | the roots are exactly the `Packages/<name>` folders of the selected package paths |
| PackagerExport.PackageRootsThrows | Editor/AssetStoreToolsExtension.cs:453-465 | the loop throws iff some selected path is `Packages/<name>` with no further `/` |
| PackagerExport.SweepAll | Editor/AssetStoreToolsExtension.cs:570-617 | the only exceptions of the root loop are the directory-listing one and the ignore test's Substring one |
| PackagerExport.SweepAllMeaning | Editor/AssetStoreToolsExtension.cs:570-617 | the root loop throws iff some root's sweep throws; otherwise a path is swept iff some root's sweep holds it |
| PackagerExport.RunsOriginalIffNoPackages | Editor/AssetStoreToolsExtension.cs:427-434 | the original exporter runs iff no selected path is in `Packages/`; "Include Dependencies" throws iff one is |
| PackagerExport.ExportedPaths | Editor/AssetStoreToolsExtension.cs:446-617 | an export keeps every selected path; any other path it holds is swept from a package root and starts with it |
| PackagerExport.ExportedFromRoots | Editor/AssetStoreToolsExtension.cs:446-617 | the same, for given roots whose sweeps succeed |
| PackagerExport.ExportSetParts | Editor/AssetStoreToolsExtension.cs:443-617 | an export means the roots and their sweeps succeeded, and the set is selection plus sweeps |
| PackagerExport.ExportSetModesCompare | Editor/AssetStoreToolsExtension.cs:424-617 | as written and as intended decide alike without ignore files, and run the original exporter alike; an as-written export set is contained in the intended one, which then exists too |
| PackagerExport.Prefix | Editor/AssetStoreToolsExtension.cs:424-649 | the patched Prefix, with its loops and its own ignore handling, computes ExportSet as written |
| PackagerExport.AddSelected | Editor/AssetStoreToolsExtension.cs:449-451 | the selected paths are all added |
| PackagerExport.CollectPackageRoots | Editor/AssetStoreToolsExtension.cs:453-465 | the packageRoots loop computes PackageRoots |
| PackagerExport.SweepRoots | Editor/AssetStoreToolsExtension.cs:568-617 | the loop over the package roots computes SweepAll as written, stopping at the first exception |
| PackagerExport.SweepRoot | Editor/AssetStoreToolsExtension.cs:576-614 | one root: the as-written ignore list is collected for the root's folder, then its hidden folders are swept (SweepOf as written) |
| PackagerExport.SweepHiddenFolders | Editor/AssetStoreToolsExtension.cs:579-614 | the loop over the hidden `~` folders computes SweptIn, stopping at the first exception |
| PackagerExport.SweepFolder | Editor/AssetStoreToolsExtension.cs:595-607 | the file loop of one hidden folder computes KeptIn, stopping at the first exception |
| PackagerExport.KeepFile | Editor/AssetStoreToolsExtension.cs:597-603 | one file: the npm default list, the `.meta` filter, then the as-written ignore test, whose exception it passes on (Keep) |
| Staging.HexByte | Editor/UnitypackageExport.cs:95 | a byte renders as two uppercase hex digits without a dash |
| Staging.Hex | Editor/UnitypackageExport.cs:95 | bytes render as two hex digits each |
| Staging.DashedWithoutDashes | Editor/UnitypackageExport.cs:95 | removing the dashes from BitConverter.ToString leaves the plain hex digits |
| Staging.DigestGuid | Editor/UnitypackageExport.cs:91-96 | a digest GUID is 32 uppercase hex digits |
| Staging.ParseHexOfHex | Editor/UnitypackageExport.cs:95 | the hex rendering can be parsed back to the bytes |
| Staging.DigestGuidInjective | Editor/UnitypackageExport.cs:91-96 | different digests give different GUIDs |
| Staging.GuidLineNone | Editor/UnitypackageExport.cs:73-85 | no GUID is read iff no line starts with `guid:` |
| Staging.GuidLineFirst | Editor/UnitypackageExport.cs:73-85 | a GUID read is the trimmed remainder of the first line starting with `guid:` |
| Staging.GuidLineStopsEarly | Editor/UnitypackageExport.cs:76-84 | lines after the first `guid:` line are never read |
| Staging.ReadGuid | Editor/UnitypackageExport.cs:73-85 | the StreamReader loop computes GuidLine |
| Staging.RelativePath | Editor/UnitypackageExport.cs:101-104 | `pathname` has no `\`; it is the path minus the project folder when the path lies inside it, else the path |
| Staging.RelativeOfFullPath | Editor/UnitypackageExport.cs:101-104 | a path built from the project folder gives back its project-relative part |
| Staging.Write | Editor/UnitypackageExport.cs:106-110 | only the GUID's folder changes and names the source; `asset.meta` never lands without `asset`; success means the source bytes were copied |
| Staging.StageGuards | Editor/UnitypackageExport.cs:58-67 | no target directory throws, a missing source or a `.meta` source writes nothing; otherwise only the source's folder changes |
| Staging.StageFreshFolder | Editor/UnitypackageExport.cs:58-110 | a file whose folder has no asset yet gets `pathname`, `asset` and, exactly with a `.meta`, `asset.meta` |
| Staging.StageReusedGuid | Editor/UnitypackageExport.cs:106-109 | a GUID already staged has its `pathname` overwritten, then the asset copy fails and the earlier asset stays |
| Staging.FolderWithoutMeta | Editor/UnitypackageExport.cs:87-100 | without `.meta` a file's folder is its digest GUID of 32 digits, and a directory's is the null GUID |
| Staging.StagingDir.constructor | Editor/UnitypackageExport.cs:60 | a staging directory starts empty |
| Staging.StagingDir.AddToUnityPackage | Editor/UnitypackageExport.cs:58-110 | the method computes Stage and keeps `asset.meta` next to an `asset` |
| Staging.StagingDir.WriteEntry | Editor/UnitypackageExport.cs:106-110 | the three writes compute Write |
| Staging.ExportUnitypackage | Editor/UnitypackageExport.cs:31-47 | null iff the name lacks `.unitypackage` in any case; otherwise it exports the children of the root GUIDs, in order, and returns `dataPath/fileName` |
| Staging.ConfigFilenamePassesGuard | Editor/UnitypackageExport.cs:33-37 | every archive name an upload config derives passes the file-name guard |

## Left out

- Harmony patching, reflection on the Asset Store tools and the progress/profiler/logging calls are not modelled. Prefix returning `true`/`false` is the `RunOriginal` decision.
- The `package/` copies of the editor scripts are not part of this model.
- The staging of the export set and the archive step are not modelled (AssetStoreToolsExtension.cs:623-643: the three-argument `AddToUnityPackage` with `guidToFile`, Zipper, `Directory.Delete`). The three-argument overload is not part of the available source. `Zipper.cs` is not part of this model (compression, external tool).
- The preview icon of `AddToUnityPackage` (UnitypackageExport.cs:112-124) is not modelled. It needs texture encoding.
- The inspector UI (AssetStoreUploadConfig.cs:79-189) and the tests are not modelled.
- The export set is a set: the order of `exportPaths` and its `OrderByDescending` at AssetStoreToolsExtension.cs:626 depend on the host. `UploadConfig.ExportPathsOf` takes HashSet insertion order to be enumeration order.
- MD5, the Ignore library's glob matching, `Unsupported.IsDeveloperMode` and the asset-database queries are not modelled. They are inputs: `md5`, `Matcher`, `Editor`, `AssetDatabase`.
- `AssetGuids.CollectGuids` takes the full path of the chosen folder as a parameter. It does not compute `Path.GetFullPath(Application.dataPath + localRootPath)`.
- `FindAssets` and `LoadAssetAtPath` for the upload config under a folder are one given function, `configIn`. It also covers `Directory.Exists("Assets/" + localRootPath)`.
- Path.GetFullPath is not computed from the disk: package folders come from `Project.packageFolder`, and other paths are joined to the project folder. A path with `.` or `..` segments, a symbolic link or a drive letter is not resolved.
- A directory listing refused for lack of permission raises UnauthorizedAccessException, which the `catch (IOException)` handlers at AssetStoreToolsExtension.cs:493, :525 and :610 do not catch, so the exporter aborts. The model has one `listable` flag, and treats every failed listing as an IOException.
- `StartsWith` and `EndsWith` without a `StringComparison` at AssetStoreToolsExtension.cs:285, :324 and :550, and at UnitypackageExport.cs:67, :78 and :104, compare culture-sensitively in .NET. The model compares ordinally, which agrees with .NET whenever the compared strings are ASCII.
- Text decoding of files is not modelled: a `File` carries its bytes and its lines side by side. Case-insensitive comparison folds ASCII letters only.
- Staging.StageReusedGuid: File.Copy onto an existing file and File.Copy of a directory both surface as one error, `CopyFailed`. The distinct .NET exception types are not kept.
- A GUID containing `/` or `..` would name a folder elsewhere under the staging directory. The model keeps it as an opaque folder key.

## Findings

| source | as written | input that shows it | evidently intended | confidence | as-written member | corrected member |
|---|---|---|---|---|---|---|
| Editor/AssetStoreToolsExtension.cs:550-552 | `IsIgnored` tests `filePath.StartsWith(ig.dir)` with no separator, so a rule file's folder matches any path sharing its text prefix | rules in `/pkg/Doc`, file `/pkg/Docs~/notes.txt`: the rules are asked about `~/notes.txt` | apply a rule file only to paths inside its own folder, as the comment at :547-549 says | high; not executed | IgnoreRules.AsWrittenLeaksToSibling | IgnoreRules.ForeignRulesIrrelevant |
| Editor/AssetStoreToolsExtension.cs:480-534 | `AddToIgnore` ignores its `ignoreList` parameter and always appends to `ignoreFiles`, so `upwardsIgnoreFiles` stays empty and the upward rule files are kept even outside a repository | package root `/w/pkg`, `/w/.gitignore` holding `*.tmp`, no `.git` anywhere: the list holds `/w`'s rules | keep the upward rule files only when the walk reaches a `.git` marker, as the comment at :531-532 says | high; not executed | IgnoreRules.AsWrittenKeepsRulesOutsideRepo | IgnoreRules.NoRepoNoUpwardRules |

A further observation is proved but is not a finding:
- A selected or configured path `Packages/<name>` with no further `/` makes `Substring(0, -1)` throw. The model keeps that exception (`PackagePaths.PackageRootOf`).
