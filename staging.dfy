/**
 * UnitypackageExporter: staging one asset as a `.unitypackage` entry, and
 * the file-name guard of ExportUnitypackage.
 *
 * The staging directory is a map from GUID (the name of the entry's folder)
 * to the files written there: `pathname`, `asset` and `asset.meta`. The
 * preview icon is not modelled.
 */
module Staging {
  import opened Text
  import opened Outcomes
  import opened FileTree
  import UploadConfig

  // ---- the digest GUID -------------------------------------------------------

  /** A 16-byte MD5 hash. */
  type Digest = d: seq<byte> | |d| == 16 witness seq(16, _ => 0)

  const HexDigits: string := "0123456789ABCDEF"

  /** One byte as two uppercase hex digits. */
  function HexByte(b: byte): (h: string)
    ensures |h| == 2 && h[0] in HexDigits && h[1] in HexDigits && '-' !in h
  {
    [HexDigits[b / 16], HexDigits[b % 16]]
  }

  /** The bytes as hex digits, two per byte, without separators. */
  function Hex(bytes: seq<byte>): (h: string)
    ensures |h| == 2 * |bytes|
    ensures forall k :: 0 <= k < |h| ==> h[k] in HexDigits
  {
    if bytes == [] then "" else HexByte(bytes[0]) + Hex(bytes[1..])
  }

  /** BitConverter.ToString: the bytes as hex pairs separated by '-'. */
  function Dashed(bytes: seq<byte>): string {
    if |bytes| <= 1 then Hex(bytes) else HexByte(bytes[0]) + "-" + Dashed(bytes[1..])
  }

  /** Removing the dashes of BitConverter.ToString leaves the plain hex digits. */
  lemma {:induction false} DashedWithoutDashes(bytes: seq<byte>)
    ensures ReplaceAll(Dashed(bytes), "-", "") == Hex(bytes)
    decreases |bytes|
  {
    if |bytes| <= 1 {
      ReplaceAbsentChar(Hex(bytes), '-', "");
    } else {
      DashedWithoutDashes(bytes[1..]);
      DropSeparator(HexByte(bytes[0]), Dashed(bytes[1..]), '-');
      assert "-" == ['-'];
    }
  }

  /** `BitConverter.ToString(hash).Replace("-", "")`: 32 uppercase hex digits. */
  function DigestGuid(d: Digest): (g: string)
    ensures |g| == 32 && forall k :: 0 <= k < |g| ==> g[k] in HexDigits
  {
    DashedWithoutDashes(d);
    ReplaceAll(Dashed(d), "-", "")
  }

  function HexValue(c: char): nat {
    if '0' <= c <= '9' then c as int - '0' as int
    else if 'A' <= c <= 'F' then c as int - 'A' as int + 10
    else 0
  }

  /** The inverse of Hex. */
  function ParseHex(s: string): seq<byte>
    decreases |s|
  {
    if |s| < 2 then []
    else
      var v := 16 * HexValue(s[0]) + HexValue(s[1]);
      [if v < 256 then v else 0] + ParseHex(s[2..])
  }

  lemma HexDigitValues()
    ensures forall i :: 0 <= i < 16 ==> HexValue(HexDigits[i]) == i
  {
  }

  lemma {:induction false} ParseHexOfHex(bytes: seq<byte>)
    ensures ParseHex(Hex(bytes)) == bytes
    decreases |bytes|
  {
    if bytes != [] {
      ParseHexOfHex(bytes[1..]);
      ParseHexByte(bytes[0]);
      ParseHexStep(HexByte(bytes[0]), bytes[0], Hex(bytes[1..]), bytes[1..]);
      assert Hex(bytes) == HexByte(bytes[0]) + Hex(bytes[1..]);
      assert bytes == [bytes[0]] + bytes[1..];
    }
  }

  lemma ParseHexStep(pair: string, b: byte, rest: string, tail: seq<byte>)
    requires |pair| == 2 && 16 * HexValue(pair[0]) + HexValue(pair[1]) == b
    requires ParseHex(rest) == tail
    ensures ParseHex(pair + rest) == [b] + tail
  {
    var s := pair + rest;
    assert s[0] == pair[0] && s[1] == pair[1] && s[2..] == rest;
  }

  lemma ParseHexByte(b: byte)
    ensures 16 * HexValue(HexByte(b)[0]) + HexValue(HexByte(b)[1]) == b
  {
    HexDigitValues();
  }

  /** Different digests never share a GUID. */
  lemma DigestGuidInjective(a: Digest, b: Digest)
    requires DigestGuid(a) == DigestGuid(b)
    ensures a == b
  {
    DashedWithoutDashes(a);
    DashedWithoutDashes(b);
    ParseHexOfHex(a);
    ParseHexOfHex(b);
  }

  // ---- the .meta GUID --------------------------------------------------------

  /** Line `k` is the first line starting with `guid:`. */
  predicate FirstGuidLine(lines: seq<string>, k: int) {
    0 <= k < |lines| && StartsWith(lines[k], "guid:")
    && forall j :: 0 <= j < k ==> !StartsWith(lines[j], "guid:")
  }

  lemma FirstGuidLineShift(lines: seq<string>, k: int)
    requires |lines| > 0 && !StartsWith(lines[0], "guid:") && FirstGuidLine(lines[1..], k)
    ensures FirstGuidLine(lines, k + 1) && lines[k + 1] == lines[1..][k]
  {
    forall j | 0 <= j < k + 1
      ensures !StartsWith(lines[j], "guid:")
    {
      if j > 0 {
        assert lines[j] == lines[1..][j - 1];
      }
    }
  }

  /** The trimmed remainder of the first line starting with `guid:`, if any. */
  function GuidLine(lines: seq<string>): Option<string>
    decreases |lines|
  {
    if lines == [] then None
    else if StartsWith(lines[0], "guid:") then Some(Trim(lines[0][5..]))
    else GuidLine(lines[1..])
  }

  /** GuidLine finds nothing exactly when no line starts with `guid:`. */
  lemma {:induction false} GuidLineNone(lines: seq<string>)
    ensures GuidLine(lines).None? <==> forall k :: 0 <= k < |lines| ==> !StartsWith(lines[k], "guid:")
    decreases |lines|
  {
    if lines != [] && !StartsWith(lines[0], "guid:") {
      var rest := lines[1..];
      GuidLineNone(rest);
      assert forall k :: 0 <= k < |rest| ==> rest[k] == lines[k + 1];
    }
  }

  /** What GuidLine finds is the trimmed remainder of the first `guid:` line. */
  lemma {:induction false} GuidLineFirst(lines: seq<string>)
    ensures GuidLine(lines).Some? ==>
      exists k :: FirstGuidLine(lines, k) && GuidLine(lines).value == Trim(lines[k][5..])
    decreases |lines|
  {
    if lines == [] {
    } else if StartsWith(lines[0], "guid:") {
      assert FirstGuidLine(lines, 0);
    } else {
      var rest := lines[1..];
      assert GuidLine(lines) == GuidLine(rest);
      GuidLineFirst(rest);
      if GuidLine(rest).Some? {
        var k :| FirstGuidLine(rest, k) && GuidLine(rest).value == Trim(rest[k][5..]);
        FirstGuidLineShift(lines, k);
      }
    }
  }

  /** Lines after the first `guid:` line are never consulted. */
  lemma {:induction false} GuidLineStopsEarly(read: seq<string>, unread: seq<string>)
    requires GuidLine(read).Some?
    ensures GuidLine(read + unread) == GuidLine(read)
    decreases |read|
  {
    var all := read + unread;
    assert all[0] == read[0];
    if !StartsWith(read[0], "guid:") {
      assert GuidLine(read) == GuidLine(read[1..]);
      assert all[1..] == read[1..] + unread;
      GuidLineStopsEarly(read[1..], unread);
      assert GuidLine(all) == GuidLine(all[1..]);
    }
  }

  /** The StreamReader loop over the `.meta` file. */
  method ReadGuid(lines: seq<string>) returns (guid: Option<string>)
    ensures guid == GuidLine(lines)
  {
    guid := None;
    var i := 0;
    while i < |lines|
      invariant 0 <= i <= |lines|
      invariant GuidLine(lines) == GuidLine(lines[i..])
    {
      GuidLineStep(lines, i);
      var line := lines[i];
      if StartsWith(line, "guid:") {
        guid := Some(Trim(line[5..]));
        return;
      }
      i := i + 1;
    }
    assert lines[i..] == [];
  }

  lemma GuidLineStep(lines: seq<string>, i: nat)
    requires i < |lines|
    ensures GuidLine(lines[i..])
         == if StartsWith(lines[i], "guid:") then Some(Trim(lines[i][5..])) else GuidLine(lines[i + 1..])
  {
    assert lines[i..][0] == lines[i] && lines[i..][1..] == lines[i + 1..];
  }

  // ---- the entry path --------------------------------------------------------

  /**
   * `pathname`: the source path with `\` made `/`, relative to the project
   * folder (`Path.GetFullPath(Application.dataPath + "/../")`) when it lies
   * inside it.
   */
  function RelativePath(path: string, projectDir: string): (r: string)
    ensures '\\' !in r
    ensures var p := ReplaceAll(path, "\\", "/"); var root := ReplaceAll(projectDir + "/", "\\", "/");
      if StartsWith(p, root) then root + r == p else r == p
  {
    var p := ReplaceAll(path, "\\", "/");
    var root := ReplaceAll(projectDir + "/", "\\", "/");
    if StartsWith(p, root) then
      assert forall k :: 0 <= k < |p| - |root| ==> p[|root|..][k] == p[|root| + k];
      p[|root|..]
    else p
  }

  /** A path built from the project folder gives back its project-relative part. */
  lemma RelativeOfFullPath(projectDir: string, rel: string)
    requires '\\' !in projectDir && '\\' !in rel
    ensures RelativePath(projectDir + "/" + rel, projectDir) == rel
  {
    var root := projectDir + "/";
    assert '\\' !in root;
    assert '\\' !in root + rel;
    ReplaceAbsentChar(root, '\\', "/");
    ReplaceAbsentChar(root + rel, '\\', "/");
    StartsWithConcat(root, rel);
  }

  // ---- the staging directory ---------------------------------------------------

  /** The files of one `<guid>/` folder; `pathname` is always written first. */
  datatype Entry = Entry(pathname: string, asset: Option<seq<byte>>, assetMeta: Option<seq<byte>>)

  /** What one call did, when it did not throw. */
  datatype Staged = SourceMissing | MetaSkipped | Staged(guid: string)

  datatype StageStep = StageStep(result: Outcome<Staged>, entries: map<string, Entry>)

  /** `asset.meta` is copied only after `asset`. */
  predicate WellFormed(entries: map<string, Entry>) {
    forall g :: g in entries && entries[g].assetMeta.Some? ==> entries[g].asset.Some?
  }

  /** The GUID of a source: from its `.meta`, else from the file's digest; none for a bare directory. */
  function GuidOf(fs: FileSystem, path: string, md5: seq<byte> -> Digest): Option<string> {
    match FileAt(fs.files, path + ".meta")
    case Some(meta) => GuidLine(meta.lines)
    case None =>
      match FileAt(fs.files, path)
      case Some(f) => Some(DigestGuid(md5(f.bytes)))
      case None => None
  }

  /** The folder name used: a missing GUID concatenates as "". */
  function FolderOf(fs: FileSystem, path: string, md5: seq<byte> -> Digest): string {
    match GuidOf(fs, path, md5)
    case Some(g) => g
    case None => ""
  }

  /**
   * The writes into the folder `key`: `pathname` (overwritten), then the
   * copies of the source as `asset` and of its `.meta` as `asset.meta`,
   * neither of which overwrites and the first of which fails for a directory.
   */
  function Write(entries: map<string, Entry>, key: string, rel: string,
                 source: Option<File>, meta: Option<File>): (step: StageStep)
    ensures step.entries.Keys == entries.Keys + {key}
    ensures step.entries[key].pathname == rel
    ensures forall g :: g in entries && g != key ==> step.entries[g] == entries[g]
    ensures WellFormed(entries) ==> WellFormed(step.entries)
    ensures step.result.Ok? ==> (source.Some? && step.result == Ok(Staged(key))
      && step.entries[key].asset == Some(source.value.bytes))
  {
    var named := if key in entries then entries[key].(pathname := rel) else Entry(rel, None, None);
    match source
    case None => StageStep(Throws(CopyFailed), entries[key := named])
    case Some(f) =>
      if named.asset.Some? then StageStep(Throws(CopyFailed), entries[key := named])
      else
        var copied := named.(asset := Some(f.bytes));
        match meta
        case None => StageStep(Ok(Staged(key)), entries[key := copied])
        case Some(m) =>
          if copied.assetMeta.Some? then StageStep(Throws(CopyFailed), entries[key := copied])
          else StageStep(Ok(Staged(key)), entries[key := copied.(assetMeta := Some(m.bytes))])
  }

  /**
   * AddToUnityPackage on a staging directory whose existence is
   * `targetExists`: the guards, then the writes into the source's folder.
   */
  function Stage(fs: FileSystem, projectDir: string, path: string, md5: seq<byte> -> Digest,
                 targetExists: bool, entries: map<string, Entry>): StageStep
  {
    if !targetExists then StageStep(Throws(TargetDirMissing), entries)
    else if FileAt(fs.files, path).None? && !DirExists(fs, path) then StageStep(Ok(SourceMissing), entries)
    else if EndsWith(path, ".meta") then StageStep(Ok(MetaSkipped), entries)
    else Write(entries, FolderOf(fs, path, md5), RelativePath(path, projectDir),
               FileAt(fs.files, path), FileAt(fs.files, path + ".meta"))
  }

  /**
   * The guards: nothing is written without a target directory, for a
   * missing source or for a `.meta` source; otherwise only the source's own
   * folder changes, and it names the source's project-relative path.
   */
  lemma StageGuards(fs: FileSystem, projectDir: string, path: string, md5: seq<byte> -> Digest,
                    targetExists: bool, entries: map<string, Entry>)
    ensures var step := Stage(fs, projectDir, path, md5, targetExists, entries);
      && (!targetExists ==> step == StageStep(Throws(TargetDirMissing), entries))
      && (targetExists && FileAt(fs.files, path).None? && !DirExists(fs, path) ==>
            step == StageStep(Ok(SourceMissing), entries))
      && (EndsWith(path, ".meta") ==> step.entries == entries)
      && (targetExists && (FileAt(fs.files, path).Some? || DirExists(fs, path)) && !EndsWith(path, ".meta") ==>
            var key := FolderOf(fs, path, md5);
            && step.entries.Keys == entries.Keys + {key}
            && step.entries[key].pathname == RelativePath(path, projectDir)
            && forall g :: g in entries && g != key ==> step.entries[g] == entries[g])
  {
  }

  /**
   * A source file whose folder holds no `asset` yet is staged completely:
   * `pathname`, a byte copy as `asset`, and its `.meta` as `asset.meta`
   * exactly when it has one.
   */
  lemma StageFreshFolder(fs: FileSystem, projectDir: string, path: string, md5: seq<byte> -> Digest,
                         entries: map<string, Entry>)
    requires WellFormed(entries) && FileAt(fs.files, path).Some? && !EndsWith(path, ".meta")
    requires var key := FolderOf(fs, path, md5); key !in entries || entries[key].asset.None?
    ensures var step := Stage(fs, projectDir, path, md5, true, entries);
      var key := FolderOf(fs, path, md5);
      var meta := FileAt(fs.files, path + ".meta");
      && step.result == Ok(Staged(key))
      && step.entries[key] == Entry(RelativePath(path, projectDir), Some(FileAt(fs.files, path).value.bytes),
                                    if meta.Some? then Some(meta.value.bytes) else None)
  {
  }

  /**
   * A second source whose GUID is already staged overwrites `pathname`,
   * then fails at the `asset` copy, leaving the earlier asset in place.
   */
  lemma StageReusedGuid(fs: FileSystem, projectDir: string, path: string, md5: seq<byte> -> Digest,
                        entries: map<string, Entry>)
    requires (FileAt(fs.files, path).Some? || DirExists(fs, path)) && !EndsWith(path, ".meta")
    requires var key := FolderOf(fs, path, md5); key in entries && entries[key].asset.Some?
    ensures var step := Stage(fs, projectDir, path, md5, true, entries);
      var key := FolderOf(fs, path, md5);
      && step.result == Throws(CopyFailed)
      && step.entries == entries[key := entries[key].(pathname := RelativePath(path, projectDir))]
  {
  }

  /** Without a `.meta`, a file's folder is its digest in 32 uppercase hex digits; a directory gets "". */
  lemma FolderWithoutMeta(fs: FileSystem, path: string, md5: seq<byte> -> Digest)
    requires FileAt(fs.files, path + ".meta").None?
    ensures FileAt(fs.files, path).Some? ==>
      FolderOf(fs, path, md5) == DigestGuid(md5(FileAt(fs.files, path).value.bytes))
      && |FolderOf(fs, path, md5)| == 32
    ensures FileAt(fs.files, path).None? ==> FolderOf(fs, path, md5) == ""
  {
  }

  /** The staging directory `targetDir`, updated in place. */
  class StagingDir {
    var targetExists: bool
    var entries: map<string, Entry>

    constructor (targetExists: bool)
      ensures this.targetExists == targetExists && entries == map[]
    {
      this.targetExists := targetExists;
      entries := map[];
    }

    predicate Valid()
      reads this
    {
      WellFormed(entries)
    }

    /** AddToUnityPackage(pathToFileOrDirectory, targetDir). */
    method AddToUnityPackage(fs: FileSystem, projectDir: string, path: string, md5: seq<byte> -> Digest)
      returns (r: Outcome<Staged>)
      requires Valid()
      modifies this
      ensures Valid()
      ensures targetExists == old(targetExists)
      ensures StageStep(r, entries) == Stage(fs, projectDir, path, md5, old(targetExists), old(entries))
    {
      if !targetExists {
        return Throws(TargetDirMissing);
      }
      var source := FileAt(fs.files, path);
      if source.None? && !DirExists(fs, path) {
        return Ok(SourceMissing);
      }
      if EndsWith(path, ".meta") {
        return Ok(MetaSkipped);
      }
      var meta := FileAt(fs.files, path + ".meta");
      var guid: Option<string> := None;
      if meta.Some? {
        guid := ReadGuid(meta.value.lines);
      } else if source.Some? {
        guid := Some(DigestGuid(md5(source.value.bytes)));
      }
      var key := if guid.Some? then guid.value else "";
      assert key == FolderOf(fs, path, md5);
      r := WriteEntry(key, RelativePath(path, projectDir), source, meta);
    }

    /** Directory.CreateDirectory and the three writes into `targetDir/<key>`. */
    method WriteEntry(key: string, rel: string, source: Option<File>, meta: Option<File>)
      returns (r: Outcome<Staged>)
      requires Valid()
      modifies this
      ensures Valid()
      ensures targetExists == old(targetExists)
      ensures StageStep(r, entries) == Write(old(entries), key, rel, source, meta)
    {
      var named := if key in entries then entries[key].(pathname := rel) else Entry(rel, None, None);
      if source.None? || named.asset.Some? {
        entries := entries[key := named];
        return Throws(CopyFailed);
      }
      var copied := named.(asset := Some(source.value.bytes));
      // Valid(): a folder without `asset` has no `asset.meta` either, so this copy cannot collide.
      assert copied.assetMeta.None?;
      entries := entries[key := if meta.Some? then copied.(assetMeta := Some(meta.value.bytes)) else copied];
      r := Ok(Staged(key));
    }
  }

  // ---- ExportUnitypackage ------------------------------------------------------

  /** The PackageUtility.ExportPackage call made, and the path returned. */
  datatype ExportCall = ExportCall(collection: seq<string>, fileName: string, resultPath: string)

  /** `collection = CollectAllChildren(guid, collection)` over the root GUIDs in order. */
  function CollectAll(rootGuids: seq<string>, collectAllChildren: (string, seq<string>) -> seq<string>): seq<string>
    decreases |rootGuids|
  {
    if rootGuids == [] then []
    else collectAllChildren(rootGuids[|rootGuids| - 1], CollectAll(rootGuids[..|rootGuids| - 1], collectAllChildren))
  }

  /** ExportUnitypackage: refuses any name without the `.unitypackage` extension, in any case. */
  method ExportUnitypackage(rootGuids: seq<string>, fileName: string, dataPath: string,
                            collectAllChildren: (string, seq<string>) -> seq<string>)
    returns (r: Option<ExportCall>)
    ensures r.None? <==> !EndsWithIgnoreCase(fileName, ".unitypackage")
    ensures r.Some? ==> (r.value.fileName == fileName && r.value.resultPath == dataPath + "/" + fileName
      && r.value.collection == CollectAll(rootGuids, collectAllChildren))
  {
    if !EndsWithIgnoreCase(fileName, ".unitypackage") {
      return None;
    }
    var collection: seq<string> := [];
    var i := 0;
    while i < |rootGuids|
      invariant 0 <= i <= |rootGuids|
      invariant collection == CollectAll(rootGuids[..i], collectAllChildren)
    {
      assert rootGuids[..i + 1][..i] == rootGuids[..i];
      collection := collectAllChildren(rootGuids[i], collection);
      i := i + 1;
    }
    assert rootGuids[..i] == rootGuids;
    r := Some(ExportCall(collection, fileName, dataPath + "/" + fileName));
  }

  /** Every name the upload config derives passes the file-name guard. */
  lemma ConfigFilenamePassesGuard(configPath: Option<string>, outputSubFolder: string)
    requires configPath.Some?
    ensures EndsWithIgnoreCase(UploadConfig.ExportFilename(configPath, outputSubFolder).value, ".unitypackage")
  {
    EndsWithIgnoresCase(UploadConfig.ExportFilename(configPath, outputSubFolder).value, ".unitypackage");
  }
}
