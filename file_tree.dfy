/**
 * A snapshot of the disk as the exporter sees it through System.IO.
 *
 * Paths are full, '/'-separated strings. The filesystem root is written as the
 * empty string, so that every other directory or file is `parent + "/" + name`.
 * A directory whose listing raises an IOException (a missing folder, an I/O
 * failure) is one that is absent or not `listable`; a listing denied for lack
 * of permission raises UnauthorizedAccessException, which no handler of the
 * exporter catches, and is not part of this model. Files carry their raw bytes and their text
 * lines; decoding one from the other is not part of the model.
 */
module FileTree {
  import opened Text
  import opened Outcomes

  type byte = x: int | 0 <= x < 256

  datatype Dir = Dir(path: string, listable: bool)
  datatype File = File(path: string, bytes: seq<byte>, lines: seq<string>)
  datatype FileSystem = FileSystem(dirs: seq<Dir>, files: seq<File>)

  /** `p` lies strictly inside directory `d`. */
  predicate IsUnder(p: string, d: string) {
    StartsWith(p, d + "/")
  }

  /** FileSystemInfo.Name: the last path segment. */
  function NameOf(p: string): (name: string)
    ensures '/' !in name
  {
    var i := LastIndexOf(p, '/');
    p[i + 1..]
  }

  /** DirectoryInfo.Parent, which is computed from the path text alone. */
  function ParentOf(p: string): (parent: Option<string>)
    ensures parent.Some? ==> |parent.value| < |p| && p == parent.value + "/" + NameOf(p)
    ensures parent.None? <==> '/' !in p
  {
    var i := LastIndexOf(p, '/');
    if i < 0 then None
    else
      assert p == p[..i] + "/" + p[i + 1..];
      Some(p[..i])
  }

  /**
   * The directory holding a file (FileInfo.Directory.FullName): the root
   * folder, which the model names "", is spelled "/" there.
   */
  function DirectoryOf(p: string): string {
    match ParentOf(p)
    case Some(d) => if d == "" then "/" else d
    case None => ""
  }

  lemma ParentOfJoin(d: string, name: string)
    requires '/' !in name
    ensures ParentOf(d + "/" + name) == Some(d)
    ensures NameOf(d + "/" + name) == name
  {
    LastIndexOfJoin(d, '/', name);
    assert (d + "/" + name)[..|d|] == d;
  }

  predicate DirExists(fs: FileSystem, p: string) {
    exists i :: 0 <= i < |fs.dirs| && fs.dirs[i].path == p
  }

  /** Listing `p` itself succeeds. */
  predicate Listable(fs: FileSystem, p: string) {
    DirExists(fs, p)
    && forall i :: 0 <= i < |fs.dirs| && fs.dirs[i].path == p ==> fs.dirs[i].listable
  }

  /** A recursive listing (SearchOption.AllDirectories) of `p` succeeds. */
  predicate ListableDeep(fs: FileSystem, p: string) {
    Listable(fs, p)
    && forall i :: 0 <= i < |fs.dirs| && IsUnder(fs.dirs[i].path, p) ==> fs.dirs[i].listable
  }

  /** `p` holds a `.git` directory (a repository) or a `.git` file (a submodule). */
  predicate HasRepoMarker(fs: FileSystem, p: string) {
    (exists i :: 0 <= i < |fs.dirs| && fs.dirs[i].path == p + "/.git")
    || (exists i :: 0 <= i < |fs.files| && fs.files[i].path == p + "/.git")
  }

  /** The file at `p`, if there is one (File.Exists). */
  function FileAt(files: seq<File>, p: string): (f: Option<File>)
    ensures f.Some? ==> f.value in files && f.value.path == p
    ensures f.None? <==> forall i :: 0 <= i < |files| ==> files[i].path != p
  {
    if files == [] then None
    else if files[0].path == p then Some(files[0])
    else FileAt(files[1..], p)
  }
}
