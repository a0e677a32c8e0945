/**
 * The `.gitignore` / `.npmignore` handling of the hybrid-package exporter
 * (the local functions CollectIgnoreFiles, AddToIgnore and IsIgnored inside
 * PackagerExportPatch.Prefix).
 *
 * The glob semantics of the Ignore library are not modelled: a `Matcher`
 * stands for "the rule lines of one file ignore this relative path".
 */
module IgnoreRules {
  import opened Text
  import opened Outcomes
  import opened FileTree

  type Matcher = (seq<string>, string) -> bool

  /** One rule file: the directory it sits in, and its pattern lines. */
  datatype RuleSet = RuleSet(dir: string, patterns: seq<string>)

  /** What the parent walk found: the rule sets met on the way, and whether it ended at a repository. */
  datatype WalkResult = WalkResult(rules: seq<RuleSet>, reachedRepo: bool)

  // ---- rule lines ------------------------------------------------------------

  /** The filter applied to File.ReadAllLines before the lines reach the matcher. */
  predicate IsPatternLine(line: string) {
    !IsBlank(Trim(line)) && !StartsWith(TrimStart(line), "#")
  }

  /** A line is kept exactly when it has a non-whitespace character and the first such is not '#'. */
  lemma PatternLineMeaning(line: string)
    ensures IsPatternLine(line) <==>
      exists k :: 0 <= k < |line| && !IsWhiteSpace(line[k]) && line[k] != '#'
                  && forall j :: 0 <= j < k ==> IsWhiteSpace(line[j])
  {
    var t := TrimStart(line);
    var k0 := |line| - |t|;
    if t != [] {
      var e := TrimEnd(t);
      assert e != [] && e[0] == t[0];
      assert line[k0] == t[0];
      assert !IsBlank(Trim(line)) by { assert !IsWhiteSpace(Trim(line)[0]); }
      assert StartsWith(t, "#") <==> t[0] == '#' by { assert "#" == ['#']; }
      assert !IsWhiteSpace(line[k0]);
      assert forall j :: 0 <= j < k0 ==> IsWhiteSpace(line[j]);
    } else {
      assert Trim(line) == [];
      forall k | 0 <= k < |line| ensures IsWhiteSpace(line[k]) { }
    }
  }

  /** The lines of a rule file handed to the Ignore object, in file order. */
  function PatternLines(lines: seq<string>): (r: seq<string>)
    ensures forall l :: l in r <==> l in lines && IsPatternLine(l)
    ensures |r| <= |lines|
    decreases |lines|
  {
    if lines == [] then []
    else
      var rest := PatternLines(lines[1..]);
      assert forall l :: l in lines <==> l == lines[0] || l in lines[1..] by {
        assert lines == [lines[0]] + lines[1..];
      }
      if IsPatternLine(lines[0]) then [lines[0]] + rest else rest
  }

  // ---- finding rule files ----------------------------------------------------

  function RuleSetOf(f: File): RuleSet {
    RuleSet(ReplaceAll(DirectoryOf(f.path), "\\", "/"), PatternLines(f.lines))
  }

  /** The file is returned by GetFiles(name, deep ? AllDirectories : TopDirectoryOnly) on `dir`. */
  predicate Listed(f: File, dir: string, name: string, deep: bool) {
    if deep then IsUnder(f.path, dir) && NameOf(f.path) == name
    else f.path == dir + "/" + name
  }

  /** The rule sets read from the listed files among `files`, in listing order. */
  function RuleSetsIn(files: seq<File>, dir: string, name: string, deep: bool): (r: seq<RuleSet>)
    ensures forall rs :: rs in r <==> exists f :: f in files && Listed(f, dir, name, deep) && rs == RuleSetOf(f)
    decreases |files|
  {
    if files == [] then []
    else
      var n := |files| - 1;
      assert forall f :: f in files <==> f in files[..n] || f == files[n] by {
        assert files == files[..n] + [files[n]];
      }
      RuleSetsIn(files[..n], dir, name, deep)
        + if Listed(files[n], dir, name, deep) then [RuleSetOf(files[n])] else []
  }

  /**
   * AddToIgnore(name, searchOption): the rule sets of every matching file, or
   * none when the listing raises an IOException (which AddToIgnore swallows).
   */
  function RuleFiles(fs: FileSystem, dir: string, name: string, deep: bool): seq<RuleSet> {
    if (if deep then ListableDeep(fs, dir) else Listable(fs, dir))
    then RuleSetsIn(fs.files, dir, name, deep)
    else []
  }

  /** Rule sets anywhere inside `root` (including `root` itself): `.gitignore` first, then `.npmignore`. */
  function Downward(fs: FileSystem, root: string): seq<RuleSet> {
    RuleFiles(fs, root, ".gitignore", true) + RuleFiles(fs, root, ".npmignore", true)
  }

  /** Rule sets directly in `dir`. */
  function TopLevel(fs: FileSystem, dir: string): seq<RuleSet> {
    RuleFiles(fs, dir, ".gitignore", false) + RuleFiles(fs, dir, ".npmignore", false)
  }

  /**
   * The walk `while (di.Parent != null) { di = di.Parent; ... }`: every ancestor's
   * top-level rule sets, stopping after the first ancestor holding a `.git`
   * marker; an ancestor that cannot be listed ends the walk with the IOException
   * of the marker check.
   */
  function WalkUp(fs: FileSystem, d: string): WalkResult
    decreases |d|
  {
    match ParentOf(d)
    case None => WalkResult([], false)
    case Some(p) =>
      var here := TopLevel(fs, p);
      if !Listable(fs, p) then WalkResult(here, false)
      else if HasRepoMarker(fs, p) then WalkResult(here, true)
      else
        var up := WalkUp(fs, p);
        WalkResult(here + up.rules, up.reachedRepo)
  }

  /**
   * The rule list CollectIgnoreFiles is meant to build: everything below the
   * root, plus the upward rule sets only when the walk reached a repository.
   */
  function IgnoreRuleSets(fs: FileSystem, root: string): seq<RuleSet> {
    var w := WalkUp(fs, root);
    Downward(fs, root) + if w.reachedRepo then w.rules else []
  }

  /**
   * The rule list CollectIgnoreFiles builds as written: AddToIgnore appends to
   * `ignoreFiles` whatever list it is handed, so `upwardsIgnoreFiles` stays
   * empty and the upward rule sets are kept whatever the walk found.
   */
  function IgnoreRuleSetsAsWritten(fs: FileSystem, root: string): seq<RuleSet> {
    Downward(fs, root) + WalkUp(fs, root).rules
  }

  /** Outside a repository the upward rule sets play no part. */
  lemma NoRepoNoUpwardRules(fs: FileSystem, root: string)
    requires !WalkUp(fs, root).reachedRepo
    ensures IgnoreRuleSets(fs, root) == Downward(fs, root)
  {
  }

  /** The walk only reports a repository when some ancestor of the root holds a `.git` marker. */
  lemma {:induction false} RepoMeansMarkedAncestor(fs: FileSystem, d: string)
    requires WalkUp(fs, d).reachedRepo
    ensures exists a :: IsUnder(d, a) && HasRepoMarker(fs, a)
    decreases |d|
  {
    var p := ParentOf(d).value;
    assert d == p + "/" + NameOf(d);
    StartsWithConcat(p + "/", NameOf(d));
    if !HasRepoMarker(fs, p) {
      RepoMeansMarkedAncestor(fs, p);
      var a :| IsUnder(p, a) && HasRepoMarker(fs, a);
      assert IsUnder(d, a) by {
        assert d[..|a + "/"|] == p[..|a + "/"|];
      }
    }
  }

  /**
   * Conversely, the walk reports a repository once it can reach a marked
   * ancestor: when every folder from the root's parent up to that ancestor
   * can be listed.
   */
  lemma {:induction false} MarkedAncestorMeansRepo(fs: FileSystem, d: string, a: string)
    requires IsUnder(d, a) && HasRepoMarker(fs, a)
    requires forall b :: IsUnder(d, b) && (b == a || IsUnder(b, a)) ==> Listable(fs, b)
    ensures WalkUp(fs, d).reachedRepo
    decreases |d|
  {
    ParentStaysUnder(d, a);
    var p := ParentOf(d).value;
    assert IsUnder(d, p) by { StartsWithConcat(p + "/", NameOf(d)); }
    assert Listable(fs, p);
    if !HasRepoMarker(fs, p) {
      forall b | IsUnder(p, b) && (b == a || IsUnder(b, a))
        ensures IsUnder(d, b)
      {
        IsUnderChain(d, p, b);
      }
      MarkedAncestorMeansRepo(fs, p, a);
    }
  }

  /** The parent of a path inside `a` is `a` itself or still inside `a`. */
  lemma ParentStaysUnder(d: string, a: string)
    requires IsUnder(d, a)
    ensures ParentOf(d).Some?
    ensures ParentOf(d).value == a || IsUnder(ParentOf(d).value, a)
  {
    assert d[|a|] == (a + "/")[|a|];
    var i := LastIndexOf(d, '/');
    InTail(d, i + 1, |a|);
    var p := d[..i];
    assert ParentOf(d) == Some(p);
    if i > |a| {
      assert p[..|a| + 1] == d[..|a| + 1];
    } else {
      assert p == d[..|a|];
    }
  }

  lemma IsUnderChain(d: string, p: string, b: string)
    requires IsUnder(d, p) && IsUnder(p, b)
    ensures IsUnder(d, b)
  {
    assert d[..|b + "/"|] == p[..|b + "/"|];
  }

  /** The two versions agree inside a repository; they differ only outside one. */
  lemma AsWrittenAgreesInRepo(fs: FileSystem, root: string)
    requires WalkUp(fs, root).reachedRepo
    ensures IgnoreRuleSetsAsWritten(fs, root) == IgnoreRuleSets(fs, root)
  {
  }

  /** A package root `/w/pkg` whose parent `/w` has a `.gitignore` and no `.git` anywhere. */
  function OutsideRepoExample(): FileSystem {
    FileSystem([Dir("", true), Dir("/w", true), Dir("/w/pkg", true)],
               [File("/w/.gitignore", [], ["*.tmp"])])
  }

  lemma ExampleRuleFileParts()
    ensures DirectoryOf("/w/.gitignore") == "/w"
    ensures ReplaceAll("/w", "\\", "/") == "/w"
  {
    ParentOfJoin("/w", ".gitignore");
    assert "/w/.gitignore" == "/w" + "/" + ".gitignore";
    ReplaceAbsentChar("/w", '\\', "/");
    assert "\\" == ['\\'];
  }

  lemma ExampleRuleLines()
    ensures PatternLines(["*.tmp"]) == ["*.tmp"]
  {
    ExamplePatternLine();
    PatternLinesSingle("*.tmp");
  }

  lemma PatternLinesSingle(line: string)
    requires IsPatternLine(line)
    ensures PatternLines([line]) == [line]
  {
    assert [line][1..] == [];
  }

  lemma ExamplePatternLine()
    ensures IsPatternLine("*.tmp")
  {
    PatternLineMeaning("*.tmp");
    assert !IsWhiteSpace("*.tmp"[0]) && "*.tmp"[0] != '#';
  }

  lemma OutsideRepoExampleRuleFile()
    ensures RuleSetOf(OutsideRepoExample().files[0]) == RuleSet("/w", ["*.tmp"])
  {
    ExampleRuleFileParts();
    ExampleRuleLines();
  }

  lemma RuleSetsInSingle(f: File, dir: string, name: string, deep: bool)
    ensures RuleSetsIn([f], dir, name, deep) == if Listed(f, dir, name, deep) then [RuleSetOf(f)] else []
  {
    assert [f][..0] == [];
  }

  lemma OutsideRepoExampleDownward()
    ensures Downward(OutsideRepoExample(), "/w/pkg") == []
  {
    var fs := OutsideRepoExample();
    var gi := fs.files[0];
    assert fs.files == [gi];
    assert gi.path[..|"/w/pkg/"|][3] != "/w/pkg/"[3];
    RuleSetsInSingle(gi, "/w/pkg", ".gitignore", true);
    RuleSetsInSingle(gi, "/w/pkg", ".npmignore", true);
  }

  lemma OutsideRepoExampleListed()
    ensures Listed(OutsideRepoExample().files[0], "/w", ".gitignore", false)
    ensures !Listed(OutsideRepoExample().files[0], "/w", ".npmignore", false)
  {
    assert OutsideRepoExample().files[0].path[4] != ("/w" + "/" + ".npmignore")[4];
  }

  lemma OutsideRepoExampleTopLevelW()
    ensures TopLevel(OutsideRepoExample(), "/w") == [RuleSet("/w", ["*.tmp"])]
  {
    var fs := OutsideRepoExample();
    var gi := fs.files[0];
    assert fs.files == [gi];
    OutsideRepoExampleFacts();
    OutsideRepoExampleListed();
    OutsideRepoExampleRuleFile();
    RuleSetsInSingle(gi, "/w", ".gitignore", false);
    RuleSetsInSingle(gi, "/w", ".npmignore", false);
  }

  lemma OutsideRepoExampleTopLevelRoot()
    ensures TopLevel(OutsideRepoExample(), "") == []
  {
    var fs := OutsideRepoExample();
    var gi := fs.files[0];
    assert fs.files == [gi];
    assert !Listed(gi, "", ".gitignore", false) by { assert gi.path[1] != ("" + "/" + ".gitignore")[1]; }
    assert !Listed(gi, "", ".npmignore", false) by { assert gi.path[1] != ("" + "/" + ".npmignore")[1]; }
    RuleSetsInSingle(gi, "", ".gitignore", false);
    RuleSetsInSingle(gi, "", ".npmignore", false);
  }

  lemma OutsideRepoExampleFacts()
    ensures ParentOf("/w") == Some("") && ParentOf("") == None
    ensures Listable(OutsideRepoExample(), "") && !HasRepoMarker(OutsideRepoExample(), "")
    ensures Listable(OutsideRepoExample(), "/w") && !HasRepoMarker(OutsideRepoExample(), "/w")
  {
    ParentOfJoin("", "w");
    assert "/w" == "" + "/" + "w";
    OutsideRepoExampleListable();
    OutsideRepoExampleNoRepo();
  }

  lemma OutsideRepoExampleListable()
    ensures Listable(OutsideRepoExample(), "") && Listable(OutsideRepoExample(), "/w")
  {
    var fs := OutsideRepoExample();
    assert fs.dirs[0].path == "" && fs.dirs[1].path == "/w";
  }

  lemma OutsideRepoExampleNoRepo()
    ensures !HasRepoMarker(OutsideRepoExample(), "") && !HasRepoMarker(OutsideRepoExample(), "/w")
  {
    var fs := OutsideRepoExample();
    assert |"" + "/.git"| == 5 && |"/w" + "/.git"| == 7;
    assert |fs.dirs[0].path| == 0 && |fs.dirs[1].path| == 2 && |fs.dirs[2].path| == 6;
    assert |fs.files[0].path| == 13;
  }

  lemma OutsideRepoExampleWalkFromW()
    ensures WalkUp(OutsideRepoExample(), "/w") == WalkResult([], false)
  {
    OutsideRepoExampleTopLevelRoot();
    OutsideRepoExampleFacts();
    var fs := OutsideRepoExample();
    assert WalkUp(fs, "") == WalkResult([], false);
  }

  lemma OutsideRepoExampleParent()
    ensures ParentOf("/w/pkg") == Some("/w")
  {
    ParentOfJoin("/w", "pkg");
    assert "/w/pkg" == "/w" + "/" + "pkg";
  }

  lemma OutsideRepoExampleWalk()
    ensures WalkUp(OutsideRepoExample(), "/w/pkg") == WalkResult([RuleSet("/w", ["*.tmp"])], false)
  {
    var fs := OutsideRepoExample();
    OutsideRepoExampleParent();
    OutsideRepoExampleFacts();
    OutsideRepoExampleTopLevelW();
    OutsideRepoExampleWalkFromW();
    assert [RuleSet("/w", ["*.tmp"])] + [] == [RuleSet("/w", ["*.tmp"])];
  }

  /**
   * Outside a repository the code as written still applies a parent folder's
   * rule file, where the intended list has no rule set at all.
   */
  lemma AsWrittenKeepsRulesOutsideRepo()
    ensures !WalkUp(OutsideRepoExample(), "/w/pkg").reachedRepo
    ensures IgnoreRuleSets(OutsideRepoExample(), "/w/pkg") == []
    ensures IgnoreRuleSetsAsWritten(OutsideRepoExample(), "/w/pkg") == [RuleSet("/w", ["*.tmp"])]
  {
    OutsideRepoExampleDownward();
    OutsideRepoExampleWalk();
  }

  // ---- matching --------------------------------------------------------------

  /** A rule set speaks about `q` only when `q` is inside its directory; it is then given the remainder. */
  predicate Applies(rs: RuleSet, m: Matcher, q: string) {
    IsUnder(q, rs.dir) && m(rs.patterns, q[|rs.dir| + 1..])
  }

  /** IsIgnored with the containment check the exporter's comment asks for. */
  predicate Ignored(rules: seq<RuleSet>, m: Matcher, filePath: string) {
    var q := ReplaceAll(filePath, "\\", "/");
    exists k :: 0 <= k < |rules| && Applies(rules[k], m, q)
  }

  /** Rule sets of folders that do not contain the file never change the verdict. */
  lemma ForeignRulesIrrelevant(rules: seq<RuleSet>, foreign: seq<RuleSet>, m: Matcher, filePath: string)
    requires forall k :: 0 <= k < |foreign| ==> !IsUnder(ReplaceAll(filePath, "\\", "/"), foreign[k].dir)
    ensures Ignored(rules + foreign, m, filePath) == Ignored(rules, m, filePath)
  {
    var q := ReplaceAll(filePath, "\\", "/");
    if Ignored(rules + foreign, m, filePath) {
      var k :| 0 <= k < |rules + foreign| && Applies((rules + foreign)[k], m, q);
      assert forall j :: |rules| <= j < |rules + foreign| ==> (rules + foreign)[j] == foreign[j - |rules|];
    }
    if Ignored(rules, m, filePath) {
      var k :| 0 <= k < |rules| && Applies(rules[k], m, q);
      assert (rules + foreign)[k] == rules[k];
    }
  }

  /**
   * IsIgnored as written: in order, each rule set whose directory is a plain
   * text prefix of the path is asked about the path minus (directory length
   * + 1) characters, until one ignores it; a path equal to such a directory
   * makes Substring throw.
   */
  function IgnoredAsWritten(rules: seq<RuleSet>, m: Matcher, q: string): (r: Outcome<bool>)
    ensures r == Ok(true) ==> exists k :: 0 <= k < |rules| && StartsWith(q, rules[k].dir)
    ensures r.Throws? ==> r.error == SubstringOutOfRange && exists k :: 0 <= k < |rules| && q == rules[k].dir
  {
    if rules == [] then Ok(false)
    else if StartsWith(q, rules[0].dir) then
      if |q| < |rules[0].dir| + 1 then Throws(SubstringOutOfRange)
      else if m(rules[0].patterns, q[|rules[0].dir| + 1..]) then Ok(true)
      else IgnoredAsWritten(rules[1..], m, q)
    else IgnoredAsWritten(rules[1..], m, q)
  }

  /** As written, `rs` is consulted about `q` (a text prefix) and its patterns ignore the remainder. */
  predicate HitsAsWritten(rs: RuleSet, m: Matcher, q: string) {
    |q| > |rs.dir| && StartsWith(q, rs.dir) && m(rs.patterns, q[|rs.dir| + 1..])
  }

  /** As written, `rs` makes Substring(dir.Length + 1) throw: `q` is its directory itself. */
  predicate TripsAsWritten(rs: RuleSet, q: string) {
    q == rs.dir
  }

  /**
   * The verdict as written: ignored when some rule set hits before any rule
   * set trips, a throw when some rule set trips before any hits, and not
   * ignored when none does either.
   */
  lemma {:induction false} IgnoredAsWrittenMeaning(rules: seq<RuleSet>, m: Matcher, q: string)
    ensures IgnoredAsWritten(rules, m, q) == Ok(true) <==> exists k :: HitsFirst(rules, m, q, k)
    ensures IgnoredAsWritten(rules, m, q).Throws? <==> exists k :: TripsFirst(rules, m, q, k)
    ensures IgnoredAsWritten(rules, m, q).Throws? ==> IgnoredAsWritten(rules, m, q).error == SubstringOutOfRange
    ensures IgnoredAsWritten(rules, m, q) == Ok(false) <==>
      forall k :: 0 <= k < |rules| ==> !HitsAsWritten(rules[k], m, q) && !TripsAsWritten(rules[k], q)
    decreases |rules|
  {
    if rules != [] {
      var rs := rules[0];
      var rest := rules[1..];
      IgnoredAsWrittenMeaning(rest, m, q);
      assert forall k :: 0 < k < |rules| ==> rules[k] == rest[k - 1];
      assert TripsAsWritten(rs, q) <==> StartsWith(q, rs.dir) && |q| < |rs.dir| + 1 by {
        if StartsWith(q, rs.dir) && |q| < |rs.dir| + 1 {
          assert q == q[..|rs.dir|];
        }
      }
      if !TripsAsWritten(rs, q) && !HitsAsWritten(rs, m, q) {
        assert IgnoredAsWritten(rules, m, q) == IgnoredAsWritten(rest, m, q);
        ShiftedFirst(rules, m, q);
      } else {
        assert HitsFirst(rules, m, q, 0) || TripsFirst(rules, m, q, 0);
      }
    }
  }

  /** Rule set `k` hits before any rule set trips. */
  predicate HitsFirst(rules: seq<RuleSet>, m: Matcher, q: string, k: int) {
    0 <= k < |rules| && HitsAsWritten(rules[k], m, q) && forall j :: 0 <= j < k ==> !TripsAsWritten(rules[j], q)
  }

  /** Rule set `k` trips before any rule set hits. */
  predicate TripsFirst(rules: seq<RuleSet>, m: Matcher, q: string, k: int) {
    0 <= k < |rules| && TripsAsWritten(rules[k], q) && forall j :: 0 <= j < k ==> !HitsAsWritten(rules[j], m, q)
  }

  /** Past a first rule set that neither hits nor trips, the witnesses are those of the rest, shifted by one. */
  lemma ShiftedFirst(rules: seq<RuleSet>, m: Matcher, q: string)
    requires rules != [] && !TripsAsWritten(rules[0], q) && !HitsAsWritten(rules[0], m, q)
    ensures (exists k :: HitsFirst(rules, m, q, k)) <==> (exists k :: HitsFirst(rules[1..], m, q, k))
    ensures (exists k :: TripsFirst(rules, m, q, k)) <==> (exists k :: TripsFirst(rules[1..], m, q, k))
  {
    var rest := rules[1..];
    if exists k :: HitsFirst(rules, m, q, k) {
      var k :| HitsFirst(rules, m, q, k);
      ShiftedAt(rules, m, q, k - 1);
      assert HitsFirst(rest, m, q, k - 1);
    }
    if exists k :: HitsFirst(rest, m, q, k) {
      var k :| HitsFirst(rest, m, q, k);
      ShiftedAt(rules, m, q, k);
      assert HitsFirst(rules, m, q, k + 1);
    }
    if exists k :: TripsFirst(rules, m, q, k) {
      var k :| TripsFirst(rules, m, q, k);
      ShiftedAt(rules, m, q, k - 1);
      assert TripsFirst(rest, m, q, k - 1);
    }
    if exists k :: TripsFirst(rest, m, q, k) {
      var k :| TripsFirst(rest, m, q, k);
      ShiftedAt(rules, m, q, k);
      assert TripsFirst(rules, m, q, k + 1);
    }
  }

  lemma ShiftedAt(rules: seq<RuleSet>, m: Matcher, q: string, k: int)
    requires rules != [] && !TripsAsWritten(rules[0], q) && !HitsAsWritten(rules[0], m, q)
    requires 0 <= k < |rules| - 1
    ensures HitsFirst(rules, m, q, k + 1) <==> HitsFirst(rules[1..], m, q, k)
    ensures TripsFirst(rules, m, q, k + 1) <==> TripsFirst(rules[1..], m, q, k)
  {
    var rest := rules[1..];
    assert forall j :: 0 <= j < |rest| ==> rest[j] == rules[j + 1];
    assert (forall j :: 0 <= j < k + 1 ==> !TripsAsWritten(rules[j], q))
       <==> (forall j :: 0 <= j < k ==> !TripsAsWritten(rest[j], q));
    assert (forall j :: 0 <= j < k + 1 ==> !HitsAsWritten(rules[j], m, q))
       <==> (forall j :: 0 <= j < k ==> !HitsAsWritten(rest[j], m, q));
  }

  /**
   * Whatever the intended test ignores, the test as written ignores too (or
   * throws), given that its rule list holds every intended rule set: a
   * folder containing the file is also a text prefix of it.
   */
  lemma AsWrittenIgnoresAtLeast(intended: seq<RuleSet>, written: seq<RuleSet>, m: Matcher, filePath: string)
    requires forall rs :: rs in intended ==> rs in written
    requires IgnoredAsWritten(written, m, ReplaceAll(filePath, "\\", "/")) == Ok(false)
    ensures !Ignored(intended, m, filePath)
  {
    var q := ReplaceAll(filePath, "\\", "/");
    IgnoredAsWrittenMeaning(written, m, q);
    forall k | 0 <= k < |intended|
      ensures !Applies(intended[k], m, q)
    {
      var rs := intended[k];
      assert rs in intended;
      var j :| 0 <= j < |written| && written[j] == rs;
      assert !HitsAsWritten(rs, m, q);
      if IsUnder(q, rs.dir) {
        assert q[..|rs.dir|] == (rs.dir + "/")[..|rs.dir|];
      }
    }
  }

  /** The intended rule list is part of the list as written. */
  lemma IntendedRulesIncluded(fs: FileSystem, root: string)
    ensures forall rs :: rs in IgnoreRuleSets(fs, root) ==> rs in IgnoreRuleSetsAsWritten(fs, root)
  {
  }

  /**
   * The rule file of `/pkg/Doc` is consulted for `/pkg/Docs~/notes.txt`, a file
   * in a sibling folder, and is asked about `~/notes.txt`; with the
   * containment check the rule set does not apply.
   */
  lemma AsWrittenLeaksToSibling(m: Matcher)
    ensures var rules := [RuleSet("/pkg/Doc", ["*.txt"])];
            && !IsUnder("/pkg/Docs~/notes.txt", "/pkg/Doc")
            && IgnoredAsWritten(rules, m, "/pkg/Docs~/notes.txt") == Ok(m(["*.txt"], "~/notes.txt"))
            && !Ignored(rules, m, "/pkg/Docs~/notes.txt")
  {
    SiblingPath();
    AsWrittenOneRuleSet(RuleSet("/pkg/Doc", ["*.txt"]), m, "/pkg/Docs~/notes.txt");
    IgnoredOneRuleSet(RuleSet("/pkg/Doc", ["*.txt"]), m, "/pkg/Docs~/notes.txt");
  }

  /** A rule file in the filesystem root is recorded under "/", its folder's FullName. */
  lemma RootRuleFileFolder()
    ensures RuleSetOf(File("/.gitignore", [], ["*.tmp"])) == RuleSet("/", ["*.tmp"])
  {
    ParentOfJoin("", ".gitignore");
    assert "/.gitignore" == "" + "/" + ".gitignore";
    ReplaceAbsentChar("/", '\\', "/");
    assert "\\" == ['\\'];
    ExampleRuleLines();
  }

  /**
   * The rule set of a rule file in the filesystem root is, as written, asked
   * about `/w/pkg/Doc~/a.txt` minus two characters, `/pkg/Doc~/a.txt`; the
   * containment check never applies it, since no path starts with "//".
   */
  lemma RootRuleSetExample(m: Matcher)
    ensures var rules := [RuleSet("/", ["*.tmp"])];
            && IgnoredAsWritten(rules, m, "/w/pkg/Doc~/a.txt") == Ok(m(["*.tmp"], "/pkg/Doc~/a.txt"))
            && !Ignored(rules, m, "/w/pkg/Doc~/a.txt")
  {
    var q := "/w/pkg/Doc~/a.txt";
    assert q[..1] == "/";
    assert q[2..] == "/pkg/Doc~/a.txt";
    AsWrittenOneRuleSet(RuleSet("/", ["*.tmp"]), m, q);
    ReplaceAbsentChar(q, '\\', "/");
    assert "\\" == ['\\'];
    IgnoredOneRuleSet(RuleSet("/", ["*.tmp"]), m, q);
    assert q[1] != ("/" + "/")[1];
  }

  lemma AsWrittenOneRuleSet(rs: RuleSet, m: Matcher, q: string)
    requires StartsWith(q, rs.dir) && |q| >= |rs.dir| + 1
    ensures IgnoredAsWritten([rs], m, q) == Ok(m(rs.patterns, q[|rs.dir| + 1..]))
  {
    assert [rs][1..] == [];
  }

  lemma IgnoredOneRuleSet(rs: RuleSet, m: Matcher, filePath: string)
    ensures Ignored([rs], m, filePath) <==> Applies(rs, m, ReplaceAll(filePath, "\\", "/"))
  {
    assert [rs][0] == rs;
  }

  lemma SiblingPath()
    ensures var p := "/pkg/Docs~/notes.txt";
      && StartsWith(p, "/pkg/Doc") && p[9..] == "~/notes.txt"
      && !IsUnder(p, "/pkg/Doc")
      && ReplaceAll(p, "\\", "/") == p
  {
    var p := "/pkg/Docs~/notes.txt";
    assert p[..8] == "/pkg/Doc";
    assert p[9..] == "~/notes.txt";
    assert p[8] != ("/pkg/Doc" + "/")[8];
    ReplaceAbsentChar(p, '\\', "/");
    assert "\\" == ['\\'];
  }

  // ---- the ignore list of one package root -----------------------------------

  /** AddToIgnore: the rule files one GetFiles call returns, read in listing order. */
  method FindRuleFiles(fs: FileSystem, dir: string, name: string, deep: bool) returns (found: seq<RuleSet>)
    ensures found == RuleFiles(fs, dir, name, deep)
  {
    found := [];
    if !(if deep then ListableDeep(fs, dir) else Listable(fs, dir)) {
      return;  // the IOException is caught and nothing is added
    }
    var i := 0;
    while i < |fs.files|
      invariant 0 <= i <= |fs.files|
      invariant found == RuleSetsIn(fs.files[..i], dir, name, deep)
    {
      assert fs.files[..i + 1][..i] == fs.files[..i];
      if Listed(fs.files[i], dir, name, deep) {
        found := found + [RuleSetOf(fs.files[i])];
      }
      i := i + 1;
    }
    assert fs.files[..i] == fs.files;
  }

  /** One step of WalkUp, from `d` to its parent `p`. */
  lemma WalkUpStep(fs: FileSystem, d: string, p: string)
    requires ParentOf(d) == Some(p)
    ensures !Listable(fs, p) ==> WalkUp(fs, d) == WalkResult(TopLevel(fs, p), false)
    ensures Listable(fs, p) && HasRepoMarker(fs, p) ==> WalkUp(fs, d) == WalkResult(TopLevel(fs, p), true)
    ensures Listable(fs, p) && !HasRepoMarker(fs, p) ==>
      WalkUp(fs, d) == WalkResult(TopLevel(fs, p) + WalkUp(fs, p).rules, WalkUp(fs, p).reachedRepo)
  {
  }

  /**
   * The parent walk of CollectIgnoreFiles with its IOException handler: the
   * top-level rule sets of every ancestor visited, which AddToIgnore appends
   * as it goes, and whether a repository marker ended the walk.
   */
  method WalkUpwards(fs: FileSystem, directory: string) returns (found: seq<RuleSet>, inRepo: bool)
    ensures found == WalkUp(fs, directory).rules
    ensures inRepo == WalkUp(fs, directory).reachedRepo
  {
    found := [];
    inRepo := false;
    var done := false;
    var di := directory;
    ghost var w := WalkUp(fs, directory);
    while !done && ParentOf(di).Some?
      invariant !done ==> !inRepo && w.rules == found + WalkUp(fs, di).rules
      invariant !done ==> w.reachedRepo == WalkUp(fs, di).reachedRepo
      invariant done ==> inRepo == w.reachedRepo && found == w.rules
      decreases |di|, if done then 0 else 1
    {
      ghost var child := di;
      di := ParentOf(di).value;
      var git := FindRuleFiles(fs, di, ".gitignore", false);
      var npm := FindRuleFiles(fs, di, ".npmignore", false);
      WalkUpStep(fs, child, di);
      ghost var before := found;
      found := found + (git + npm);
      if !Listable(fs, di) {
        // the marker check throws; the handler clears only the unused upward list
        inRepo := false;
        done := true;
      } else if HasRepoMarker(fs, di) {
        inRepo := true;
        done := true;
      } else {
        assert before + (TopLevel(fs, di) + WalkUp(fs, di).rules) == found + WalkUp(fs, di).rules;
      }
    }
    if !done {
      assert found + [] == found;
    }
  }

  /** The `ignoreFiles` list shared by CollectIgnoreFiles and IsIgnored. */
  class IgnoreList {
    var ruleSets: seq<RuleSet>

    constructor ()
      ensures ruleSets == []
    {
      ruleSets := [];
    }

    /**
     * CollectIgnoreFiles(directory) as written: the list is rebuilt for one
     * package root, and the upward walk appends straight to it.
     */
    method CollectIgnoreFiles(fs: FileSystem, directory: string)
      modifies this
      ensures ruleSets == IgnoreRuleSetsAsWritten(fs, directory)
    {
      ruleSets := [];
      AddToIgnore(fs, directory, ".gitignore", true);
      AddToIgnore(fs, directory, ".npmignore", true);
      assert ruleSets == Downward(fs, directory);

      var upwardsIgnoreFiles: seq<RuleSet> := [];
      // the walk's AddToIgnore calls append to `ignoreFiles`, never to `upwardsIgnoreFiles`
      var found, inRepo := WalkUpwards(fs, directory);
      ruleSets := ruleSets + found;
      if inRepo {
        ruleSets := ruleSets + upwardsIgnoreFiles;
      }
    }

    /** AddToIgnore(ignoreList, name, searchOption): whatever list is passed, the rule sets go to `ignoreFiles`. */
    method AddToIgnore(fs: FileSystem, dir: string, name: string, deep: bool)
      modifies this
      ensures ruleSets == old(ruleSets) + RuleFiles(fs, dir, name, deep)
    {
      var found := FindRuleFiles(fs, dir, name, deep);
      ruleSets := ruleSets + found;
    }

    /** IsIgnored(filePath) as written: the raw prefix test, whose Substring can throw. */
    method IsIgnored(filePath: string, m: Matcher) returns (r: Outcome<bool>)
      ensures r == IgnoredAsWritten(ruleSets, m, ReplaceAll(filePath, "\\", "/"))
    {
      var q := ReplaceAll(filePath, "\\", "/");
      var k := 0;
      while k < |ruleSets|
        invariant 0 <= k <= |ruleSets|
        invariant IgnoredAsWritten(ruleSets[k..], m, q) == IgnoredAsWritten(ruleSets, m, q)
      {
        var rs := ruleSets[k];
        assert ruleSets[k..][0] == rs && ruleSets[k..][1..] == ruleSets[k + 1..];
        if StartsWith(q, rs.dir) {
          if |q| < |rs.dir| + 1 {
            return Throws(SubstringOutOfRange);
          }
          var checkedPath := q[|rs.dir| + 1..];
          if m(rs.patterns, checkedPath) {
            return Ok(true);
          }
        }
        k := k + 1;
      }
      assert ruleSets[k..] == [];
      return Ok(false);
    }
  }
}
