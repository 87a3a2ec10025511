/**
 * Package and system checks. What the helpers read from outside (the contents
 * of the os-release file, the outcome of a package query) is an input; the
 * logic they apply to it is modelled exactly.
 */
module Helpers {
  import opened Wrappers
  import opened Text
  import Utils

  const NamePrefix: string := "NAME="
  const VersionPrefix: string := "VERSION="

  /** The value of an os-release line: the key's repetitions removed from the front, then the quotes from both ends. */
  function FieldValue(line: string, prefix: string): string {
    TrimMatches(TrimStartMatches(line, prefix), '"')
  }

  /** The last line that starts with `prefix`, if any. */
  function LastLine(lines: seq<string>, prefix: string): (r: Option<string>)
    decreases |lines|
  {
    if lines == [] then None
    else if StartsWith(lines[|lines| - 1], prefix) then Some(lines[|lines| - 1])
    else LastLine(lines[..|lines| - 1], prefix)
  }

  /**
   * `LastLine` finds a line exactly when some line starts with the prefix, and the
   * line it finds is the last such line.
   */
  lemma {:induction false} LastLineIsLast(lines: seq<string>, prefix: string)
    ensures LastLine(lines, prefix).Some? <==> exists i :: 0 <= i < |lines| && StartsWith(lines[i], prefix)
    ensures LastLine(lines, prefix).Some? ==>
              exists i :: 0 <= i < |lines| && lines[i] == LastLine(lines, prefix).value
                          && StartsWith(lines[i], prefix)
                          && forall j :: i < j < |lines| ==> !StartsWith(lines[j], prefix)
    decreases |lines|
  {
    if lines != [] {
      var init := lines[..|lines| - 1];
      LastLineIsLast(init, prefix);
      assert forall i :: 0 <= i < |init| ==> init[i] == lines[i];
    }
  }

  /** A later line for the same key overrides an earlier one. */
  lemma LaterLineWins(lines: seq<string>, prefix: string, line: string)
    requires StartsWith(line, prefix)
    ensures LastLine(lines + [line], prefix) == Some(line)
  {
    assert (lines + [line])[|lines|] == line;
  }

  /** A line for another key leaves the line found unchanged. */
  lemma OtherLineIgnored(lines: seq<string>, prefix: string, line: string)
    requires !StartsWith(line, prefix)
    ensures LastLine(lines + [line], prefix) == LastLine(lines, prefix)
  {
    assert (lines + [line])[..|lines|] == lines;
  }

  /** "PRETTY_NAME=" and "VERSION_ID=" lines match neither key. */
  lemma LookalikeKeysIgnored(rest: string)
    ensures !StartsWith("PRETTY_NAME=" + rest, NamePrefix)
    ensures !StartsWith("VERSION_ID=" + rest, VersionPrefix)
    ensures !StartsWith("VERSION_ID=" + rest, NamePrefix)
  {
    assert ("PRETTY_NAME=" + rest)[0] == 'P';
    assert ("VERSION_ID=" + rest)[7] == '_';
    assert ("VERSION_ID=" + rest)[0] == 'V';
  }

  /** A name line is never a version line, so the parser's `else` loses nothing. */
  lemma NameLineIsNotVersionLine(line: string)
    requires StartsWith(line, NamePrefix)
    ensures !StartsWith(line, VersionPrefix)
  {
    assert line[0] == line[..|NamePrefix|][0] == 'N';
    assert VersionPrefix[0] == 'V';
  }

  /** The value found for a key: that of its last line. */
  function LastValue(lines: seq<string>, prefix: string): Option<string> {
    var line := LastLine(lines, prefix);
    if line.Some? then Some(FieldValue(line.value, prefix)) else None
  }

  /** The distribution name and version an os-release text declares: both keys must be present. */
  function OsRelease(lines: seq<string>): (r: Option<(string, string)>)
    ensures r.Some? <==> LastLine(lines, NamePrefix).Some? && LastLine(lines, VersionPrefix).Some?
    ensures r.Some? ==> r.value == (FieldValue(LastLine(lines, NamePrefix).value, NamePrefix),
                                    FieldValue(LastLine(lines, VersionPrefix).value, VersionPrefix))
  {
    match (LastValue(lines, NamePrefix), LastValue(lines, VersionPrefix))
    case (Some(n), Some(v)) => Some((n, v))
    case _ => None
  }

  /**
   * A field value `v` is what is left of the line once `k` copies of the key are
   * removed from its front (leaving `rest`, which does not start with the key),
   * with the double quotes around it stripped: `rest` is `v` with only quotes
   * before and after it, and `v` neither starts nor ends with one.
   */
  lemma FieldValueShape(line: string, prefix: string) returns (k: nat, rest: string, a: nat, v: string)
    requires prefix != []
    ensures v == FieldValue(line, prefix)
    ensures line == Repeat(prefix, k) + rest && !StartsWith(rest, prefix)
    ensures a + |v| <= |rest| && rest[a..a + |v|] == v
    ensures forall j :: 0 <= j < a ==> rest[j] == '"'
    ensures forall j :: a + |v| <= j < |rest| ==> rest[j] == '"'
    ensures v == [] || (v[0] != '"' && v[|v| - 1] != '"')
  {
    k := TrimStartMatchesRemovesCopies(line, prefix);
    rest := TrimStartMatches(line, prefix);
    a, v := TrimMatchesKeepsMiddle(rest, '"');
  }

  /**
   * Reads name and version from the os-release contents; `None` for contents that
   * could not be read. Each line is checked for the name key, else the version key,
   * and a later match overwrites an earlier one.
   */
  method DistributionInfo(contents: Option<string>) returns (info: Option<(string, string)>)
    ensures contents.None? ==> info.None?
    ensures contents.Some? ==> info == OsRelease(Lines(contents.value))
  {
    if contents.None? {
      return None;
    }
    var lines := Lines(contents.value);
    var name: Option<string> := None;
    var version: Option<string> := None;
    for i := 0 to |lines|
      invariant name == LastValue(lines[..i], NamePrefix)
      invariant version == LastValue(lines[..i], VersionPrefix)
    {
      var line := lines[i];
      assert lines[..i + 1] == lines[..i] + [line];
      if StartsWith(line, NamePrefix) {
        LaterLineWins(lines[..i], NamePrefix, line);
        NameLineIsNotVersionLine(line);
        OtherLineIgnored(lines[..i], VersionPrefix, line);
        name := Some(FieldValue(line, NamePrefix));
      } else if StartsWith(line, VersionPrefix) {
        LaterLineWins(lines[..i], VersionPrefix, line);
        OtherLineIgnored(lines[..i], NamePrefix, line);
        version := Some(FieldValue(line, VersionPrefix));
      } else {
        OtherLineIgnored(lines[..i], NamePrefix, line);
        OtherLineIgnored(lines[..i], VersionPrefix, line);
      }
    }
    assert lines[..|lines|] == lines;
    if name.Some? && version.Some? {
      return Some((name.value, version.value));
    }
    return None;
  }

  /** The lines of a package listing that mention the pattern, in listing order. */
  function MatchingLines(lines: seq<string>, pattern: string): seq<string>
    decreases |lines|
  {
    if lines == [] then []
    else (if Contains(lines[0], pattern) then [lines[0]] else []) + MatchingLines(lines[1..], pattern)
  }

  /** The matching lines, each reduced to its first token (the package name). */
  function FilterPackageLines(lines: seq<string>, pattern: string): (names: seq<string>)
    ensures |names| == |MatchingLines(lines, pattern)|
    ensures forall i :: 0 <= i < |names| ==> names[i] == FirstToken(MatchingLines(lines, pattern)[i])
  {
    var kept := MatchingLines(lines, pattern);
    seq(|kept|, i requires 0 <= i < |kept| => FirstToken(kept[i]))
  }

  /** The filter works line by line, keeping the order of the listing. */
  lemma {:induction false} MatchingAppend(a: seq<string>, b: seq<string>, pattern: string)
    ensures MatchingLines(a + b, pattern) == MatchingLines(a, pattern) + MatchingLines(b, pattern)
    decreases |a|
  {
    if a == [] {
      assert a + b == b;
    } else {
      assert (a + b)[0] == a[0] && (a + b)[1..] == a[1..] + b;
      MatchingAppend(a[1..], b, pattern);
    }
  }

  /** One line is kept exactly when it contains the pattern. */
  lemma MatchingOne(line: string, pattern: string)
    ensures MatchingLines([line], pattern) == if Contains(line, pattern) then [line] else []
  {
    assert [line][1..] == [];
  }

  /**
   * Only lines that contain the pattern are kept, and all of them: a line is in the
   * result exactly when it is a line of the listing that contains the pattern.
   */
  lemma {:induction false} MatchingExactly(lines: seq<string>, pattern: string)
    ensures |MatchingLines(lines, pattern)| <= |lines|
    ensures forall line :: line in MatchingLines(lines, pattern) <==> line in lines && Contains(line, pattern)
    decreases |lines|
  {
    if lines != [] {
      MatchingExactly(lines[1..], pattern);
      assert forall line :: line in lines <==> line == lines[0] || line in lines[1..];
    }
  }

  /** What running a query program produced: its exit state and its standard output. */
  datatype ProcessOutput = ProcessOutput(success: bool, stdout: string)

  /**
   * The installed packages whose listing line contains `pattern`: the detected AUR
   * helper's listing when it ran and succeeded, else pacman's, else nothing.
   * `helperRun` and `pacmanRun` are what running `<helper> -Q` and `pacman -Q`
   * produced (`None`: the program could not be run).
   */
  function ListPackagesMatching(pattern: string, fs: Utils.FileSystem, pathVar: Option<string>,
                                helperRun: Option<ProcessOutput>, pacmanRun: Option<ProcessOutput>): seq<string>
  {
    if Utils.DetectedHelper(fs, pathVar).Some? && helperRun.Some? && helperRun.value.success then
      FilterPackageLines(Lines(helperRun.value.stdout), pattern)
    else if pacmanRun.Some? && pacmanRun.value.success then
      FilterPackageLines(Lines(pacmanRun.value.stdout), pattern)
    else []
  }

  /**
   * A successful helper listing decides the answer whatever pacman would say; a
   * missing helper or a failed helper query falls back to pacman as if there were
   * no helper; with neither listing the answer is empty.
   */
  lemma ListingSources(pattern: string, fs: Utils.FileSystem, pathVar: Option<string>,
                       helperRun: Option<ProcessOutput>, pacmanRun: Option<ProcessOutput>, otherPacman: Option<ProcessOutput>)
    ensures Utils.DetectedHelper(fs, pathVar).Some? && helperRun.Some? && helperRun.value.success ==>
              ListPackagesMatching(pattern, fs, pathVar, helperRun, pacmanRun)
              == ListPackagesMatching(pattern, fs, pathVar, helperRun, otherPacman)
              == FilterPackageLines(Lines(helperRun.value.stdout), pattern)
    ensures !(Utils.DetectedHelper(fs, pathVar).Some? && helperRun.Some? && helperRun.value.success) ==>
              ListPackagesMatching(pattern, fs, pathVar, helperRun, pacmanRun)
              == ListPackagesMatching(pattern, fs, pathVar, None, pacmanRun)
    ensures !(Utils.DetectedHelper(fs, pathVar).Some? && helperRun.Some? && helperRun.value.success)
            && !(pacmanRun.Some? && pacmanRun.value.success) ==>
              ListPackagesMatching(pattern, fs, pathVar, helperRun, pacmanRun) == []
  {
  }

  /** The outcomes of `<helper> -Q <package>` and `pacman -Q <package>`: `Some(success)`, or `None` when the program could not be run. */
  datatype PackageProbe = PackageProbe(helperQuery: Option<bool>, pacmanQuery: Option<bool>)

  /** A package is installed when the detected helper's query succeeds, else when pacman's does. */
  function IsPackageInstalled(package: string, fs: Utils.FileSystem, pathVar: Option<string>, probe: PackageProbe): (b: bool)
    ensures b <==> (Utils.DetectedHelper(fs, pathVar).Some? && probe.helperQuery == Some(true))
                   || probe.pacmanQuery == Some(true)
  {
    if Utils.DetectedHelper(fs, pathVar).Some? && probe.helperQuery == Some(true) then true
    else probe.pacmanQuery.Some? && probe.pacmanQuery.value
  }

  /** One (name, installed) pair per package, in the order given. */
  function ArePackagesInstalled(packages: seq<string>, fs: Utils.FileSystem, pathVar: Option<string>,
                                probe: string -> PackageProbe): (r: seq<(string, bool)>)
    ensures |r| == |packages|
    ensures forall i :: 0 <= i < |packages| ==>
              r[i].0 == packages[i] && r[i].1 == IsPackageInstalled(packages[i], fs, pathVar, probe(packages[i]))
  {
    seq(|packages|, i requires 0 <= i < |packages| => (packages[i], IsPackageInstalled(packages[i], fs, pathVar, probe(packages[i]))))
  }

  /** Running on XeroLinux: the os-release contents could be read and mention the distribution in either spelling. */
  predicate IsXeroLinux(contents: Option<string>) {
    contents.Some? && (Contains(contents.value, "XeroLinux") || Contains(contents.value, "xerolinux"))
  }

  /** Either spelling anywhere in the contents is recognised; unreadable contents never are. */
  lemma XeroLinuxRecognised(before: string, after: string)
    ensures IsXeroLinux(Some(before + "XeroLinux" + after))
    ensures IsXeroLinux(Some(before + "xerolinux" + after))
    ensures !IsXeroLinux(None)
  {
    ContainsInfix(before, "XeroLinux", after);
    ContainsInfix(before, "xerolinux", after);
  }

  /** Readable contents are recognised exactly when one of the two spellings occurs at some offset. */
  lemma XeroLinuxOnlyWhenMentioned(c: string)
    ensures !Contains(c, "XeroLinux") && !Contains(c, "xerolinux") ==> !IsXeroLinux(Some(c))
    ensures IsXeroLinux(Some(c)) <==>
              exists i :: 0 <= i <= |c| && (StartsWith(c[i..], "XeroLinux") || StartsWith(c[i..], "xerolinux"))
  {
    ContainsAt(c, "XeroLinux");
    ContainsAt(c, "xerolinux");
  }
}
