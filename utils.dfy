/**
 * Locating executables on PATH and choosing an AUR helper. The filesystem and
 * the PATH variable are inputs: a snapshot of what the probes would observe.
 */
module Utils {
  import opened Wrappers

  /** Unix permission bits for "executable by owner, group or others" (octal 111). */
  const ExecuteBits: bv32 := 0x49

  /** The platform's path separator. */
  const Separator: char := '/'

  /** The AUR helpers looked for, most preferred first. */
  const Priority: seq<string> := ["paru", "yay"]

  /**
   * What the probes see: which paths are regular files, which paths exist, and
   * the permission mode of every path whose metadata can be read.
   */
  datatype FileSystem = FileSystem(regularFiles: set<string>, existing: set<string>, modes: map<string, bv32>)

  /** The entries of a PATH value, split at every ':' (an empty value is one empty entry). */
  function SplitPaths(value: string): (dirs: seq<string>)
    ensures |dirs| >= 1
    ensures forall i :: 0 <= i < |dirs| ==> ':' !in dirs[i]
  {
    if value == [] then [""]
    else
      var rest := SplitPaths(value[1..]);
      if value[0] == ':' then [""] + rest else [[value[0]] + rest[0]] + rest[1..]
  }

  /** `dir` with the relative component `name` appended, adding a separator only where one is missing. */
  function Push(dir: string, name: string): (p: string)
    ensures |p| >= |name| && p[|p| - |name|..] == name
  {
    if dir == [] || dir[|dir| - 1] == Separator then dir + name else dir + [Separator] + name
  }

  /** A found path counts when it exists, its metadata can be read and some execute bit is set. */
  predicate ExecutableCandidate(fs: FileSystem, path: string) {
    path in fs.existing && path in fs.modes && fs.modes[path] & ExecuteBits != 0
  }

  /**
   * Reference definition of the PATH lookup: a name with a separator is decided by
   * "is a regular file" alone; otherwise PATH must be set and some entry of it must
   * hold an executable candidate.
   */
  predicate ExecutableInPath(fs: FileSystem, pathVar: Option<string>, cmd: string) {
    if Separator in cmd then cmd in fs.regularFiles
    else
      pathVar.Some? &&
      var dirs := SplitPaths(pathVar.value);
      exists i :: 0 <= i < |dirs| && ExecutableCandidate(fs, Push(dirs[i], cmd))
  }

  /** Scans PATH entries in order and stops at the first executable candidate. */
  method IsExecutableInPath(fs: FileSystem, pathVar: Option<string>, cmd: string) returns (found: bool)
    ensures found == ExecutableInPath(fs, pathVar, cmd)
    ensures Separator in cmd ==> found == (cmd in fs.regularFiles)
    ensures Separator !in cmd && pathVar.None? ==> !found
  {
    if Separator in cmd {
      return cmd in fs.regularFiles;
    }
    if pathVar.None? {
      return false;
    }
    var dirs := SplitPaths(pathVar.value);
    for i := 0 to |dirs|
      invariant forall j :: 0 <= j < i ==> !ExecutableCandidate(fs, Push(dirs[j], cmd))
    {
      var candidate := dirs[i];
      candidate := Push(candidate, cmd);
      if candidate in fs.existing {
        if candidate in fs.modes {
          var mode := fs.modes[candidate];
          if mode & ExecuteBits != 0 {
            return true;
          }
        }
      }
    }
    return false;
  }

  /** The first of `candidates` that is executable, if any. */
  function FirstExecutable(fs: FileSystem, pathVar: Option<string>, candidates: seq<string>): (r: Option<string>)
    ensures r.None? <==> forall j :: 0 <= j < |candidates| ==> !ExecutableInPath(fs, pathVar, candidates[j])
    ensures r.Some? ==> exists k :: 0 <= k < |candidates| && candidates[k] == r.value
                          && ExecutableInPath(fs, pathVar, candidates[k])
                          && forall j :: 0 <= j < k ==> !ExecutableInPath(fs, pathVar, candidates[j])
  {
    if candidates == [] then None
    else if ExecutableInPath(fs, pathVar, candidates[0]) then Some(candidates[0])
    else
      var r := FirstExecutable(fs, pathVar, candidates[1..]);
      assert r.Some? ==> exists k :: 1 <= k < |candidates| && candidates[k] == r.value
                          && ExecutableInPath(fs, pathVar, candidates[k])
                          && forall j :: 0 <= j < k ==> !ExecutableInPath(fs, pathVar, candidates[j]);
      r
  }

  /** The helper auto-detection would choose. */
  function DetectedHelper(fs: FileSystem, pathVar: Option<string>): Option<string> {
    FirstExecutable(fs, pathVar, Priority)
  }

  /** Tries the helpers in priority order and returns the first one found. */
  method DetectAurHelper(fs: FileSystem, pathVar: Option<string>) returns (helper: Option<string>)
    ensures helper == DetectedHelper(fs, pathVar)
    ensures ExecutableInPath(fs, pathVar, "paru") ==> helper == Some("paru")
    ensures helper == Some("yay") <==> !ExecutableInPath(fs, pathVar, "paru") && ExecutableInPath(fs, pathVar, "yay")
    ensures helper == None <==> !ExecutableInPath(fs, pathVar, "paru") && !ExecutableInPath(fs, pathVar, "yay")
    ensures helper.Some? ==> helper.value in Priority
  {
    assert Priority[0] == "paru" && Priority[1] == "yay" && |"paru"| != |"yay"|;
    for i := 0 to |Priority|
      invariant forall j :: 0 <= j < i ==> !ExecutableInPath(fs, pathVar, Priority[j])
    {
      var cmd := Priority[i];
      var found := IsExecutableInPath(fs, pathVar, cmd);
      if found {
        helper := Some(cmd);
        assert Priority[1..] == ["yay"];
        assert i == 0 ==> helper == FirstExecutable(fs, pathVar, Priority);
        return;
      }
    }
    helper := None;
  }
}
