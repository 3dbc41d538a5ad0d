/**
 * The parts of `pathlib.Path` the tool relies on, over paths written as
 * strings in normal form (no trailing `/`, no repeated `/`).
 */
module Paths {
  import opened Options
  import opened Strings

  /** `Path(s)`: the empty string names the current directory. */
  function FromString(s: string): string {
    if s == "" then "." else s
  }

  /**
   * `dir / part` for a relative `part`: `part` alone under the current
   * directory, otherwise `dir`, one '/' unless `dir` already ends with one, then `part`.
   */
  function Join(dir: string, part: string): (r: string)
    ensures dir == "" || dir == "." ==> r == part
    ensures dir != "" && dir != "." ==> |dir| <= |r| && r[..|dir|] == dir
    ensures dir != "" && dir != "." && dir[|dir| - 1] == '/' ==> |r| == |dir| + |part|
    ensures dir != "" && dir != "." && dir[|dir| - 1] != '/' ==> |r| == |dir| + 1 + |part| && r[|dir|] == '/'
    ensures |part| <= |r| && r[|r| - |part|..] == part
  {
    if dir == "" || dir == "." then part
    else if dir[|dir| - 1] == '/' then dir + part
    else dir + "/" + part
  }

  /** `PurePath.name`: the final component, everything after the last '/'; `.` and `/` have an empty name. */
  function Name(p: string): (r: string)
    ensures p == "." ==> r == ""
    ensures '/' !in r
    ensures |r| <= |p| && p[|p| - |r|..] == r
    ensures p != "." && |r| < |p| ==> p[|p| - |r| - 1] == '/'
  {
    if p == "." then "" else LastSegment(p, '/')
  }

  /** `str.rfind(c)`: the index of the last `c` in `s`, or -1. */
  function RFind(s: string, c: char): (i: int)
    ensures -1 <= i < |s|
    ensures 0 <= i ==> s[i] == c
    ensures forall j :: i < j < |s| ==> s[j] != c
  {
    if s == [] then -1
    else if s[|s| - 1] == c then |s| - 1
    else RFind(s[..|s| - 1], c)
  }

  /**
   * `PurePath.suffix` of a name: from its last dot on, unless that dot is the
   * first or the last character of the name.
   */
  function Suffix(name: string): (r: string)
    ensures |r| <= |name| && name[|name| - |r|..] == r
  {
    var i := RFind(name, '.');
    if 0 < i < |name| - 1 then name[i..] else ""
  }

  /**
   * `PurePath.with_suffix(suffix)`: replaces the suffix of the final component.
   * None stands for the ValueError raised when the path has an empty name.
   */
  function WithSuffix(p: string, suffix: string): (r: Option<string>)
    ensures r.None? <==> Name(p) == ""
    ensures r.Some? ==> |p| - |Name(p)| + |suffix| <= |r.value|
    ensures r.Some? ==> r.value[..|p| - |Name(p)|] == p[..|p| - |Name(p)|]
    ensures r.Some? ==> r.value[|r.value| - |suffix|..] == suffix
  {
    var name := Name(p);
    if name == "" then None
    else
      var stem := name[..|name| - |Suffix(name)|];
      Some(p[..|p| - |name|] + stem + suffix)
  }

  /** The backup location `save` copies to: `path.with_suffix(path.suffix + ".bak")`. */
  function BackupPath(p: string): (r: Option<string>)
    ensures r.None? <==> Name(p) == ""
  {
    WithSuffix(p, Suffix(Name(p)) + ".bak")
  }

  /**
   * Appending ".bak" to the existing suffix is the same as appending ".bak" to
   * the whole path; a path with an empty name has no backup path.
   */
  lemma BackupPathAppendsBak(p: string)
    ensures Name(p) != "" ==> BackupPath(p) == Some(p + ".bak")
    ensures Name(p) == "" ==> BackupPath(p) == None
  {
    if Name(p) != "" {
      WithExtendedSuffix(p, ".bak");
    }
  }

  /** Extending the suffix of a path with a non-empty name extends the path itself. */
  lemma WithExtendedSuffix(p: string, ext: string)
    requires Name(p) != ""
    ensures WithSuffix(p, Suffix(Name(p)) + ext) == Some(p + ext)
  {
    var name := Name(p);
    var suffix := Suffix(name);
    var stem := name[..|name| - |suffix|];
    var dir := p[..|p| - |name|];
    SplitAt(name, |name| - |suffix|);
    SplitAt(p, |p| - |name|);
    assert WithSuffix(p, suffix + ext) == Some(dir + stem + (suffix + ext));
    ConcatRegroup(dir, stem, suffix, ext);
  }

  lemma SplitAt(s: string, k: nat)
    requires k <= |s|
    ensures s[..k] + s[k..] == s
  {
  }

  lemma ConcatRegroup(a: string, b: string, c: string, d: string)
    ensures a + b + (c + d) == (a + (b + c)) + d
  {
  }
}
