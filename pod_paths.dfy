// The device a database lives on, and the translation between the colon-separated paths
// the database stores ("pod paths") and paths on the mounted file system
// (`TrackDatabase.GetFilesystemPath`, `GetPodPath`, `GetUniquePodPath`, `IsTrackOnDevice`,
// TrackDatabase.cs:1893-1895 and 2087-2109).
module PodPaths {
  import opened Wrappers

  /** What the database asks of its `Device`: where it is mounted and where its control
    * directory is. */
  datatype Device = Device(mountPoint: string, controlPath: string)

  /** What `Device`'s constructor establishes: a mount point, and the control directory
    * "iPod_Control/" right under it. */
  predicate Constructed(d: Device)
  {
    d.mountPoint != "" && d.controlPath == d.mountPoint + "iPod_Control/"
  }

  // Ordinal string operations of the library, written out.

  predicate StartsWith(s: string, prefix: string)
  {
    prefix <= s
  }

  predicate EndsWith(s: string, suffix: string)
  {
    |suffix| <= |s| && s[|s| - |suffix|..] == suffix
  }

  predicate OccursAt(s: string, pattern: string, i: int)
  {
    0 <= i && i + |pattern| <= |s| && s[i..i + |pattern|] == pattern
  }

  /** `IndexOf (pattern) >= 0`. */
  predicate Occurs(s: string, pattern: string)
  {
    exists i :: 0 <= i <= |s| && OccursAt(s, pattern, i)
  }

  /** `Replace (a, b)` with one-character strings: every a becomes b. */
  function ReplaceChar(s: string, a: char, b: char): (r: string)
    ensures |r| == |s|
    ensures forall k :: 0 <= k < |s| ==> r[k] == if s[k] == a then b else s[k]
  {
    if s == [] then [] else [if s[0] == a then b else s[0]] + ReplaceChar(s[1..], a, b)
  }

  /** `Replace (pattern, "")`: the occurrences of the pattern, found from the left and
    * not overlapping, are dropped. */
  function RemoveAll(s: string, pattern: string): (r: string)
    requires pattern != ""
    decreases |s|
  {
    if |s| < |pattern| then s
    else if StartsWith(s, pattern) then RemoveAll(s[|pattern|..], pattern)
    else [s[0]] + RemoveAll(s[1..], pattern)
  }

  /** A string in which the pattern does not occur comes out of RemoveAll unchanged. */
  lemma {:induction false} RemoveAllAbsent(s: string, pattern: string)
    requires pattern != "" && !Occurs(s, pattern)
    ensures RemoveAll(s, pattern) == s
    decreases |s|
  {
    if |s| >= |pattern| {
      assert !OccursAt(s, pattern, 0);
      assert s[0..|pattern|] == s[..|pattern|];
      forall i ensures !OccursAt(s[1..], pattern, i)
      {
        assert !OccursAt(s, pattern, i + 1);
        if 0 <= i && i + |pattern| <= |s[1..]| {
          assert s[1..][i..i + |pattern|] == s[i + 1..i + 1 + |pattern|];
        }
      }
      RemoveAllAbsent(s[1..], pattern);
      assert s == [s[0]] + s[1..];
    }
  }

  function ControlDirectoryName(d: Device): string
  {
    if Occurs(d.controlPath, "iPod_Control") then "iPod_Control" else "iTunes_Control"
  }

  function MusicBasePath(d: Device): string
  {
    d.controlPath + "Music"
  }

  /** `IsTrackOnDevice`: the file is already in one of the device's music folders. */
  predicate IsTrackOnDevice(d: Device, path: string)
  {
    StartsWith(path, MusicBasePath(d) + "/F")
  }

  /** `Device.IsBE`: the control directory is named "iTunes_Control". */
  predicate IsBE(d: Device)
  {
    EndsWith(d.controlPath, "iTunes_Control")
  }

  /** `GetFilesystemPath`: null stays null, the empty path stays empty, and any other pod
    * path is put under the mount point with its colons turned into slashes. */
  function GetFilesystemPath(d: Device, podPath: Option<string>): (r: Option<string>)
    ensures r.None? <==> podPath.None?
    ensures podPath == Some("") ==> r == Some("")
    ensures podPath.Some? && podPath.value != "" ==>
      r.Some? && StartsWith(r.value, d.mountPoint) && ':' !in r.value[|d.mountPoint|..]
  {
    match podPath
    case None => None
    case Some(p) =>
      if p == "" then Some("")
      else
        var r := d.mountPoint + ReplaceChar(p, ':', '/');
        assert r[|d.mountPoint|..] == ReplaceChar(p, ':', '/');
        Some(r)
  }

  /** `GetPodPath`: null for null and for a path outside the mount point; otherwise the
    * mount point is taken out wherever it occurs and slashes become colons. The source's
    * `Replace` throws on an empty mount point, which the precondition rules out. */
  function GetPodPath(d: Device, path: Option<string>): (r: Option<string>)
    requires d.mountPoint != ""
    ensures r.Some? <==> path.Some? && StartsWith(path.value, d.mountPoint)
    ensures r.Some? ==> '/' !in r.value
  {
    if path.None? || !StartsWith(path.value, d.mountPoint) then None
    else Some(ReplaceChar(RemoveAll(path.value, d.mountPoint), '/', ':'))
  }

  /** `GetUniquePodPath`: the new name, chosen at random among the names not yet taken
    * (`MakeUniquePodTrackPath`), placed in the music directory. */
  function GetUniquePodPath(d: Device, path: Option<string>, uniqueName: string): (r: Option<string>)
    ensures r.Some? <==> path.Some?
  {
    if path.None? then None else Some(":" + ControlDirectoryName(d) + ":Music:" + uniqueName)
  }

  /** A file path under the mount point whose rest has no colon and no second copy of the
    * mount point maps to a pod path that maps back to it. */
  lemma FilesystemPathRoundTrip(d: Device, rest: string)
    requires d.mountPoint != "" && rest != "" && ':' !in rest && !Occurs(rest, d.mountPoint)
    ensures GetFilesystemPath(d, GetPodPath(d, Some(d.mountPoint + rest))) == Some(d.mountPoint + rest)
  {
    var mp := d.mountPoint;
    var path := mp + rest;
    assert path[|mp|..] == rest;
    RemoveAllAbsent(rest, mp);
    assert RemoveAll(path, mp) == rest;
    var pod := ReplaceChar(rest, '/', ':');
    assert ReplaceChar(pod, ':', '/') == rest;
  }

  /** A non-empty pod path without slashes maps to a file path that maps back to it, as
    * long as the mount point does not occur again in what follows it. */
  lemma PodPathRoundTrip(d: Device, pod: string)
    requires d.mountPoint != "" && pod != "" && '/' !in pod
    requires !Occurs(ReplaceChar(pod, ':', '/'), d.mountPoint)
    ensures GetPodPath(d, GetFilesystemPath(d, Some(pod))) == Some(pod)
  {
    var mp := d.mountPoint;
    var rest := ReplaceChar(pod, ':', '/');
    var path := mp + rest;
    assert path[|mp|..] == rest;
    RemoveAllAbsent(rest, mp);
    assert RemoveAll(path, mp) == rest;
    assert ReplaceChar(rest, '/', ':') == pod;
  }

  /** The constructed device's control directory is "iPod_Control". */
  lemma ConstructedControlDirectory(d: Device)
    requires Constructed(d)
    ensures ControlDirectoryName(d) == "iPod_Control"
    ensures !IsBE(d)
  {
    var cp := d.controlPath;
    var i := |d.mountPoint|;
    assert cp[i..i + |"iPod_Control"|] == "iPod_Control";
    assert OccursAt(cp, "iPod_Control", i);
    assert cp[|cp| - 1] == '/';
  }

  /** A file already on the device lies under the mount point, so it has a pod path. */
  lemma OnDeviceHasPodPath(d: Device, path: string)
    requires Constructed(d) && IsTrackOnDevice(d, path)
    ensures GetPodPath(d, Some(path)).Some?
  {
    assert d.mountPoint <= MusicBasePath(d) + "/F";
  }
}
