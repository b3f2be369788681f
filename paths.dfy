/** The string functions the wrapper applies to paths. */
module Paths {

  /** The characters `PathToDatabase` strips: `{ '\\', '/' }`. */
  predicate IsSeparator(c: char) {
    c == '\\' || c == '/'
  }

  predicate EndsWithSeparator(s: string) {
    s != [] && IsSeparator(s[|s| - 1])
  }

  /** `value.TrimEnd('\\', '/')`: the input without its trailing run of
      separators. */
  function TrimEnd(s: string): (r: string)
    ensures r <= s
    ensures !EndsWithSeparator(r)
    ensures forall i :: |r| <= i < |s| ==> IsSeparator(s[i])
    decreases |s|
  {
    if EndsWithSeparator(s) then TrimEnd(s[..|s| - 1]) else s
  }

  /** Trimming a trimmed path changes nothing. */
  lemma TrimEndIdempotent(s: string)
    ensures TrimEnd(TrimEnd(s)) == TrimEnd(s)
  {
  }

  /** The three properties of `TrimEnd`'s contract determine its result: it is
      the one prefix that does not end in a separator and leaves only
      separators behind. */
  lemma {:induction false} TrimEndUnique(s: string, r: string)
    requires r <= s
    requires !EndsWithSeparator(r)
    requires forall i :: |r| <= i < |s| ==> IsSeparator(s[i])
    ensures TrimEnd(s) == r
    decreases |s|
  {
    if |r| < |s| {
      assert IsSeparator(s[|s| - 1]);
      assert r <= s[..|s| - 1];
      TrimEndUnique(s[..|s| - 1], r);
    } else {
      assert r == s;
    }
  }

  /** Appending separators to a path does not change what it trims to. */
  lemma {:induction false} TrimEndIgnoresAddedSeparators(s: string, tail: string)
    requires forall i :: 0 <= i < |tail| ==> IsSeparator(tail[i])
    ensures TrimEnd(s + tail) == TrimEnd(s)
  {
    var r := TrimEnd(s);
    assert r <= s + tail;
    forall i | |r| <= i < |s + tail|
      ensures IsSeparator((s + tail)[i])
    {
      if i >= |s| { assert (s + tail)[i] == tail[i - |s|]; }
    }
    TrimEndUnique(s + tail, r);
  }

  /** A root directory "/" is trimmed to the empty string. */
  lemma TrimEndOfRoot()
    ensures TrimEnd("/") == ""
    ensures TrimEnd("\\\\") == ""
  {
  }

  /** The legacy class joins directory and file name with a backslash:
      `_pathToDatabase + '\\' + _databaseFileName`. */
  function LegacyFilePath(directory: string, fileName: string): (r: string)
    ensures |r| == |directory| + 1 + |fileName|
    ensures r[..|directory|] == directory && r[|directory|] == '\\'
    ensures r[|directory| + 1..] == fileName
  {
    directory + "\\" + fileName
  }

  /** The index of the last backslash in `s`, or -1 when there is none. */
  function LastBackslash(s: string): (r: int)
    ensures -1 <= r < |s|
    ensures r >= 0 ==> s[r] == '\\'
    ensures forall j :: r < j < |s| ==> s[j] != '\\'
  {
    if s == [] then -1
    else if s[|s| - 1] == '\\' then |s| - 1
    else LastBackslash(s[..|s| - 1])
  }

  /** A file name without a backslash can be split off the legacy path again:
      the directory is what comes before the last backslash, the name what
      comes after it. */
  lemma LegacyFilePathSplits(directory: string, fileName: string)
    requires forall j :: 0 <= j < |fileName| ==> fileName[j] != '\\'
    ensures var p := LegacyFilePath(directory, fileName);
            && LastBackslash(p) == |directory|
            && p[..LastBackslash(p)] == directory
            && p[LastBackslash(p) + 1..] == fileName
  {
    var p := LegacyFilePath(directory, fileName);
    forall j | |directory| < j < |p| ensures p[j] != '\\' {
      assert p[j] == fileName[j - |directory| - 1];
    }
  }

  predicate IsRooted(p: string) {
    p != [] && p[0] == '/'
  }

  /** `Path.Combine(path1, path2)` as .NET implements it on Unix, where '/' is
      the only directory separator. */
  function Combine(path1: string, path2: string): (r: string)
    ensures |path2| <= |r| && r[|r| - |path2|..] == path2
    ensures !IsRooted(path2) ==> path1 <= r
    ensures IsRooted(path2) ==> r == path2
    ensures path2 == [] ==> r == path1
    ensures path1 == [] ==> r == path2
    ensures path1 != [] && path2 != [] && !IsRooted(path2) ==>
              r == path1 + (if path1[|path1| - 1] == '/' then "" else "/") + path2
  {
    if path2 == [] then path1
    else if path1 == [] then path2
    else if IsRooted(path2) then path2
    else if path1[|path1| - 1] == '/' then path1 + path2
    else path1 + "/" + path2
  }
}
