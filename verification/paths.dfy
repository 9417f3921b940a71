/** `dirname` and `basename` from src/fs.ts, which defer to the posix
    `path` module: the part of a path before its last `/` and the last
    segment. */
module Paths {

  import opened Text

  /** `s.lastIndexOf(c)` for one character: the last position of `c`, or -1. */
  function LastIndexOf(s: string, c: char): (r: int)
    ensures r == -1 <==> c !in s
    ensures r != -1 ==> 0 <= r < |s| && s[r] == c && c !in s[r + 1..]
    decreases |s|
  {
    if |s| == 0 then -1
    else if s[|s| - 1] == c then |s| - 1
    else
      var k := LastIndexOf(s[..|s| - 1], c);
      assert k != -1 ==> s[k + 1..] == s[..|s| - 1][k + 1..] + [s[|s| - 1]];
      k
  }

  /** `path.dirname(s)`: "." for a bare name, "/" for a name directly under
      the root, otherwise everything before the last `/`. */
  function Dirname(s: string): (d: string)
    ensures |d| > 0
  {
    var k := LastIndexOf(s, '/');
    if k == -1 then "." else if k == 0 then "/" else s[..k]
  }

  /** `s` without the `/` characters it ends with. */
  function TrimTrailingSlashes(s: string): (t: string)
    ensures |t| <= |s| && t == s[..|t|]
    ensures |t| == 0 || t[|t| - 1] != '/'
    ensures forall k :: |t| <= k < |s| ==> s[k] == '/'
    decreases |s|
  {
    if |s| > 0 && s[|s| - 1] == '/' then TrimTrailingSlashes(s[..|s| - 1]) else s
  }

  /** `path.basename(s)`: the last non-empty segment, that is everything
      after the last `/` once the trailing `/` characters are dropped. */
  function Basename(s: string): (b: string)
    ensures '/' !in b
    ensures |b| <= |s|
  {
    var t := TrimTrailingSlashes(s);
    var k := LastIndexOf(t, '/');
    if k == -1 then t else t[k + 1..]
  }

  /** The base name ends the path once its trailing `/` characters are
      dropped, and starts the path or follows a `/`: with no `/` in it,
      it is the last segment. */
  lemma BasenameIsLastSegment(s: string)
    ensures var t := TrimTrailingSlashes(s); var b := Basename(s);
            |b| <= |t| && t[|t| - |b|..] == b && (|b| == |t| || t[|t| - |b| - 1] == '/')
  {
    var t := TrimTrailingSlashes(s);
    var k := LastIndexOf(t, '/');
    if k != -1 {
      assert Basename(s) == t[k + 1..];
      assert |t| - |t[k + 1..]| == k + 1;
    } else {
      assert Basename(s) == t;
    }
  }

  /** Trailing separators do not change the base name: `basename("/a/b/")`
      is "b". */
  lemma {:induction false} BasenameIgnoresTrailingSlash(s: string)
    ensures Basename(s + "/") == Basename(s)
  {
    var s' := s + "/";
    assert s'[..|s'| - 1] == s;
    assert TrimTrailingSlashes(s') == TrimTrailingSlashes(s);
  }

  /** A path with a `/` is its directory, a separator and its base name;
      the separator is not repeated for a name directly under the root. */
  lemma DirnameBasename(s: string)
    requires '/' in s && s[|s| - 1] != '/'
    ensures s == (if LastIndexOf(s, '/') == 0 then "/" + Basename(s) else Dirname(s) + "/" + Basename(s))
  {
    var k := LastIndexOf(s, '/');
    assert TrimTrailingSlashes(s) == s;
    assert s == s[..k] + [s[k]] + s[k + 1..];
    if k == 0 {
      assert s[..k] == [];
    }
  }

  /** A path without a `/` is its own base name, in directory ".". */
  lemma BareName(s: string)
    requires '/' !in s
    ensures Dirname(s) == "." && Basename(s) == s
  {
    assert |s| == 0 || s[|s| - 1] != '/';
    assert TrimTrailingSlashes(s) == s;
  }
}
