/** The parts of Python's `posixpath` that the splitter and the storage wrapper
    use to build object paths: `join` of two components, `basename` and
    `splitext`. Separator `/`, extension separator `.`. */
module PosixPath {

  /** Index of the last occurrence of `c` in `s`, or -1 (Python's `s.rfind(c)`). */
  function RFind(s: string, c: char): (r: int)
    ensures -1 <= r < |s|
    ensures r >= 0 ==> s[r] == c
    ensures forall i :: r < i < |s| ==> s[i] != c
    decreases |s|
  {
    if s == [] then -1
    else if s[|s| - 1] == c then |s| - 1
    else RFind(s[..|s| - 1], c)
  }

  /** `os.path.join(a, b)`: an absolute `b` replaces `a`; otherwise `b` is
      appended, with a `/` in between unless `a` is empty or already ends with
      one. */
  function Join(a: string, b: string): (r: string)
    ensures |b| > 0 && b[0] == '/' ==> r == b
    ensures !(|b| > 0 && b[0] == '/') ==>
              (r == a + b && (a == [] || a[|a| - 1] == '/')) ||
              (r == a + "/" + b && a != [] && a[|a| - 1] != '/')
  {
    if |b| > 0 && b[0] == '/' then b
    else if a == [] || a[|a| - 1] == '/' then a + b
    else a + "/" + b
  }

  /** `os.path.basename(p)`: what follows the last `/`. */
  function Basename(p: string): (r: string)
    ensures '/' !in r
    ensures |r| <= |p| && p[|p| - |r|..] == r
    ensures |r| == |p| || p[|p| - |r| - 1] == '/'
  {
    var k := RFind(p, '/') + 1;
    assert forall i :: 0 <= i < |p[k..]| ==> p[k..][i] == p[k + i];
    p[k..]
  }

  /** Some character of `p[lo..hi]` is not a dot. */
  predicate HasNonDot(p: string, lo: int, hi: int)
    requires 0 <= lo && hi <= |p|
  {
    exists i :: lo <= i < hi && p[i] != '.'
  }

  /** `os.path.splitext(p)`: the extension starts at the last `.` that comes
      after the last `/` and is preceded, within the final component, by some
      character other than a dot (so `.bashrc` and `..` have no extension). */
  function SplitExt(p: string): (r: (string, string))
    ensures r.0 + r.1 == p
    ensures r.1 == [] || (r.1[0] == '.' && '.' !in r.1[1..] && '/' !in r.1)
  {
    var sepIndex := RFind(p, '/');
    var dotIndex := RFind(p, '.');
    if dotIndex > sepIndex && HasNonDot(p, sepIndex + 1, dotIndex) then
      assert forall i :: 1 <= i < |p[dotIndex..]| ==> p[dotIndex..][i] == p[dotIndex + i];
      (p[..dotIndex], p[dotIndex..])
    else
      (p, [])
  }
}
