/** The parts of Python's `posixpath` the core uses: `join` and `splitext`. */
module OsPath {

  /** `os.path.join(a, b)`: an absolute `b` replaces `a`; otherwise one `/` is inserted
      unless `a` is empty or already ends with `/`. */
  function Join(a: string, b: string): (r: string)
    ensures |b| > 0 && b[0] == '/' ==> r == b
    ensures !(|b| > 0 && b[0] == '/') ==> |a| + |b| <= |r| && r[..|a|] == a && r[|r| - |b|..] == b
  {
    if |b| > 0 && b[0] == '/' then b
    else if a == [] || a[|a| - 1] == '/' then a + b
    else a + "/" + b
  }

  /** `os.path.join(a, *parts)`. */
  function JoinAll(a: string, parts: seq<string>): string
    decreases |parts|
  {
    if parts == [] then a else JoinAll(Join(a, parts[0]), parts[1..])
  }

  /** Index of the last occurrence of `c` in `s`, or -1. */
  function RFind(s: string, c: char): (r: int)
    ensures -1 <= r < |s|
    ensures r >= 0 ==> s[r] == c
    ensures forall i :: r < i < |s| ==> s[i] != c
  {
    if s == [] then -1
    else if s[|s| - 1] == c then |s| - 1
    else RFind(s[..|s| - 1], c)
  }

  /** Some character of `s[lo..hi]` is not a dot. */
  predicate HasNonDot(s: string, lo: int, hi: int)
    requires 0 <= lo && hi <= |s|
  {
    exists k :: lo <= k < hi && s[k] != '.'
  }

  /** `os.path.splitext(p)`: the extension is the part from the last dot of the last path
      component, provided that dot is preceded in the component by a character other than a
      dot; otherwise the extension is empty. */
  function SplitExt(p: string): (r: (string, string))
    ensures r.0 + r.1 == p
    ensures r.1 != [] ==> r.1[0] == '.' && '/' !in r.1 && r.0 != []
    ensures r.1 != [] ==> forall i :: 1 <= i < |r.1| ==> r.1[i] != '.'
  {
    var sep := RFind(p, '/');
    var dot := RFind(p, '.');
    if dot > sep && HasNonDot(p, sep + 1, dot) then
      assert forall i :: dot < i < |p| ==> p[i] != '/' && p[i] != '.';
      (p[..dot], p[dot..])
    else
      (p, [])
  }
}
