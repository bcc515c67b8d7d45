/** String operations of Python's `str` that the core relies on, over `seq<char>`. */
module Text {
  import opened Wrappers

  /** The characters Python's `str.isspace()` accepts; `re`'s `\s`, `str.strip()` and
      `str.split()` without arguments use the same set. */
  const Whitespace: set<char> := {
    ' ', '\t', '\n', '\U{B}', '\U{C}', '\r', '\U{1C}', '\U{1D}', '\U{1E}', '\U{1F}',
    '\U{85}', '\U{A0}', '\U{1680}',
    '\U{2000}', '\U{2001}', '\U{2002}', '\U{2003}', '\U{2004}', '\U{2005}',
    '\U{2006}', '\U{2007}', '\U{2008}', '\U{2009}', '\U{200A}',
    '\U{2028}', '\U{2029}', '\U{202F}', '\U{205F}', '\U{3000}'
  }

  predicate IsSpace(c: char) {
    c in Whitespace
  }

  predicate IsDigit(c: char) {
    '0' <= c <= '9'
  }

  /** `str.isalnum()`, restricted to ASCII letters and digits. */
  predicate IsAlnum(c: char) {
    IsDigit(c) || 'a' <= c <= 'z' || 'A' <= c <= 'Z'
  }

  function LowerChar(c: char): char {
    if 'A' <= c <= 'Z' then (c as int + 32) as char else c
  }

  /** `str.lower()`, restricted to ASCII letters. */
  function Lower(s: string): (r: string)
    ensures |r| == |s|
    ensures forall i :: 0 <= i < |s| ==> r[i] == LowerChar(s[i])
  {
    seq(|s|, i requires 0 <= i < |s| => LowerChar(s[i]))
  }

  /** Number of leading characters of `s` that belong to `cs`. */
  function LeadCount(s: string, cs: set<char>): (n: nat)
    ensures n <= |s|
    ensures forall i :: 0 <= i < n ==> s[i] in cs
    ensures n < |s| ==> s[n] !in cs
  {
    if s != [] && s[0] in cs then 1 + LeadCount(s[1..], cs) else 0
  }

  /** Number of trailing characters of `s` that belong to `cs`. */
  function TrailCount(s: string, cs: set<char>): (n: nat)
    ensures n <= |s|
    ensures forall i :: |s| - n <= i < |s| ==> s[i] in cs
    ensures n < |s| ==> s[|s| - 1 - n] !in cs
  {
    if s != [] && s[|s| - 1] in cs then 1 + TrailCount(s[..|s| - 1], cs) else 0
  }

  /** `str.lstrip(chars)`. */
  function TrimLeft(s: string, cs: set<char>): (r: string)
    ensures r == s[LeadCount(s, cs)..]
    ensures r != [] ==> r[0] !in cs
  {
    s[LeadCount(s, cs)..]
  }

  /** `str.strip(chars)`: the longest middle slice whose ends are not in `cs`. */
  function Strip(s: string, cs: set<char>): (r: string)
    ensures LeadCount(s, cs) + |r| <= |s|
    ensures r == s[LeadCount(s, cs)..LeadCount(s, cs) + |r|]
    ensures r != [] ==> r[0] !in cs && r[|r| - 1] !in cs
    ensures forall i :: 0 <= i < LeadCount(s, cs) ==> s[i] in cs
    ensures forall i :: LeadCount(s, cs) + |r| <= i < |s| ==> s[i] in cs
  {
    var t := s[LeadCount(s, cs)..];
    t[..|t| - TrailCount(t, cs)]
  }

  /** A string whose ends are not in `cs` is its own strip. */
  lemma StripKeeps(s: string, cs: set<char>)
    requires s != [] && s[0] !in cs && s[|s| - 1] !in cs
    ensures Strip(s, cs) == s
  {
    assert LeadCount(s, cs) == 0;
    assert TrailCount(s, cs) == 0;
  }

  /** `str.strip()` without arguments. */
  function StripSpace(s: string): (r: string)
    ensures |r| <= |s|
    ensures r != [] ==> !IsSpace(r[0]) && !IsSpace(r[|r| - 1])
  {
    Strip(s, Whitespace)
  }

  /** `t` occurs in `s` starting at index `j`. */
  predicate OccursAt(s: string, t: string, j: int) {
    0 <= j && j + |t| <= |s| && s[j..j + |t|] == t
  }

  /** The first index at or after `k` where `t` occurs in `s`. */
  function IndexFrom(s: string, t: string, k: nat): (r: Option<nat>)
    ensures r.Some? ==> k <= r.value && OccursAt(s, t, r.value)
    ensures r.Some? ==> forall j :: k <= j < r.value ==> !OccursAt(s, t, j)
    ensures r.None? ==> forall j :: k <= j ==> !OccursAt(s, t, j)
    decreases |s| - k
  {
    if k + |t| > |s| then None
    else if s[k..k + |t|] == t then Some(k)
    else IndexFrom(s, t, k + 1)
  }

  /** `s.find(t)`, as an option: the first occurrence of `t` in `s`. */
  function IndexOf(s: string, t: string): (r: Option<nat>)
    ensures r.Some? ==> OccursAt(s, t, r.value)
    ensures r.Some? ==> forall j :: 0 <= j < r.value ==> !OccursAt(s, t, j)
    ensures r.None? ==> forall j :: !OccursAt(s, t, j)
  {
    IndexFrom(s, t, 0)
  }

  /** Python's `t in s` on strings. */
  predicate Contains(s: string, t: string) {
    IndexOf(s, t).Some?
  }

  lemma ContainsAt(s: string, t: string, j: int)
    requires OccursAt(s, t, j)
    ensures Contains(s, t)
  {
  }

  /** An occurrence inside a prefix of `s` is an occurrence in `s`. */
  lemma OccursInPrefix(s: string, t: string, n: nat, j: int)
    requires n <= |s|
    ensures OccursAt(s[..n], t, j) ==> OccursAt(s, t, j)
  {
    if OccursAt(s[..n], t, j) {
      assert s[..n][j..j + |t|] == s[j..j + |t|];
    }
  }

  /** `s.split(sep, 1)` when `sep` occurs, None when it does not. */
  function SplitOnce(s: string, sep: string): (r: Option<(string, string)>)
    requires sep != []
    ensures r.Some? <==> Contains(s, sep)
    ensures r.Some? ==> r.value.0 + sep + r.value.1 == s && !Contains(r.value.0, sep)
  {
    match IndexOf(s, sep)
    case None => None
    case Some(i) =>
      var head := s[..i];
      forall j | 0 <= j
        ensures !OccursAt(head, sep, j)
      {
        OccursInPrefix(s, sep, i, j);
      }
      assert s[..i] + sep + s[i + |sep|..] == s;
      Some((head, s[i + |sep|..]))
  }

  /** `sep.join(parts)`. */
  function Join(parts: seq<string>, sep: string): string {
    if parts == [] then ""
    else if |parts| == 1 then parts[0]
    else parts[0] + sep + Join(parts[1..], sep)
  }

  /** Joining one more part appends the separator and that part. */
  lemma {:induction false} JoinSnoc(parts: seq<string>, x: string, sep: string)
    requires parts != []
    ensures Join(parts + [x], sep) == Join(parts, sep) + sep + x
  {
    if |parts| > 1 {
      assert (parts + [x])[1..] == parts[1..] + [x];
      JoinSnoc(parts[1..], x, sep);
    }
  }

  /** Joining two more parts, the last one empty. */
  lemma JoinTwoLast(q: seq<string>, t: string, sep: string)
    requires q != []
    ensures Join(q + [t] + [""], sep) == Join(q, sep) + (sep + t + sep)
  {
    JoinSnoc(q + [t], "", sep);
    JoinSnoc(q, t, sep);
  }

  /** Number of occurrences of `c` in `s`. */
  function Count(s: string, c: char): nat {
    if s == [] then 0 else (if s[0] == c then 1 else 0) + Count(s[1..], c)
  }

  /** `s.split(c)` for a one-character separator: the pieces between occurrences of `c`. */
  function SplitOn(s: string, c: char): (r: seq<string>)
    ensures |r| == Count(s, c) + 1
    ensures forall i :: 0 <= i < |r| ==> c !in r[i]
  {
    if s == [] then [""]
    else
      var rest := SplitOn(s[1..], c);
      if s[0] == c then [""] + rest else [[s[0]] + rest[0]] + rest[1..]
  }

  lemma {:induction false} SplitOnRejoins(s: string, c: char)
    ensures Join(SplitOn(s, c), [c]) == s
  {
    if s != [] {
      SplitOnRejoins(s[1..], c);
      var rest := SplitOn(s[1..], c);
      if s[0] != c && |rest| > 1 {
        assert Join(SplitOn(s, c), [c]) == [s[0]] + rest[0] + [c] + Join(rest[1..], [c]);
      }
    }
  }

  /** Python's `str.startswith`. */
  predicate StartsWith(s: string, prefix: string) {
    prefix <= s
  }

  predicate EndsWith(s: string, suffix: string) {
    |suffix| <= |s| && s[|s| - |suffix|..] == suffix
  }

  lemma EndsWithAppend(s: string, suffix: string)
    ensures EndsWith(s + suffix, suffix)
  {
    assert (s + suffix)[|s|..] == suffix;
  }
}
