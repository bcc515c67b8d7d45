/** Recovery of a clean (artist, title) pair from noisy metadata (metadata_utils.py). */
module MetadataUtils {
  import opened Wrappers
  import opened Text
  import OsPath
  import Config

  /** A raw metadata record of the media-fetch collaborator: key to value, `None` for null. */
  type Info = map<string, Option<string>>

  /** The effect of `re.sub(pattern, '', text, flags=re.IGNORECASE)`: the positions of `text`
      that the matches of `pattern` cover, and which the substitution deletes. The regular
      expression engine itself is not part of this model. */
  type Matcher = (string, string) -> set<nat>

  datatype Pair = Pair(artist: string, title: string)

  /** The characters `clean_metadata` trims from both ends. */
  const StripChars: set<char> := {' ', '-', '–', '—', '|'}
  /** The separator glyphs of the display-title split `' [-–—|:] '`. */
  const TitleSeps: set<char> := {'-', '–', '—', '|', ':'}
  /** The separator glyphs of the file-name split `' [-–—|] '`. */
  const FileSeps: set<char> := {'-', '–', '—', '|'}

  /** A matcher that matches nothing. */
  const NoJunk: Matcher := (pattern: string, text: string) => {}

  function Get(info: Info, key: string): Option<string> {
    if key in info then info[key] else None
  }

  /** `info.get(key, default)`: a stored null stays null. */
  function GetOr(info: Info, key: string, default: string): Option<string> {
    if key in info then info[key] else Some(default)
  }

  // ---------------------------------------------------------------- clean_metadata

  /** `text` with the characters at the positions in `hits` deleted. */
  function Strike(text: string, hits: set<nat>): (r: string)
    ensures |r| <= |text|
    ensures multiset(r) <= multiset(text)
    ensures (forall i :: 0 <= i < |text| ==> i !in hits) ==> r == text
  {
    if text == [] then []
    else
      var init := text[..|text| - 1];
      assert text == init + [text[|text| - 1]];
      Strike(init, hits) + (if |text| - 1 in hits then [] else [text[|text| - 1]])
  }

  /** The deny-list applied in order, each pattern to the text the previous ones left. */
  function RemoveJunk(text: string, patterns: seq<string>, junk: Matcher): (r: string)
    ensures |r| <= |text|
    ensures multiset(r) <= multiset(text)
    decreases |patterns|
  {
    if patterns == [] then text
    else RemoveJunk(Strike(text, junk(patterns[0], text)), patterns[1..], junk)
  }

  /** `s` without its leading whitespace. */
  function DropSpaces(s: string): (r: string)
    ensures |r| <= |s| && r == s[|s| - |r|..]
    ensures r != [] ==> !IsSpace(r[0])
  {
    if s != [] && IsSpace(s[0]) then DropSpaces(s[1..]) else s
  }

  /** `re.sub(r'\s+', ' ', s)`: every maximal run of whitespace becomes one space. */
  function CollapseSpaces(s: string): (r: string)
    ensures |r| <= |s|
    ensures s == [] <==> r == []
    ensures s != [] && !IsSpace(s[0]) ==> r[0] == s[0]
    ensures forall i :: 0 <= i < |r| && IsSpace(r[i]) ==> r[i] == ' '
    ensures forall i :: 0 <= i < |r| - 1 ==> !(r[i] == ' ' && r[i + 1] == ' ')
    decreases |s|
  {
    if s == [] then []
    else if IsSpace(s[0]) then
      var rest := DropSpaces(s[1..]);
      var t := CollapseSpaces(rest);
      assert t != [] ==> t[0] == rest[0] && !IsSpace(t[0]);
      [' '] + t
    else [s[0]] + CollapseSpaces(s[1..])
  }

  /** What `clean_metadata` guarantees of its result: no separator glyph or space at either
      end, no whitespace other than the plain space, and no two spaces in a row. */
  predicate Cleaned(s: string) {
    && (s != [] ==> s[0] !in StripChars && s[|s| - 1] !in StripChars)
    && (forall i :: 0 <= i < |s| && IsSpace(s[i]) ==> s[i] == ' ')
    && (forall i :: 0 <= i < |s| - 1 ==> !(s[i] == ' ' && s[i + 1] == ' '))
  }

  /** `clean_metadata(text)` with the deny-list `patterns`: empty for `None` or "", otherwise
      the deny-list, then whitespace collapsing, then trimming of ` -–—|` at both ends. */
  function CleanWith(text: Option<string>, patterns: seq<string>, junk: Matcher): (r: string)
    ensures !Truthy(text) ==> r == ""
    ensures text.Some? ==> |r| <= |text.value|
    ensures Cleaned(r)
  {
    if !Truthy(text) then ""
    else
      var c := CollapseSpaces(RemoveJunk(text.value, patterns, junk));
      StripCleans(c);
      Strip(c, StripChars)
  }

  /** `clean_metadata(text)`, with the program's deny-list. */
  function CleanMetadata(text: Option<string>, junk: Matcher): string {
    CleanWith(text, Config.JunkKeywords, junk)
  }

  /** Trimming the ends keeps the inner properties that whitespace collapsing established. */
  lemma StripCleans(c: string)
    requires forall i :: 0 <= i < |c| && IsSpace(c[i]) ==> c[i] == ' '
    requires forall i :: 0 <= i < |c| - 1 ==> !(c[i] == ' ' && c[i + 1] == ' ')
    ensures Cleaned(Strip(c, StripChars))
  {
    var r := Strip(c, StripChars);
    var a := LeadCount(c, StripChars);
    forall i | 0 <= i < |r|
      ensures r[i] == c[a + i]
    {
    }
  }

  lemma {:induction false} RemoveNoJunk(text: string, patterns: seq<string>)
    ensures RemoveJunk(text, patterns, NoJunk) == text
  {
    if patterns != [] {
      assert Strike(text, NoJunk(patterns[0], text)) == text;
      RemoveNoJunk(text, patterns[1..]);
    }
  }

  lemma {:induction false} CollapseKeeps(s: string)
    requires forall i :: 0 <= i < |s| && IsSpace(s[i]) ==> s[i] == ' '
    requires forall i :: 0 <= i < |s| - 1 ==> !(s[i] == ' ' && s[i + 1] == ' ')
    ensures CollapseSpaces(s) == s
  {
    if s != [] {
      if IsSpace(s[0]) {
        assert DropSpaces(s[1..]) == s[1..] by {
          assert s[1..] != [] ==> s[1] != ' ' && !IsSpace(s[1]);
        }
      }
      CollapseKeeps(s[1..]);
    }
  }

  lemma CleanWithKeepsCleaned(s: string, patterns: seq<string>)
    requires Cleaned(s) && s != []
    ensures CleanWith(Some(s), patterns, NoJunk) == s
  {
    RemoveNoJunk(s, patterns);
    CollapseKeeps(s);
    StripKeeps(s, StripChars);
  }

  /** Without deny-list hits, cleaning leaves exactly the already-clean strings unchanged:
      `Cleaned` describes the fixed points of `clean_metadata`. */
  lemma CleanFixedPoints(s: string)
    ensures CleanMetadata(Some(s), NoJunk) == s <==> Cleaned(s)
  {
    if Cleaned(s) && s != [] {
      CleanWithKeepsCleaned(s, Config.JunkKeywords);
    }
  }

  // ---------------------------------------------------------------- separator splits

  /** The three characters at `i` are a space, a glyph of `seps` and a space. */
  predicate SepAt(s: string, i: int, seps: set<char>) {
    0 <= i && i + 3 <= |s| && s[i] == ' ' && s[i + 1] in seps && s[i + 2] == ' '
  }

  /** `i` is the leftmost separator of `s`. */
  predicate FirstSepAt(s: string, i: int, seps: set<char>) {
    SepAt(s, i, seps) && forall j :: 0 <= j < i ==> !SepAt(s, j, seps)
  }

  /** The first separator at or after `k`. */
  function FindSep(s: string, seps: set<char>, k: nat): (r: Option<nat>)
    ensures r.Some? ==> k <= r.value && SepAt(s, r.value, seps)
    ensures r.Some? ==> forall j :: k <= j < r.value ==> !SepAt(s, j, seps)
    ensures r.None? ==> forall j :: k <= j ==> !SepAt(s, j, seps)
    decreases |s| - k
  {
    if k + 3 > |s| then None
    else if SepAt(s, k, seps) then Some(k)
    else FindSep(s, seps, k + 1)
  }

  /** `re.split(' [seps] ', s, maxsplit=1)` when the result has two parts. */
  function SplitAtFirstSep(s: string, seps: set<char>): (r: Option<Pair>)
    ensures r.None? <==> forall j :: !SepAt(s, j, seps)
    ensures forall i :: FirstSepAt(s, i, seps) ==> r == Some(Pair(s[..i], s[i + 3..]))
  {
    match FindSep(s, seps, 0)
    case None => None
    case Some(i) =>
      assert FirstSepAt(s, i, seps);
      Some(Pair(s[..i], s[i + 3..]))
  }

  /** `re.split(' [seps] ', s)` on `s[start..]`, scanning from `k`: the pieces between
      non-overlapping separators, leftmost first. */
  function SplitAllSeps(s: string, seps: set<char>, start: nat, k: nat): seq<string>
    requires start <= k <= |s|
    decreases |s| - k
  {
    match FindSep(s, seps, k)
    case None => [s[start..]]
    case Some(i) => [s[start..i]] + SplitAllSeps(s, seps, i + 3, i + 3)
  }

  /** A " - " somewhere in `s` is a separator of the display-title split. */
  lemma DashIsSep(s: string)
    requires Contains(s, " - ")
    ensures exists j :: SepAt(s, j, TitleSeps)
  {
    var i := IndexOf(s, " - ").value;
    assert s[i..i + 3] == " - ";
    assert s[i] == ' ' && s[i + 1] == '-' && s[i + 2] == ' ' by {
      assert s[i..i + 3][0] == s[i] && s[i..i + 3][1] == s[i + 1] && s[i..i + 3][2] == s[i + 2];
    }
    assert SepAt(s, i, TitleSeps);
  }

  // ---------------------------------------------------------------- extract_professional_metadata

  /** An (artist, title) pair before cleaning; the artist may be a stored null. */
  datatype Candidate = Candidate(artist: Option<string>, title: string)

  /** `info.get('track') or info.get('alt_title')`. */
  function TagTitle(info: Info): Option<string> {
    Or(Get(info, "track"), Get(info, "alt_title"))
  }

  /** Both structured tags are usable: a non-empty artist and a non-empty track title. */
  predicate HasTags(info: Info) {
    Truthy(Get(info, "artist")) && Truthy(TagTitle(info))
  }

  /** Steps 1 and 2: the tags, else the display title split at its first separator, else the
      uploader (or "Unknown") with the whole title. None when the split would be applied to a
      null title, where Python raises. */
  function ChooseSource(info: Info): Option<Candidate> {
    if HasTags(info) then Some(Candidate(Get(info, "artist"), TagTitle(info).value))
    else
      match GetOr(info, "title", "")
      case None => None
      case Some(shown) =>
        match SplitAtFirstSep(shown, TitleSeps)
        case Some(p) => Some(Candidate(Some(p.artist), p.title))
        case None => Some(Candidate(GetOr(info, "uploader", "Unknown"), shown))
  }

  /** Step 3: a title holding " - " and the artist (ignoring case) is split again at its first
      separator. None when the artist is null at that point, where Python raises. */
  function Sanitize(c: Candidate): Option<Candidate> {
    if !Contains(c.title, " - ") then Some(c)
    else
      match c.artist
      case None => None
      case Some(a) =>
        if !Contains(Lower(c.title), Lower(a)) then Some(c)
        else
          match SplitAtFirstSep(c.title, TitleSeps)
          case Some(p) => Some(Candidate(Some(p.artist), p.title))
          case None => Some(c)
  }

  /** `extract_professional_metadata(info)`; None where the source raises. */
  function ExtractProfessionalMetadata(info: Info, junk: Matcher): (r: Option<Pair>)
    ensures r.Some? ==> Cleaned(r.value.artist) && Cleaned(r.value.title)
    ensures r.None? <==> !HasTags(info) && "title" in info && info["title"].None?
  {
    match ChooseSource(info)
    case None => None
    case Some(c) =>
      SanitizeTotal(info);
      match Sanitize(c)
      case None => None
      case Some(d) => Some(Pair(CleanMetadata(d.artist, junk), CleanMetadata(Some(d.title), junk)))
  }

  /** The null-artist case of step 3 cannot arise: a fallback title has no " - ". */
  lemma SanitizeTotal(info: Info)
    requires ChooseSource(info).Some?
    ensures Sanitize(ChooseSource(info).value).Some?
  {
    var c := ChooseSource(info).value;
    if c.artist.None? && Contains(c.title, " - ") {
      DashIsSep(c.title);
    }
  }

  /** With both tags present the display title and the uploader play no part. */
  lemma TagsWin(info: Info, junk: Matcher, shown: Option<string>, uploader: Option<string>)
    requires HasTags(info)
    ensures ExtractProfessionalMetadata(info, junk)
         == ExtractProfessionalMetadata(info["title" := shown]["uploader" := uploader], junk)
  {
    var info' := info["title" := shown]["uploader" := uploader];
    assert Get(info', "artist") == Get(info, "artist");
    assert TagTitle(info') == TagTitle(info);
  }

  /** Without tags the display title is split at its first spaced separator. */
  lemma SplitsDisplayTitle(info: Info, shown: string, i: nat)
    requires !HasTags(info) && GetOr(info, "title", "") == Some(shown)
    requires FirstSepAt(shown, i, TitleSeps)
    ensures ChooseSource(info) == Some(Candidate(Some(shown[..i]), shown[i + 3..]))
  {
  }

  /** Without tags and without a separator: the uploader (or "Unknown") and the whole title. */
  lemma FallsBackToUploader(info: Info, shown: string)
    requires !HasTags(info) && GetOr(info, "title", "") == Some(shown)
    requires forall j :: !SepAt(shown, j, TitleSeps)
    ensures ChooseSource(info) == Some(Candidate(GetOr(info, "uploader", "Unknown"), shown))
  {
  }

  /** Step 3 always re-splits at the first separator when its condition holds. */
  lemma ResplitsTitle(artist: string, title: string, i: nat)
    requires Contains(title, " - ") && Contains(Lower(title), Lower(artist))
    requires FirstSepAt(title, i, TitleSeps)
    ensures Sanitize(Candidate(Some(artist), title))
         == Some(Candidate(Some(title[..i]), title[i + 3..]))
  {
  }

  // ---------------------------------------------------------------- parse_filename_robustly

  /** `parse_filename_robustly(filename)`. */
  function ParseFilenameRobustly(filename: string): Pair {
    var name := OsPath.SplitExt(filename).0;
    var parts := SplitAllSeps(name, FileSeps, 0, 0);
    if |parts| >= 2 then Pair(StripSpace(parts[0]), StripSpace(Join(parts[1..], " ")))
    else if '-' in name then
      var pieces := SplitOn(name, '-');
      if |pieces| == 2 then Pair(StripSpace(pieces[0]), StripSpace(pieces[1]))
      else Pair("Unknown", name)
    else Pair("Unknown", name)
  }

  /** Rule 1: with a spaced separator, the artist is the trimmed text before the first one and
      the title the remaining pieces joined by single spaces, trimmed. */
  lemma FilenameSpacedRule(filename: string, i: nat)
    requires FirstSepAt(OsPath.SplitExt(filename).0, i, FileSeps)
    ensures var name := OsPath.SplitExt(filename).0;
      ParseFilenameRobustly(filename)
      == Pair(StripSpace(name[..i]), StripSpace(Join(SplitAllSeps(name, FileSeps, i + 3, i + 3), " ")))
  {
    var name := OsPath.SplitExt(filename).0;
    assert FindSep(name, FileSeps, 0) == Some(i);
  }

  /** `s.split(c)` of a string with exactly one `c` is the text before and after it. */
  lemma {:induction false} SplitOnSingle(s: string, c: char, d: nat)
    requires d < |s| && s[d] == c && Count(s, c) == 1
    ensures SplitOn(s, c) == [s[..d], s[d + 1..]]
  {
    if d == 0 {
      CountZero(s[1..], c);
      NoSplit(s[1..], c);
    } else {
      assert s[0] != c by {
        if s[0] == c { CountAt(s[1..], c, d - 1); }
      }
      SplitOnSingle(s[1..], c, d - 1);
      assert s[1..][..d - 1] == s[1..d];
      assert [s[0]] + s[1..d] == s[..d];
    }
  }

  lemma {:induction false} CountAt(s: string, c: char, d: nat)
    requires d < |s| && s[d] == c
    ensures Count(s, c) >= 1
  {
    if d > 0 { CountAt(s[1..], c, d - 1); }
  }

  lemma {:induction false} CountZero(s: string, c: char)
    requires Count(s, c) == 0
    ensures c !in s
  {
    if s != [] { CountZero(s[1..], c); }
  }

  lemma {:induction false} NoSplit(s: string, c: char)
    requires c !in s
    ensures SplitOn(s, c) == [s]
  {
    if s != [] {
      NoSplit(s[1..], c);
      assert [s[0]] + s[1..] == s;
    }
  }

  /** Rule 2: no spaced separator and exactly one bare dash: split at the dash. */
  lemma FilenameDashRule(filename: string, d: nat)
    requires var name := OsPath.SplitExt(filename).0;
      (forall j :: !SepAt(name, j, FileSeps)) && d < |name| && name[d] == '-' && Count(name, '-') == 1
    ensures var name := OsPath.SplitExt(filename).0;
      ParseFilenameRobustly(filename) == Pair(StripSpace(name[..d]), StripSpace(name[d + 1..]))
  {
    var name := OsPath.SplitExt(filename).0;
    assert FindSep(name, FileSeps, 0).None?;
    SplitOnSingle(name, '-', d);
  }

  /** Rule 3: neither a spaced separator nor exactly one dash gives ("Unknown", name). */
  lemma FilenameUnknownRule(filename: string)
    requires var name := OsPath.SplitExt(filename).0;
      (forall j :: !SepAt(name, j, FileSeps)) && Count(name, '-') != 1
    ensures ParseFilenameRobustly(filename) == Pair("Unknown", OsPath.SplitExt(filename).0)
  {
    var name := OsPath.SplitExt(filename).0;
    assert FindSep(name, FileSeps, 0).None?;
  }
}
