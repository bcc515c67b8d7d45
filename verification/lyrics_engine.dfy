/** The lyrics resolver (lyrics_engine.py): query clean-up, then six providers tried in turn. */
module LyricsEngine {
  import opened Wrappers
  import opened Text

  // ---------------------------------------------------------------- query clean-up

  /** The glyphs `strip(' -–—|')` trims after de-duplication. */
  const DedupStrip: set<char> := {' ', '-', '–', '—', '|'}

  /** `pattern` occurs at `j` in `s`, ignoring letter case. */
  predicate MatchesAt(s: string, pattern: string, j: int) {
    0 <= j && j + |pattern| <= |s| && Lower(s[j..j + |pattern|]) == Lower(pattern)
  }

  /** `re.sub(re.escape(pattern), '', s[i..], flags=re.IGNORECASE)` for a non-empty pattern:
      scanning left to right, each case-insensitive occurrence is cut out and the scan goes on
      after it. */
  function RemoveFrom(s: string, pattern: string, i: nat): (r: string)
    requires pattern != [] && i <= |s|
    ensures |r| <= |s| - i
    decreases |s| - i
  {
    if i == |s| then []
    else if MatchesAt(s, pattern, i) then RemoveFrom(s, pattern, i + |pattern|)
    else [s[i]] + RemoveFrom(s, pattern, i + 1)
  }

  /** The whole substitution; an empty pattern matches only the empty string, so it removes
      nothing. */
  function RemoveAll(s: string, pattern: string): (r: string)
    ensures |r| <= |s|
  {
    if pattern == [] then s else RemoveFrom(s, pattern, 0)
  }

  /** Without any occurrence, nothing is removed. */
  lemma {:induction false} RemoveAbsent(s: string, pattern: string, i: nat)
    requires pattern != [] && i <= |s|
    requires forall j :: i <= j ==> !MatchesAt(s, pattern, j)
    ensures RemoveFrom(s, pattern, i) == s[i..]
    decreases |s| - i
  {
    if i < |s| {
      RemoveAbsent(s, pattern, i + 1);
      assert s[i..] == [s[i]] + s[i + 1..];
    }
  }

  /** A position where no occurrence starts is kept, and the scan moves on by one. */
  lemma RemoveKeeps(s: string, pattern: string, i: nat, j: nat, tail: string)
    requires pattern != [] && i < j <= |s| && !MatchesAt(s, pattern, i)
    requires RemoveFrom(s, pattern, i + 1) == s[i + 1..j] + tail
    ensures RemoveFrom(s, pattern, i) == s[i..j] + tail
  {
    assert RemoveFrom(s, pattern, i) == [s[i]] + RemoveFrom(s, pattern, i + 1);
    assert s[i..j] == [s[i]] + s[i + 1..j];
  }

  /** An occurrence where the scan stands is dropped whole. */
  lemma RemoveDrops(s: string, pattern: string, j: nat)
    requires pattern != [] && MatchesAt(s, pattern, j)
    ensures RemoveFrom(s, pattern, j) == s[j..j] + RemoveFrom(s, pattern, j + |pattern|)
  {
    assert RemoveFrom(s, pattern, j) == RemoveFrom(s, pattern, j + |pattern|);
    assert s[j..j] == [];
  }

  /** The leftmost occurrence at or after the scan position is cut out: the text before it is
      kept as is, and the scan goes on right after the occurrence. With `RemoveAbsent` this pins
      down the substitution's leftmost, non-overlapping cuts. */
  lemma {:induction false} RemoveCutsFirst(s: string, pattern: string, i: nat, j: nat)
    requires pattern != [] && i <= j && MatchesAt(s, pattern, j)
    requires forall k :: i <= k < j ==> !MatchesAt(s, pattern, k)
    ensures RemoveFrom(s, pattern, i) == s[i..j] + RemoveFrom(s, pattern, j + |pattern|)
    decreases j - i
  {
    if i < j {
      RemoveCutsFirst(s, pattern, i + 1, j);
      RemoveKeeps(s, pattern, i, j, RemoveFrom(s, pattern, j + |pattern|));
    } else {
      RemoveDrops(s, pattern, j);
    }
  }

  /** An occurrence at or after the scan position is always cut out: the scan either jumps over
      it inside an earlier cut or reaches it. */
  lemma {:induction false} RemoveShrinks(s: string, pattern: string, i: nat, j: nat)
    requires pattern != [] && i <= j && MatchesAt(s, pattern, j)
    ensures |RemoveFrom(s, pattern, i)| <= |s| - i - |pattern|
    decreases j - i
  {
    if !MatchesAt(s, pattern, i) {
      RemoveShrinks(s, pattern, i + 1, j);
    }
  }

  /** `lower(needle)` in `lower(s)` exactly when `needle` occurs in `s` ignoring case. */
  lemma LowerContains(s: string, needle: string)
    requires Contains(Lower(s), Lower(needle))
    ensures exists j :: MatchesAt(s, needle, j)
  {
    var j := IndexOf(Lower(s), Lower(needle)).value;
    assert Lower(s)[j..j + |needle|] == Lower(s[j..j + |needle|]);
    assert MatchesAt(s, needle, j);
  }

  /** Step 1: when the artist appears in the title ignoring case, every occurrence of it is
      removed from the title and the separator glyphs are trimmed. */
  function Dedup(artist: string, title: string): (r: string)
    ensures !Contains(Lower(title), Lower(artist)) ==> r == title
    ensures Contains(Lower(title), Lower(artist)) && r != [] ==> r[0] !in DedupStrip && r[|r| - 1] !in DedupStrip
  {
    if Contains(Lower(title), Lower(artist)) then
      Strip(RemoveAll(title, artist), DedupStrip)
    else title
  }

  /** De-duplication removes at least one whole occurrence of a non-empty artist. */
  lemma DedupShrinks(artist: string, title: string)
    requires artist != [] && Contains(Lower(title), Lower(artist))
    ensures |Dedup(artist, title)| <= |title| - |artist|
  {
    LowerContains(title, artist);
    var j :| MatchesAt(title, artist, j);
    RemoveShrinks(title, artist, 0, j);
  }

  /** De-duplication keeps the title up to the artist's first occurrence (ignoring case), drops
      that occurrence, goes on cutting every later one, and trims the separator glyphs. */
  lemma DedupCutsFirst(artist: string, title: string, j: nat)
    requires artist != [] && MatchesAt(title, artist, j)
    requires forall k :: 0 <= k < j ==> !MatchesAt(title, artist, k)
    ensures Dedup(artist, title) == Strip(title[..j] + RemoveFrom(title, artist, j + |artist|), DedupStrip)
  {
    var low := title[j..j + |artist|];
    assert Lower(title)[j..j + |artist|] == Lower(low);
    assert OccursAt(Lower(title), Lower(artist), j);
    ContainsAt(Lower(title), Lower(artist), j);
    RemoveCutsFirst(title, artist, 0, j);
  }

  /** The (artist, title) pair the providers are asked for: de-duplicated, then an "unknown"
      artist is taken from the title's first `" - "`. */
  function Normalize(artist: string, title: string): (r: (string, string))
    ensures var t := Dedup(artist, title);
      if Lower(artist) == "unknown" && Contains(t, " - ") then r.0 + " - " + r.1 == t && !Contains(r.0, " - ")
      else r == (artist, t)
  {
    var t := Dedup(artist, title);
    if Lower(artist) == "unknown" && Contains(t, " - ") then SplitOnce(t, " - ").value else (artist, t)
  }

  /** The repeated artist is removed from the title: "Artist - Artist - Song" becomes "Song". */
  lemma DedupExample()
    ensures Dedup("Artist", "Artist - Artist - Song") == "Song"
  {
    var s, p := "Artist - Artist - Song", "Artist";
    assert Lower(s)[..6] == Lower(p);
    assert OccursAt(Lower(s), Lower(p), 0);
    ContainsAt(Lower(s), Lower(p), 0);
    RemoveExample(s, p);
    StripExample(" -  - Song");
  }

  lemma RemoveExample(s: string, p: string)
    requires s == "Artist - Artist - Song" && p == "Artist"
    ensures RemoveAll(s, p) == " -  - Song"
  {
    HeadExample(s, p);
    MiddleExample(s, p);
    TailExample(s, p);
  }

  lemma HeadExample(s: string, p: string)
    requires s == "Artist - Artist - Song" && p == "Artist"
    ensures RemoveFrom(s, p, 0) == " -" + RemoveFrom(s, p, 8)
  {
    assert s[0..6] == p;
    CutAt(s, p, 0);
    KeepExample(s, p);
  }

  lemma KeepExample(s: string, p: string)
    requires s == "Artist - Artist - Song" && p == "Artist"
    ensures RemoveFrom(s, p, 6) == " -" + RemoveFrom(s, p, 8)
  {
    var r8 := RemoveFrom(s, p, 8);
    NoMatchAt(s, p, 7);
    NoMatchAt(s, p, 6);
    assert s[6] == ' ' && s[7] == '-';
    assert RemoveFrom(s, p, 6) == [' '] + (['-'] + r8);
  }

  lemma MiddleExample(s: string, p: string)
    requires s == "Artist - Artist - Song" && p == "Artist"
    ensures RemoveFrom(s, p, 8) == " " + RemoveFrom(s, p, 15)
  {
    assert s[9..15] == p;
    NoMatchAt(s, p, 8);
    CutAt(s, p, 9);
  }

  lemma TailExample(s: string, p: string)
    requires s == "Artist - Artist - Song" && p == "Artist"
    ensures RemoveFrom(s, p, 15) == " - Song"
  {
    forall j | 15 <= j
      ensures !MatchesAt(s, p, j)
    {
      if j <= 16 { NoMatchAt(s, p, j); }
    }
    RemoveAbsent(s, p, 15);
    assert s[15..] == " - Song";
  }

  /** An exact occurrence at `j` is a match there. */
  lemma CutAt(s: string, pattern: string, j: nat)
    requires pattern != [] && j + |pattern| <= |s| && s[j..j + |pattern|] == pattern
    ensures MatchesAt(s, pattern, j)
    ensures RemoveFrom(s, pattern, j) == RemoveFrom(s, pattern, j + |pattern|)
  {
  }

  lemma StripExample(cut: string)
    requires cut == " -  - Song"
    ensures Strip(cut, DedupStrip) == "Song"
  {
    assert LeadCount(cut, DedupStrip) == 6 by {
      assert cut[6] !in DedupStrip;
      assert LeadCount(cut[6..], DedupStrip) == 0;
    }
    assert cut[6..] == "Song";
    assert TrailCount("Song", DedupStrip) == 0;
  }

  /** No occurrence of `pattern` starts at `j` when `s[j]` is not its first letter. */
  lemma NoMatchAt(s: string, pattern: string, j: nat)
    requires pattern != [] && j < |s| && LowerChar(s[j]) != LowerChar(pattern[0])
    ensures !MatchesAt(s, pattern, j)
    ensures RemoveFrom(s, pattern, j) == [s[j]] + RemoveFrom(s, pattern, j + 1)
  {
    if j + |pattern| <= |s| {
      assert Lower(s[j..j + |pattern|])[0] == LowerChar(s[j]);
    }
  }

  // ---------------------------------------------------------------- the provider chain

  datatype Provider = Lrclib | NetEase | QQMusic | Megalyrics | Gecimi | LyricsOvh

  /** The strategy order of `search`. */
  const Strategies: seq<Provider> := [Lrclib, NetEase, QQMusic, Megalyrics, Gecimi, LyricsOvh]

  /** The arguments one provider is called with: only LRCLIB is given the duration. */
  datatype Args = WithDuration(artist: string, title: string, duration: Option<int>) | Plain(artist: string, title: string)

  /** What a provider call does: it returns a value (a lyrics text, an empty text or `None`) or
      raises. */
  datatype Outcome = Returned(value: Option<string>) | Raised

  /** The providers' answers, standing in for the network. */
  type Providers = (Provider, Args) -> Outcome

  function ArgsFor(p: Provider, artist: string, title: string, duration: Option<int>): (a: Args)
    ensures a.artist == artist && a.title == title
    ensures a.WithDuration? <==> p == Lrclib
    ensures a.WithDuration? ==> a.duration == duration
  {
    if p == Lrclib then WithDuration(artist, title, duration) else Plain(artist, title)
  }

  /** A call that does not end the search: it raised, or returned nothing truthy. */
  predicate Miss(o: Outcome) {
    o.Raised? || !Truthy(o.value)
  }

  /** The result of trying `ps` in order, and how many were called. */
  function FirstHit(ps: seq<Provider>, artist: string, title: string, duration: Option<int>, call: Providers): (r: (Option<string>, nat))
    ensures r.1 <= |ps|
  {
    if ps == [] then (None, 0)
    else
      var o := call(ps[0], ArgsFor(ps[0], artist, title, duration));
      if !Miss(o) then (o.value, 1)
      else
        var rest := FirstHit(ps[1..], artist, title, duration, call);
        (rest.0, rest.1 + 1)
  }

  /** The chain's contract: the first truthy result wins and no later provider is called; when
      every provider misses, all are called and the result is `None`. */
  lemma {:induction false} FirstHitMeaning(ps: seq<Provider>, artist: string, title: string, duration: Option<int>, call: Providers)
    ensures var r := FirstHit(ps, artist, title, duration, call);
      && (r.0.None? <==> r.1 == |ps| && forall i :: 0 <= i < |ps| ==> Miss(call(ps[i], ArgsFor(ps[i], artist, title, duration))))
      && (r.0.Some? ==> r.1 >= 1 && Truthy(r.0) && call(ps[r.1 - 1], ArgsFor(ps[r.1 - 1], artist, title, duration)) == Returned(r.0))
      && (r.0.Some? ==> forall i :: 0 <= i < r.1 - 1 ==> Miss(call(ps[i], ArgsFor(ps[i], artist, title, duration))))
    decreases |ps|
  {
    if ps != [] {
      FirstHitMeaning(ps[1..], artist, title, duration, call);
      var o := call(ps[0], ArgsFor(ps[0], artist, title, duration));
      if Miss(o) {
        forall i | 1 <= i < |ps|
          ensures ps[i] == ps[1..][i - 1]
        {
        }
      }
    }
  }

  /** The value `search(artist, title, duration)` returns. */
  function SearchResult(artist: string, title: string, duration: Option<int>, call: Providers): Option<string> {
    var q := Normalize(artist, title);
    FirstHit(Strategies, q.0, q.1, duration, call).0
  }

  /** `search(artist, title, duration)`: `lyrics` is the result and `checked` the providers
      called, in order. */
  method Search(artist: string, title: string, duration: Option<int>, call: Providers)
    returns (lyrics: Option<string>, checked: seq<Provider>)
    ensures var q := Normalize(artist, title);
      var r := FirstHit(Strategies, q.0, q.1, duration, call);
      lyrics == r.0 && checked == Strategies[..r.1]
    ensures lyrics == SearchResult(artist, title, duration, call)
  {
    var a, t := artist, title;
    if Contains(Lower(t), Lower(a)) {
      t := Strip(RemoveAll(t, a), DedupStrip);
    }
    if Lower(a) == "unknown" && Contains(t, " - ") {
      var parts := SplitOnce(t, " - ").value;
      a, t := parts.0, parts.1;
    }
    assert (a, t) == Normalize(artist, title);
    lyrics, checked := TryInOrder(Strategies, a, t, duration, call);
  }

  /** The strategy loop of `search`: each provider in turn, stopping at the first hit. */
  method TryInOrder(ps: seq<Provider>, artist: string, title: string, duration: Option<int>, call: Providers)
    returns (lyrics: Option<string>, checked: seq<Provider>)
    ensures var r := FirstHit(ps, artist, title, duration, call);
      lyrics == r.0 && checked == ps[..r.1]
  {
    ghost var total := FirstHit(ps, artist, title, duration, call);
    checked := [];
    for k := 0 to |ps|
      invariant checked == ps[..k]
      invariant FirstHit(ps[k..], artist, title, duration, call).0 == total.0
      invariant FirstHit(ps[k..], artist, title, duration, call).1 + k == total.1
    {
      var p := ps[k];
      checked := checked + [p];
      var result := call(p, ArgsFor(p, artist, title, duration));
      FirstHitStep(ps[k..], artist, title, duration, call);
      assert ps[k..][1..] == ps[k + 1..];
      if !Miss(result) {
        return result.value, checked;
      }
    }
    return None, checked;
  }

  /** One step of the chain: the head provider's hit ends it, its miss defers to the rest. */
  lemma FirstHitStep(ps: seq<Provider>, artist: string, title: string, duration: Option<int>, call: Providers)
    requires ps != []
    ensures var o := call(ps[0], ArgsFor(ps[0], artist, title, duration));
      var r := FirstHit(ps, artist, title, duration, call);
      var rest := FirstHit(ps[1..], artist, title, duration, call);
      (!Miss(o) ==> r == (o.value, 1)) && (Miss(o) ==> r == (rest.0, rest.1 + 1))
  {
  }

  /** Every provider missing or raising gives `None` after all six were called. */
  lemma AllMiss(artist: string, title: string, duration: Option<int>, call: Providers)
    requires forall p :: Miss(call(p, ArgsFor(p, artist, title, duration)))
    ensures FirstHit(Strategies, artist, title, duration, call) == (None, 6)
  {
    forall i | 0 <= i < |Strategies|
      ensures Miss(call(Strategies[i], ArgsFor(Strategies[i], artist, title, duration)))
    {
    }
    FirstHitMeaning(Strategies, artist, title, duration, call);
  }

  /** A provider that raises is treated like one that misses. */
  lemma RaisedIsMiss(ps: seq<Provider>, artist: string, title: string, duration: Option<int>, call: Providers, other: Providers)
    requires forall p, a :: other(p, a) == (if call(p, a) == Raised then Returned(None) else call(p, a))
    ensures FirstHit(ps, artist, title, duration, other) == FirstHit(ps, artist, title, duration, call)
    decreases |ps|
  {
    if ps != [] {
      RaisedIsMiss(ps[1..], artist, title, duration, call, other);
    }
  }

  // ---------------------------------------------------------------- response selection

  /** An LRCLIB answer: its status code and, when the body is JSON, its two lyrics fields. */
  datatype LrclibBody = LrclibBody(syncedLyrics: Option<string>, plainLyrics: Option<string>)
  datatype LrclibResponse = LrclibResponse(status: int, body: Option<LrclibBody>)

  /** `_get_lrclib` after the request: a non-200 status gives `None`; otherwise the synced
      lyrics when truthy, else the plain lyrics. A body that is not JSON raises. */
  function GetLrclib(r: LrclibResponse): (o: Outcome)
    ensures r.status != 200 ==> o == Returned(None)
    ensures r.status == 200 && r.body.None? ==> o == Raised
    ensures r.status == 200 && r.body.Some? ==> o.Returned?
    ensures r.status == 200 && r.body.Some? && Truthy(r.body.value.syncedLyrics) ==> o == Returned(r.body.value.syncedLyrics)
    ensures r.status == 200 && r.body.Some? && !Truthy(r.body.value.syncedLyrics) ==> o == Returned(r.body.value.plainLyrics)
  {
    if r.status == 200 then
      match r.body
      case None => Raised
      case Some(b) => Returned(Or(b.syncedLyrics, b.plainLyrics))
    else Returned(None)
  }

  /** A `<lyric>` child of the Megalyrics document: its `type` attribute and its text. */
  datatype LyricNode = LyricNode(kind: Option<string>, text: Option<string>)

  /** The test of `_get_megalyrics`' loop: typed `lrc`, or with truthy text. */
  predicate Selected(n: LyricNode) {
    n.kind == Some("lrc") || Truthy(n.text)
  }

  /** No node before `i` is selected. */
  predicate FirstSelected(nodes: seq<LyricNode>, i: int) {
    forall j :: 0 <= j < i && j < |nodes| ==> !Selected(nodes[j])
  }

  /** `_get_megalyrics` after the request: `doc` is the document's `<lyric>` children, or `None`
      when the body is not XML (which raises). The first selected node's text is returned even
      when it is empty; later nodes are not looked at. */
  method GetMegalyrics(doc: Option<seq<LyricNode>>) returns (o: Outcome)
    ensures doc.None? ==> o == Raised
    ensures doc.Some? ==> o.Returned?
    ensures doc.Some? && (forall i :: 0 <= i < |doc.value| ==> !Selected(doc.value[i])) ==> o == Returned(None)
    ensures doc.Some? ==> forall i :: 0 <= i < |doc.value| && Selected(doc.value[i]) && FirstSelected(doc.value, i) ==>
      o == Returned(doc.value[i].text)
  {
    if doc.None? {
      return Raised;
    }
    var nodes := doc.value;
    for i := 0 to |nodes|
      invariant forall j :: 0 <= j < i ==> !Selected(nodes[j])
    {
      if nodes[i].kind == Some("lrc") || (nodes[i].text.Some? && nodes[i].text.value != []) {
        return Returned(nodes[i].text);
      }
    }
    return Returned(None);
  }
}
