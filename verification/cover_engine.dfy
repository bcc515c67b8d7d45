/** The cover resolver (cover_engine.py): an album cache, an iTunes search in two strengths, a
    thumbnail fallback, and write-once persistence of the folder cover. */
module CoverEngine {
  import opened Wrappers
  import opened Text
  import OsPath
  import MetadataUtils

  newtype byte = x: int | 0 <= x < 256
  type Bytes = seq<byte>

  /** Python truthiness of optional image bytes: present and non-empty. */
  predicate HasImage(image: Option<Bytes>) {
    image.Some? && image.value != []
  }

  // ---------------------------------------------------------------- album names

  predicate AlbumChar(c: char) {
    IsAlnum(c) || c in {' ', '-', '_'}
  }

  /** The album name with every character other than letters, digits, space, `-` and `_`
      dropped, in order. */
  function AlbumFilter(s: string): (r: string)
    ensures |r| <= |s|
    ensures forall i :: 0 <= i < |r| ==> AlbumChar(r[i])
    ensures forall c :: c in r <==> c in s && AlbumChar(c)
  {
    if s == [] then []
    else (if AlbumChar(s[0]) then [s[0]] else []) + AlbumFilter(s[1..])
  }

  /** One character is kept exactly when it is allowed. */
  lemma AlbumFilterChar(c: char)
    ensures AlbumFilter([c]) == if AlbumChar(c) then [c] else []
  {
    assert [c][1..] == [];
  }

  /** Filtering works character by character: the filter of a concatenation is the concatenation
      of the filters, so the kept characters stay in order and each occurrence is kept. */
  lemma {:induction false} AlbumFilterAppend(a: string, b: string)
    ensures AlbumFilter(a + b) == AlbumFilter(a) + AlbumFilter(b)
    decreases |a|
  {
    if a != [] {
      assert (a + b)[0] == a[0] && (a + b)[1..] == a[1..] + b;
      AlbumFilterAppend(a[1..], b);
    } else {
      assert a + b == b;
    }
  }

  /** `clean_album`: the filtered name without surrounding whitespace. */
  function CleanAlbum(album: string): string {
    StripSpace(AlbumFilter(album))
  }

  const GenericNames: set<string> := {"unknown", "album", "video", ""}

  /** `is_generic`: a placeholder name or fewer than three characters once cleaned. */
  predicate IsGeneric(album: string) {
    var clean := CleanAlbum(album);
    Lower(clean) in GenericNames || |clean| < 3
  }

  /** A name made only of kept characters, with no surrounding blanks, is its own clean name. */
  lemma {:induction false} FilterKeeps(s: string)
    requires forall i :: 0 <= i < |s| ==> AlbumChar(s[i])
    ensures AlbumFilter(s) == s
  {
    if s != [] {
      FilterKeeps(s[1..]);
      assert [s[0]] + s[1..] == s;
    }
  }

  /** Placeholder names are generic whatever their case, and so is a name that is too short;
      a real album name is not. */
  lemma GenericExamples()
    ensures IsGeneric("Video") && IsGeneric("UNKNOWN") && IsGeneric("EP")
    ensures !IsGeneric("Abbey Road")
  {
    Generic1("Video");
    Generic2("UNKNOWN");
    Generic3("EP");
    NotGeneric("Abbey Road");
  }

  lemma Generic1(name: string)
    requires name == "Video"
    ensures IsGeneric(name)
  {
    PlainName(name, "video");
  }

  lemma Generic2(name: string)
    requires name == "UNKNOWN"
    ensures IsGeneric(name)
  {
    PlainName(name, "unknown");
  }

  lemma Generic3(name: string)
    requires name == "EP"
    ensures IsGeneric(name)
  {
    PlainName(name, "ep");
  }

  lemma NotGeneric(name: string)
    requires name == "Abbey Road"
    ensures !IsGeneric(name)
  {
    PlainName(name, "abbey road");
  }

  /** A name of kept characters without surrounding blanks cleans to itself. */
  lemma PlainName(name: string, lower: string)
    requires name != [] && !IsSpace(name[0]) && !IsSpace(name[|name| - 1])
    requires forall i :: 0 <= i < |name| ==> AlbumChar(name[i])
    requires Lower(name) == lower
    ensures CleanAlbum(name) == name
    ensures IsGeneric(name) <==> lower in GenericNames || |name| < 3
  {
    FilterKeeps(name);
    assert LeadCount(name, Whitespace) == 0;
    assert TrailCount(name, Whitespace) == 0;
    assert name[0..|name| - 0] == name;
  }

  /** `Album - <clean>.jpg` in the folder. */
  function CachePath(folder: string, clean: string): string {
    OsPath.Join(folder, "Album - " + clean + ".jpg")
  }

  function IconPath(folder: string): string {
    OsPath.Join(folder, "cover.jpg")
  }

  /** The album cache and the folder cover never share a path. */
  lemma CacheIsNotIcon(folder: string, clean: string)
    ensures CachePath(folder, clean) != IconPath(folder)
  {
    var b := "Album - " + clean + ".jpg";
    assert b[0] != '/';
    assert |OsPath.Join(folder, b)| > |OsPath.Join(folder, "cover.jpg")|;
  }

  // ---------------------------------------------------------------- the iTunes search

  /** A JSON field: missing, `null`, or a string. */
  datatype Field = Absent | Null | Str(value: string)

  /** The first entry of an iTunes reply: its artist and its 100px artwork URL. */
  datatype ItunesResult = ItunesResult(artistName: Field, artworkUrl100: Option<string>)

  /** What `_itunes_api_call` gives back: nothing usable (a failed call or an empty document),
      or the result count with the first result (`None` when the result list is empty). */
  datatype Reply = Falsy | Reply(resultCount: int, first: Option<ItunesResult>)

  /** An HTTP answer; `None` in its place stands for a request that raised. */
  datatype Http = Http(status: int, content: Bytes)

  /** The network and the image library: the search API, plain GET requests, and the
      crop-to-square JPEG re-encoding of data of at least 100 bytes. */
  datatype Net = Net(search: string -> Reply, get: string -> Option<Http>, encode: Bytes -> Option<Bytes>)

  /** `process_to_square_jpg`: data shorter than 100 bytes is refused. */
  function Square(net: Net, raw: Bytes): (r: Option<Bytes>)
    ensures |raw| < 100 ==> r == None
  {
    if |raw| < 100 then None else net.encode(raw)
  }

  /** `str.replace(target, replacement)`: every occurrence, left to right, without overlaps. */
  function ReplaceAll(s: string, target: string, replacement: string): (r: string)
    requires target != []
    ensures !Contains(s, target) ==> r == s
    decreases |s|
  {
    if |s| < |target| then s
    else if s[..|target|] == target then replacement + ReplaceAll(s[|target|..], target, replacement)
    else
      var rest := ReplaceAll(s[1..], target, replacement);
      assert !Contains(s, target) ==> !Contains(s[1..], target) by {
        if Contains(s[1..], target) {
          var j := IndexOf(s[1..], target).value;
          assert s[1..][j..j + |target|] == s[j + 1..j + 1 + |target|];
          ContainsAt(s, target, j + 1);
        }
      }
      [s[0]] + rest
  }

  /** The 1000px artwork URL of a result. */
  function LargeArtwork(url: string): string {
    ReplaceAll(url, "100x100bb", "1000x1000bb")
  }

  /** `_process_itunes_result`: download the large artwork and square it; a missing URL or a
      failed download gives `None`. */
  function ProcessResult(net: Net, result: ItunesResult): (r: Option<Bytes>)
    ensures result.artworkUrl100.None? ==> r == None
    ensures result.artworkUrl100.Some? && net.get(LargeArtwork(result.artworkUrl100.value)).None? ==> r == None
  {
    match result.artworkUrl100
    case None => None
    case Some(url) =>
      match net.get(LargeArtwork(url))
      case None => None
      case Some(answer) => Square(net, answer.content)
  }

  /** The relaxed search's check: the requested artist (lowercased) and the returned one
      (already lowercased) contain one another. */
  predicate ArtistAccepted(requested: string, found: string) {
    Contains(found, Lower(requested)) || Contains(Lower(requested), found)
  }

  /** A lookup that raises ends `get_cover` with an exception. */
  datatype CoverResult = Returned(image: Option<Bytes>) | Raised

  predicate HasResults(reply: Reply) {
    reply.Reply? && reply.resultCount > 0
  }

  /** The artist of a relaxed-search result, lowercased; a missing name reads as empty. */
  function FoundArtist(f: Field): string {
    if f.Str? then Lower(f.value) else ""
  }

  /** `_get_itunes_cover(artist, title)` with the search terms it sent: the strict result wins
      whenever the strict search reports results, even when it gives no image; otherwise the
      relaxed result is used only when its artist matches. */
  function ItunesCover(artist: string, title: string, net: Net): (r: (CoverResult, seq<string>))
    ensures var strict := net.search(artist + " " + title);
      HasResults(strict) ==>
        r.1 == [artist + " " + title]
        && r.0 == (if strict.first.None? then Raised else Returned(ProcessResult(net, strict.first.value)))
    ensures var strict, relaxed := net.search(artist + " " + title), net.search(title);
      !HasResults(strict) ==>
        r.1 == [artist + " " + title, title]
        && (!HasResults(relaxed) ==> r.0 == Returned(None))
        && (HasResults(relaxed) && relaxed.first.None? ==> r.0 == Raised)
    ensures var strict, relaxed := net.search(artist + " " + title), net.search(title);
      !HasResults(strict) && HasResults(relaxed) && relaxed.first.Some? ==>
        var res := relaxed.first.value;
        (res.artistName.Null? ==> r.0 == Raised)
        && (!res.artistName.Null? ==>
              r.0 == (if ArtistAccepted(artist, FoundArtist(res.artistName)) then Returned(ProcessResult(net, res)) else Returned(None)))
  {
    var strictTerm := artist + " " + title;
    var strict := net.search(strictTerm);
    if HasResults(strict) then
      (if strict.first.None? then Raised else Returned(ProcessResult(net, strict.first.value)), [strictTerm])
    else
      var relaxed := net.search(title);
      var outcome :=
        if !HasResults(relaxed) then Returned(None)
        else if relaxed.first.None? then Raised
        else
          var result := relaxed.first.value;
          match result.artistName
          case Null => Raised
          case Absent => if ArtistAccepted(artist, "") then Returned(ProcessResult(net, result)) else Returned(None)
          case Str(name) =>
            if ArtistAccepted(artist, Lower(name)) then Returned(ProcessResult(net, result)) else Returned(None);
      (outcome, [strictTerm, title])
  }

  /** The relaxed match: a band name with a suffix is accepted, another artist is not, and a
      missing artist name is always accepted. */
  lemma ArtistExamples()
    ensures ArtistAccepted("Queen", "queen (band)")
    ensures !ArtistAccepted("Adele", "sam smith")
  {
    Accepts("Queen", "queen (band)");
    Rejects("Adele", "sam smith");
  }

  lemma Accepts(requested: string, found: string)
    requires requested == "Queen" && found == "queen (band)"
    ensures ArtistAccepted(requested, found)
  {
    assert Lower(requested) == "queen";
    assert found[0..5] == "queen";
    assert OccursAt(found, Lower(requested), 0);
    ContainsAt(found, Lower(requested), 0);
  }

  lemma Rejects(requested: string, found: string)
    requires requested == "Adele" && found == "sam smith"
    ensures !ArtistAccepted(requested, found)
  {
    var low := Lower(requested);
    assert low == "adele";
    forall j | 0 <= j && j + 5 <= |found|
      ensures !OccursAt(found, low, j)
    {
      assert found[j..j + 5][1] == found[j + 1];
    }
    assert forall j :: !OccursAt(found, low, j);
    assert !Contains(low, found);
  }

  lemma EmptyArtistAccepted(requested: string)
    ensures ArtistAccepted(requested, "")
  {
    assert OccursAt(Lower(requested), "", 0);
    ContainsAt(Lower(requested), "", 0);
  }

  // ---------------------------------------------------------------- get_cover

  /** Steps 1 and 2: both names cleaned, then an "unknown" artist taken from the title. */
  function Query(artist: Option<string>, title: Option<string>, junk: MetadataUtils.Matcher): (r: (string, string))
    ensures var a, t := MetadataUtils.CleanMetadata(artist, junk), MetadataUtils.CleanMetadata(title, junk);
      if Lower(a) == "unknown" && Contains(t, " - ") then r.0 + " - " + r.1 == t && !Contains(r.0, " - ")
      else r == (a, t)
  {
    var a, t := MetadataUtils.CleanMetadata(artist, junk), MetadataUtils.CleanMetadata(title, junk);
    if Lower(a) == "unknown" && Contains(t, " - ") then SplitOnce(t, " - ").value else (a, t)
  }

  /** Step 6: the thumbnail is fetched only when there is no image yet and a URL, and it is
      used only on status 200. */
  function WithThumbnail(image: Option<Bytes>, thumbUrl: Option<string>, net: Net): (r: Option<Bytes>)
    ensures HasImage(image) || !Truthy(thumbUrl) ==> r == image
    ensures !HasImage(image) && Truthy(thumbUrl) ==>
      if net.get(thumbUrl.value).Some? && net.get(thumbUrl.value).value.status == 200
      then r == Square(net, net.get(thumbUrl.value).value.content)
      else r == image
  {
    if !HasImage(image) && Truthy(thumbUrl) then
      match net.get(thumbUrl.value)
      case Some(answer) => if answer.status == 200 then Square(net, answer.content) else image
      case None => image
    else image
  }

  /** Step 7: with an image and a real album, the cache file is (re)written and `cover.jpg`
      written when absent; nothing else changes. */
  function Persisted(disk: map<string, Bytes>, folder: string, album: string, image: Option<Bytes>): (r: map<string, Bytes>)
    ensures !HasImage(image) || IsGeneric(album) ==> r == disk
    ensures HasImage(image) && !IsGeneric(album) ==>
      var cache, icon := CachePath(folder, CleanAlbum(album)), IconPath(folder);
      && cache in r && r[cache] == image.value
      && icon in r && (icon in disk ==> r[icon] == disk[icon]) && (icon !in disk ==> r[icon] == image.value)
    ensures forall p :: p in disk && p != CachePath(folder, CleanAlbum(album)) ==> p in r && r[p] == disk[p]
    ensures forall p :: p in r ==> p in disk || p == CachePath(folder, CleanAlbum(album)) || p == IconPath(folder)
  {
    if HasImage(image) && !IsGeneric(album) then
      var cache, icon := CachePath(folder, CleanAlbum(album)), IconPath(folder);
      CacheIsNotIcon(folder, CleanAlbum(album));
      var written := disk[cache := image.value];
      if icon in written then written else written[icon := image.value]
    else disk
  }

  /** Steps 3 to 6 of `get_cover` for the cleaned query `q`, which do not look at the folder:
      the image found (or the exception raised) and the search terms sent. */
  function Lookup(q: (string, string), thumbUrl: Option<string>, net: Net): (r: (CoverResult, seq<string>))
    ensures var itunes := ItunesCover(q.0, q.1, net);
      r.1 == itunes.1
      && (itunes.0.Raised? ==> r.0 == Raised)
      && (itunes.0.Returned? ==> r.0 == Returned(WithThumbnail(itunes.0.image, thumbUrl, net)))
  {
    var itunes := ItunesCover(q.0, q.1, net);
    match itunes.0
    case Raised => (Raised, itunes.1)
    case Returned(found) => (Returned(WithThumbnail(found, thumbUrl, net)), itunes.1)
  }

  /** `get_cover(...)` from the folder state `disk`: the result, the new folder state and the
      search terms sent. */
  function Cover(disk: map<string, Bytes>, artist: Option<string>, title: Option<string>, album: string,
                 folder: string, thumbUrl: Option<string>, net: Net, junk: MetadataUtils.Matcher): (CoverResult, map<string, Bytes>, seq<string>)
  {
    var cache := CachePath(folder, CleanAlbum(album));
    if !IsGeneric(album) && cache in disk then (Returned(Some(disk[cache])), disk, [])
    else
      var found := Lookup(Query(artist, title, junk), thumbUrl, net);
      match found.0
      case Raised => (Raised, disk, found.1)
      case Returned(image) => (Returned(image), Persisted(disk, folder, album, image), found.1)
  }

  /** A cached real album is answered from the cache: nothing is searched or written. */
  lemma CacheShortCircuit(disk: map<string, Bytes>, artist: Option<string>, title: Option<string>, album: string,
                          folder: string, thumbUrl: Option<string>, net: Net, junk: MetadataUtils.Matcher)
    requires !IsGeneric(album) && CachePath(folder, CleanAlbum(album)) in disk
    ensures Cover(disk, artist, title, album, folder, thumbUrl, net, junk)
      == (Returned(Some(disk[CachePath(folder, CleanAlbum(album))])), disk, [])
  {
  }

  /** Otherwise the lookup decides the result, and a found image is persisted. */
  lemma CoverLooksUp(disk: map<string, Bytes>, artist: Option<string>, title: Option<string>, album: string,
                     folder: string, thumbUrl: Option<string>, net: Net, junk: MetadataUtils.Matcher)
    requires IsGeneric(album) || CachePath(folder, CleanAlbum(album)) !in disk
    ensures var found := Lookup(Query(artist, title, junk), thumbUrl, net);
      Cover(disk, artist, title, album, folder, thumbUrl, net, junk)
      == if found.0.Raised? then (Raised, disk, found.1)
         else (found.0, Persisted(disk, folder, album, found.0.image), found.1)
  {
  }

  /** An existing folder cover is never overwritten, and a generic album writes nothing. */
  lemma IconWrittenOnce(disk: map<string, Bytes>, artist: Option<string>, title: Option<string>, album: string,
                        folder: string, thumbUrl: Option<string>, net: Net, junk: MetadataUtils.Matcher)
    ensures var after := Cover(disk, artist, title, album, folder, thumbUrl, net, junk).1;
      (IconPath(folder) in disk ==> IconPath(folder) in after && after[IconPath(folder)] == disk[IconPath(folder)])
      && (IsGeneric(album) ==> after == disk)
  {
    var cache := CachePath(folder, CleanAlbum(album));
    if IsGeneric(album) || cache !in disk {
      var found := Lookup(Query(artist, title, junk), thumbUrl, net);
      if found.0.Returned? {
        PersistedKeepsIcon(disk, folder, album, found.0.image);
      }
    }
  }

  lemma PersistedKeepsIcon(disk: map<string, Bytes>, folder: string, album: string, image: Option<Bytes>)
    ensures var after := Persisted(disk, folder, album, image);
      (IconPath(folder) in disk ==> IconPath(folder) in after && after[IconPath(folder)] == disk[IconPath(folder)])
      && (IsGeneric(album) ==> after == disk)
  {
    CacheIsNotIcon(folder, CleanAlbum(album));
  }

  /** The image is returned whether or not the album is generic: genericity only decides the
      writes. */
  lemma GenericStillReturns(disk: map<string, Bytes>, artist: Option<string>, title: Option<string>, album: string,
                            folder: string, thumbUrl: Option<string>, net: Net, junk: MetadataUtils.Matcher)
    requires IsGeneric(album)
    ensures var r := Cover(disk, artist, title, album, folder, thumbUrl, net, junk);
      r.0 == Lookup(Query(artist, title, junk), thumbUrl, net).0 && r.1 == disk
  {
    var found := Lookup(Query(artist, title, junk), thumbUrl, net);
    if found.0.Returned? {
      assert Persisted(disk, folder, album, found.0.image) == disk;
    }
  }

  // ---------------------------------------------------------------- the engine

  class CoverEngine {
    /** The HTTP session and the image library. */
    const net: Net
    /** The files of the music folders, by path. */
    var disk: map<string, Bytes>

    constructor (net: Net, disk: map<string, Bytes>)
      ensures this.net == net && this.disk == disk
    {
      this.net := net;
      this.disk := disk;
    }

    /** `get_cover(artist, title, album, folder_path, yt_thumb_url)`; `searches` lists the
        iTunes terms sent. */
    method GetCover(artist: Option<string>, title: Option<string>, album: string, folder: string,
                    thumbUrl: Option<string>, junk: MetadataUtils.Matcher)
      returns (r: CoverResult, searches: seq<string>)
      modifies this
      ensures (r, disk, searches) == Cover(old(disk), artist, title, album, folder, thumbUrl, net, junk)
    {
      var a, t := CleanQuery(artist, title, junk);
      var cleanAlbum := CleanAlbum(album);
      var generic := Lower(cleanAlbum) in GenericNames || |cleanAlbum| < 3;
      if !generic {
        var cachePath := CachePath(folder, cleanAlbum);
        if cachePath in disk {
          CacheShortCircuit(disk, artist, title, album, folder, thumbUrl, net, junk);
          return Returned(Some(disk[cachePath])), [];
        }
      }
      CoverLooksUp(disk, artist, title, album, folder, thumbUrl, net, junk);
      r, searches := FindCover(a, t, thumbUrl);
      if r.Returned? {
        Persist(folder, album, cleanAlbum, generic, r.image);
      }
    }

    /** Steps 1 and 2: the cleaned names, with an "unknown" artist taken from the title. */
    static method CleanQuery(artist: Option<string>, title: Option<string>, junk: MetadataUtils.Matcher)
      returns (a: string, t: string)
      ensures (a, t) == Query(artist, title, junk)
    {
      a := MetadataUtils.CleanMetadata(artist, junk);
      t := MetadataUtils.CleanMetadata(title, junk);
      if Lower(a) == "unknown" && Contains(t, " - ") {
        var parts := SplitOnce(t, " - ").value;
        a, t := parts.0, parts.1;
      }
    }

    /** Step 7: the album cache and, when absent, the folder cover. */
    method Persist(folder: string, album: string, cleanAlbum: string, generic: bool, image: Option<Bytes>)
      requires cleanAlbum == CleanAlbum(album) && generic == IsGeneric(album)
      modifies this
      ensures disk == Persisted(old(disk), folder, album, image)
    {
      if HasImage(image) && !generic {
        var cachePath := CachePath(folder, cleanAlbum);
        disk := disk[cachePath := image.value];
        var icon := IconPath(folder);
        if icon !in disk {
          disk := disk[icon := image.value];
        }
      }
    }

    /** Steps 3 to 6: the iTunes search, then the thumbnail fallback. */
    method FindCover(artist: string, title: string, thumbUrl: Option<string>)
      returns (r: CoverResult, searches: seq<string>)
      ensures (r, searches) == Lookup((artist, title), thumbUrl, net)
    {
      var itunes := ItunesCover(artist, title, net);
      searches := itunes.1;
      if itunes.0.Raised? {
        return Raised, searches;
      }
      var image := itunes.0.image;
      if !HasImage(image) && thumbUrl.Some? && thumbUrl.value != [] {
        var answer := net.get(thumbUrl.value);
        if answer.Some? && answer.value.status == 200 {
          image := Square(net, answer.value.content);
        }
      }
      r := Returned(image);
    }
  }
}
