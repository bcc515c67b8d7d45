/** The download front end (downloader.py): yt-dlp options, query expansion, and the life of
    one track (metadata, download, lyrics sidecars, embedding). The media library itself is a
    collaborator given as functions. */
module Downloader {
  import opened Wrappers
  import opened Text
  import OsPath
  import Config
  import Files
  import MetadataUtils
  import LyricsEngine
  import FileProcessor

  // ---------------------------------------------------------------- options

  datatype PostProcessor = PostProcessor(key: string, preferredcodec: string, preferredquality: string)

  /** A yt-dlp option value. */
  datatype OptValue = Flag(flag: bool) | Str(str: string) | Post(post: seq<PostProcessor>)

  type Opts = map<string, OptValue>

  /** The output template appended to a folder. */
  const Template: string := "/%(title)s.%(ext)s"

  /** The options shared by both modes. */
  function BaseOpts(): Opts {
    map["noplaylist" := Flag(false), "ignoreerrors" := Flag(true), "extract_flat" := Str("in_playlist"),
        "quiet" := Flag(true), "no_warnings" := Flag(true)]
  }

  /** The options of video (MP4) or audio (MP3) mode. */
  function ModeOpts(video: bool): Opts {
    if video then
      map["format" := Str("bestvideo+bestaudio/best"), "merge_output_format" := Str("mp4"),
          "outtmpl" := Str(Config.DownloadDir + Template)]
    else
      map["format" := Str("bestaudio/best"), "outtmpl" := Str(Config.DownloadDir + Template),
          "postprocessors" := Post([PostProcessor("FFmpegExtractAudio", "mp3", "192")])]
  }

  /** `{**base, **mode}`: every key of either, the mode's value winning. */
  function Merge(base: Opts, mode: Opts): (r: Opts)
    ensures r.Keys == base.Keys + mode.Keys
    ensures forall k :: k in mode ==> r[k] == mode[k]
    ensures forall k :: k in base && k !in mode ==> r[k] == base[k]
  {
    base + mode
  }

  function YdlOpts(video: bool): Opts {
    Merge(BaseOpts(), ModeOpts(video))
  }

  /** The merged options: the base flags, and the mode's format, template and post-processing. */
  lemma YdlOptsContents(video: bool)
    ensures var o := YdlOpts(video);
      && o.Keys == BaseOpts().Keys + ModeOpts(video).Keys
      && o["noplaylist"] == Flag(false) && o["ignoreerrors"] == Flag(true)
      && o["outtmpl"] == Str(Config.DownloadDir + Template)
      && ("postprocessors" in o <==> !video)
      && ("merge_output_format" in o <==> video)
  {
    var mode := ModeOpts(video);
    assert "noplaylist" !in mode && "ignoreerrors" !in mode && "outtmpl" in mode;
    assert "postprocessors" !in BaseOpts() && "merge_output_format" !in BaseOpts();
  }

  /** `process_query`'s copy of the options with its own output template. */
  function CurrentOpts(opts: Opts, output: string): (r: Opts)
    ensures r.Keys == opts.Keys + {"outtmpl"}
    ensures r["outtmpl"] == Str(output + Template)
    ensures forall k :: k in opts && k != "outtmpl" ==> r[k] == opts[k]
  {
    opts["outtmpl" := Str(output + Template)]
  }

  /** The folder a query downloads into: the given folder when it is not empty. */
  function OutputPath(target: Option<string>): (r: string)
    ensures Truthy(target) ==> r == target.value
    ensures !Truthy(target) ==> r == Config.DownloadDir
  {
    if Truthy(target) then target.value else Config.DownloadDir
  }

  /** The output folder is never empty. */
  lemma OutputPathNotEmpty(target: Option<string>)
    ensures OutputPath(target) != []
  {
  }

  /** The string handed to yt-dlp: URLs as they are, anything else as a one-result search. */
  function SearchQuery(query: string): (r: string)
    ensures StartsWith(query, "http") ==> r == query
    ensures !StartsWith(query, "http") ==> r == "ytsearch1:" + query
  {
    if StartsWith(query, "http") then query else "ytsearch1:" + query
  }

  /** The query is always the tail of what is searched, and is used unchanged exactly when it
      starts with `http`. */
  lemma SearchQueryKeepsQuery(query: string)
    ensures EndsWith(SearchQuery(query), query)
    ensures SearchQuery(query) == query <==> StartsWith(query, "http")
  {
    if !StartsWith(query, "http") {
      assert |SearchQuery(query)| == |query| + 10;
    }
  }

  // ---------------------------------------------------------------- the collaborator

  /** A number field of an info record. */
  datatype NumField = Missing | Null | Num(n: int)

  /** `video.get('duration', 0)`. */
  function DurationOf(d: NumField): (r: Option<int>)
    ensures d.Missing? ==> r == Some(0)
    ensures d.Null? ==> r == None
    ensures d.Num? ==> r == Some(d.n)
  {
    match d
    case Missing => Some(0)
    case Null => None
    case Num(n) => Some(n)
  }

  /** The full record of one video: its text fields and its duration. */
  datatype VideoInfo = VideoInfo(fields: MetadataUtils.Info, duration: NumField)

  /** What `extract_info(search_query)` gives: an exception, a falsy value, a record without
      `entries`, or one with `entries` (`None` when that field is null). */
  datatype Expansion = ExpandRaised | Nothing | Flat(info: MetadataUtils.Info) | Listing(entries: Option<seq<Option<MetadataUtils.Info>>>)

  /** What `extract_info(video_url)` gives. */
  datatype Fetched = FetchRaised | NoVideo | Video(video: VideoInfo)

  /** The `YoutubeDL` object, as functions of the options it was made with: query expansion,
      full extraction of one track, `prepare_filename`, and `process_info` (false when it
      raises). */
  datatype Ydl = Ydl(expand: (Opts, string) -> Expansion, fetch: (Opts, string) -> Fetched,
                     prepare: (Opts, VideoInfo) -> string, process: (Opts, VideoInfo) -> bool)

  /** `info['entries'] if 'entries' in info else [info]` after the falsy check; `None` when the
      query stops: an exception, nothing found, or a null entry list that cannot be iterated. */
  function VideoList(x: Expansion): (r: Option<seq<Option<MetadataUtils.Info>>>)
    ensures x.Flat? && x.info != map[] ==> r == Some([Some(x.info)])
    ensures x.Listing? ==> r == x.entries
    ensures r.None? <==> x.ExpandRaised? || x.Nothing? || (x.Flat? && x.info == map[]) || (x.Listing? && x.entries.None?)
  {
    match x
    case ExpandRaised => None
    case Nothing => None
    case Flat(info) => if info == map[] then None else Some([Some(info)])
    case Listing(entries) => entries
  }

  /** A skipped entry: `None` or an empty record. */
  predicate Falsy(entry: Option<MetadataUtils.Info>) {
    entry.None? || entry.value == map[]
  }

  const WatchPrefix: string := "https://www.youtube.com/watch?v="

  /** The URL of an entry: `webpage_url`, else `url`, else the watch URL of its `id`; `None`
      abandons the track. */
  function TrackUrl(entry: MetadataUtils.Info): (r: Option<string>)
    ensures Truthy(MetadataUtils.Get(entry, "webpage_url")) ==> r == MetadataUtils.Get(entry, "webpage_url")
    ensures !Truthy(MetadataUtils.Get(entry, "webpage_url")) && Truthy(MetadataUtils.Get(entry, "url")) ==>
      r == MetadataUtils.Get(entry, "url")
    ensures !Truthy(MetadataUtils.Get(entry, "webpage_url")) && !Truthy(MetadataUtils.Get(entry, "url")) ==>
      r == (if Truthy(MetadataUtils.Get(entry, "id")) then Some(WatchPrefix + MetadataUtils.Get(entry, "id").value) else None)
  {
    var u := Or(MetadataUtils.Get(entry, "webpage_url"), MetadataUtils.Get(entry, "url"));
    if Truthy(u) then u
    else
      var id := MetadataUtils.Get(entry, "id");
      if Truthy(id) then Some(WatchPrefix + id.value) else None
  }

  /** A URL is found exactly when one of the three fields is non-empty, and it is never empty. */
  lemma TrackUrlFound(entry: MetadataUtils.Info)
    ensures TrackUrl(entry).Some? <==>
      Truthy(MetadataUtils.Get(entry, "webpage_url")) || Truthy(MetadataUtils.Get(entry, "url")) || Truthy(MetadataUtils.Get(entry, "id"))
    ensures TrackUrl(entry).Some? ==> Truthy(TrackUrl(entry))
  {
  }

  /** The extension the mode produces. */
  function TargetExt(video: bool): string {
    if video then ".mp4" else ".mp3"
  }

  /** The predicted file with its extension replaced by the mode's. */
  function FinalFile(temp: string, video: bool): string {
    OsPath.SplitExt(temp).0 + TargetExt(video)
  }

  /** The final file always carries the mode's extension, and a predicted name that already has
      it is the final file itself. */
  lemma FinalFileExt(temp: string, video: bool)
    ensures EndsWith(FinalFile(temp, video), TargetExt(video))
    ensures OsPath.SplitExt(temp).1 == TargetExt(video) ==> FinalFile(temp, video) == temp
  {
    var r := FinalFile(temp, video);
    assert r[|r| - 4..] == TargetExt(video);
  }

  // ---------------------------------------------------------------- one track

  /** What the downloader changes: the files, and the final paths handed to `process_info`. */
  datatype State = State(fs: Files.Fs, downloads: seq<string>)

  /** The sidecars of a downloaded track: with lyrics, `<base>.lrc` (overwritten if present),
      `<base>.srt` when the conversion is not empty, and the embedding in audio mode only. */
  function Saved(fs: Files.Fs, final: string, lyrics: Option<string>, video: bool): (r: Files.Fs)
    ensures !Truthy(lyrics) ==> r == fs
    ensures var base := OsPath.SplitExt(final).0;
      var lrc, srt := base + ".lrc", base + ".srt";
      && (Truthy(lyrics) ==> lrc in r.files && r.files[lrc] == Files.Text(lyrics.value))
      && (Truthy(lyrics) && FileProcessor.Srt(lyrics) != [] ==> srt in r.files && r.files[srt] == Files.Text(FileProcessor.Srt(lyrics)))
      && (FileProcessor.Srt(lyrics) == [] ==> (srt in r.files <==> srt in fs.files) && (srt in fs.files ==> r.files[srt] == fs.files[srt]))
      && (forall p :: p != lrc && p != srt ==> (p in r.files <==> p in fs.files) && (p in fs.files ==> r.files[p] == fs.files[p]))
    ensures r.embeds == fs.embeds + (if Truthy(lyrics) && !video then [Files.Embedding(final, lyrics.value)] else [])
  {
    if !Truthy(lyrics) then fs
    else
      var base := OsPath.SplitExt(final).0;
      var fs1 := fs.(files := fs.files[base + ".lrc" := Files.Text(lyrics.value)]);
      var converted := FileProcessor.Srt(lyrics);
      assert (base + ".lrc")[|base| + 3] == 'c' && (base + ".srt")[|base| + 3] == 't';
      var fs2 := if converted != [] then fs1.(files := fs1.files[base + ".srt" := Files.Text(converted)]) else fs1;
      if video then fs2 else fs2.(embeds := fs2.embeds + [Files.Embedding(final, lyrics.value)])
  }

  /** `_download_and_process_track(ydl, entry)`; every exception inside it ends only this track. */
  function Track(st: State, video: bool, opts: Opts, entry: MetadataUtils.Info, ydl: Ydl,
                 call: LyricsEngine.Providers, junk: MetadataUtils.Matcher): State
  {
    match TrackUrl(entry)
    case None => st
    case Some(url) =>
      match ydl.fetch(opts, url)
      case FetchRaised => st
      case NoVideo => st
      case Video(v) =>
        if v.fields == map[] && v.duration.Missing? then st
        else
          match MetadataUtils.ExtractProfessionalMetadata(v.fields, junk)
          case None => st
          case Some(p) => Acquired(st, video, opts, v, p, ydl, call)
  }

  /** The part of a track after its metadata: the existence check on the final file, the
      download, the lyrics search and the sidecars. */
  function Acquired(st: State, video: bool, opts: Opts, v: VideoInfo, p: MetadataUtils.Pair, ydl: Ydl,
                    call: LyricsEngine.Providers): State
  {
    var final := FinalFile(ydl.prepare(opts, v), video);
    if final in st.fs.files then st
    else
      var st1 := st.(downloads := st.downloads + [final]);
      if !ydl.process(opts, v) then st1
      else
        var lyrics := LyricsEngine.SearchResult(p.artist, p.title, DurationOf(v.duration), call);
        st1.(fs := Saved(st1.fs, final, lyrics, video))
  }

  /** A track whose final file exists is skipped: no download, no search, no sidecars. */
  lemma ExistingIsSkipped(st: State, video: bool, opts: Opts, entry: MetadataUtils.Info, ydl: Ydl,
                          call: LyricsEngine.Providers, junk: MetadataUtils.Matcher, url: string, v: VideoInfo)
    requires TrackUrl(entry) == Some(url) && ydl.fetch(opts, url) == Video(v)
    requires FinalFile(ydl.prepare(opts, v), video) in st.fs.files
    ensures Track(st, video, opts, entry, ydl, call, junk) == st
  {
  }

  /** What one track may change from `st` to `r`: at most one download, of a final file that
      did not exist; nothing else without it; only that file's two sidecars among the existing
      files; and no embedding in video mode. */
  predicate Footprint(st: State, r: State, video: bool) {
    && st.downloads <= r.downloads && |r.downloads| <= |st.downloads| + 1
    && (r.downloads == st.downloads ==> r == st)
    && (video ==> r.fs.embeds == st.fs.embeds)
    && (|r.downloads| == |st.downloads| + 1 ==>
          var final := r.downloads[|st.downloads|];
          var base := OsPath.SplitExt(final).0;
          && final !in st.fs.files
          && forall p :: p != base + ".lrc" && p != base + ".srt" && p in st.fs.files ==>
               p in r.fs.files && r.fs.files[p] == st.fs.files[p])
  }

  lemma AcquiredFootprint(st: State, video: bool, opts: Opts, v: VideoInfo, p: MetadataUtils.Pair, ydl: Ydl,
                          call: LyricsEngine.Providers)
    ensures Footprint(st, Acquired(st, video, opts, v, p, ydl, call), video)
  {
    var final := FinalFile(ydl.prepare(opts, v), video);
    if final !in st.fs.files {
      var st1 := st.(downloads := st.downloads + [final]);
      assert st1.downloads[|st.downloads|] == final;
    }
  }

  /** Every track stays within its footprint. */
  lemma TrackFootprint(st: State, video: bool, opts: Opts, entry: MetadataUtils.Info, ydl: Ydl,
                       call: LyricsEngine.Providers, junk: MetadataUtils.Matcher)
    ensures Footprint(st, Track(st, video, opts, entry, ydl, call, junk), video)
  {
    if TrackUrl(entry).Some? && ydl.fetch(opts, TrackUrl(entry).value).Video? {
      var v := ydl.fetch(opts, TrackUrl(entry).value).video;
      var names := MetadataUtils.ExtractProfessionalMetadata(v.fields, junk);
      if names.Some? {
        AcquiredFootprint(st, video, opts, v, names.value, ydl, call);
      }
    }
  }

  /** The tracks of one query, in order; falsy entries are skipped. */
  function Tracks(st: State, video: bool, opts: Opts, entries: seq<Option<MetadataUtils.Info>>, ydl: Ydl,
                  call: LyricsEngine.Providers, junk: MetadataUtils.Matcher): State
  {
    if entries == [] then st
    else
      var before := Tracks(st, video, opts, entries[..|entries| - 1], ydl, call, junk);
      var entry := entries[|entries| - 1];
      if Falsy(entry) then before else Track(before, video, opts, entry.value, ydl, call, junk)
  }

  /** Running two batches of entries is running the first and then the second. */
  lemma {:induction false} TracksAppend(st: State, video: bool, opts: Opts, a: seq<Option<MetadataUtils.Info>>,
                                        b: seq<Option<MetadataUtils.Info>>, ydl: Ydl,
                                        call: LyricsEngine.Providers, junk: MetadataUtils.Matcher)
    ensures Tracks(st, video, opts, a + b, ydl, call, junk)
      == Tracks(Tracks(st, video, opts, a, ydl, call, junk), video, opts, b, ydl, call, junk)
  {
    if b == [] {
      assert a + b == a;
    } else {
      var init := b[..|b| - 1];
      TracksAppend(st, video, opts, a, init, ydl, call, junk);
      assert (a + b)[..|a + b| - 1] == a + init;
      assert (a + b)[|a + b| - 1] == b[|b| - 1];
    }
  }

  /** A track that fails (here: its full extraction raises) does not stop the tracks after it. */
  lemma FailureIsContained(st: State, video: bool, opts: Opts, a: seq<Option<MetadataUtils.Info>>,
                           bad: MetadataUtils.Info, b: seq<Option<MetadataUtils.Info>>, ydl: Ydl,
                           call: LyricsEngine.Providers, junk: MetadataUtils.Matcher)
    requires TrackUrl(bad).Some? && ydl.fetch(opts, TrackUrl(bad).value) == FetchRaised
    ensures Tracks(st, video, opts, a + [Some(bad)] + b, ydl, call, junk)
      == Tracks(Tracks(st, video, opts, a, ydl, call, junk), video, opts, b, ydl, call, junk)
  {
    TracksAppend(st, video, opts, a + [Some(bad)], b, ydl, call, junk);
    TracksAppend(st, video, opts, a, [Some(bad)], ydl, call, junk);
    var mid := Tracks(st, video, opts, a, ydl, call, junk);
    assert Tracks(mid, video, opts, [Some(bad)], ydl, call, junk) == Track(mid, video, opts, bad, ydl, call, junk) by {
      assert [Some(bad)][..0] == [];
    }
  }

  /** `process_query(query, target_folder)`. */
  function Query(st: State, video: bool, ydlOpts: Opts, query: string, target: Option<string>, ydl: Ydl,
                 call: LyricsEngine.Providers, junk: MetadataUtils.Matcher): State
  {
    var opts := CurrentOpts(ydlOpts, OutputPath(target));
    match VideoList(ydl.expand(opts, SearchQuery(query)))
    case None => st
    case Some(entries) => Tracks(st, video, opts, entries, ydl, call, junk)
  }

  /** An exception while expanding the query ends the whole query before any track. */
  lemma ExpansionFailureStops(st: State, video: bool, ydlOpts: Opts, query: string, target: Option<string>, ydl: Ydl,
                              call: LyricsEngine.Providers, junk: MetadataUtils.Matcher)
    requires ydl.expand(CurrentOpts(ydlOpts, OutputPath(target)), SearchQuery(query)) == ExpandRaised
    ensures Query(st, video, ydlOpts, query, target, ydl, call, junk) == st
  {
  }

  // ---------------------------------------------------------------- the downloader object

  class Downloader {
    /** `config.DOWNLOAD_VIDEO`, read once. */
    const video: bool
    const baseOpts: Opts
    const modeOpts: Opts
    const ydlOpts: Opts
    /** The lyrics engine's providers. */
    const call: LyricsEngine.Providers
    /** The deny-list matcher of the metadata cleaner. */
    const junk: MetadataUtils.Matcher
    const disk: Files.Disk
    /** The final paths handed to `process_info`, in order. */
    var downloads: seq<string>

    constructor (video: bool, call: LyricsEngine.Providers, junk: MetadataUtils.Matcher, disk: Files.Disk)
      ensures this.video == video && this.call == call && this.junk == junk && this.disk == disk
      ensures baseOpts == BaseOpts() && modeOpts == ModeOpts(video)
      ensures ydlOpts == YdlOpts(video)
      ensures downloads == []
    {
      this.video := video;
      this.call := call;
      this.junk := junk;
      this.disk := disk;
      baseOpts := BaseOpts();
      modeOpts := ModeOpts(video);
      ydlOpts := BaseOpts() + ModeOpts(video);
      downloads := [];
    }

    /** `process_query(query, target_folder)`: the options of the object are not changed. */
    method ProcessQuery(query: string, target: Option<string>, ydl: Ydl)
      modifies this, disk
      ensures State(disk.fs, downloads) == Query(State(old(disk.fs), old(downloads)), video, ydlOpts, query, target, ydl, call, junk)
    {
      var outputPath := if Truthy(target) then target.value else Config.DownloadDir;
      var currentOpts := ydlOpts["outtmpl" := Str(outputPath + Template)];
      var searchQuery := if StartsWith(query, "http") then query else "ytsearch1:" + query;
      var info := ydl.expand(currentOpts, searchQuery);
      var videoList: seq<Option<MetadataUtils.Info>>;
      match info {
        case ExpandRaised => return;
        case Nothing => return;
        case Flat(fields) =>
          if fields == map[] {
            return;
          }
          videoList := [Some(fields)];
        case Listing(entries) =>
          if entries.None? {
            return;
          }
          videoList := entries.value;
      }
      ghost var st0 := State(disk.fs, downloads);
      for k := 0 to |videoList|
        invariant State(disk.fs, downloads) == Tracks(st0, video, currentOpts, videoList[..k], ydl, call, junk)
      {
        assert videoList[..k + 1][..k] == videoList[..k];
        var entry := videoList[k];
        if entry.None? || entry.value == map[] {
          continue;
        }
        DownloadAndProcessTrack(ydl, currentOpts, entry.value);
      }
      assert videoList[..|videoList|] == videoList;
    }

    /** The end of `_download_and_process_track`: the sidecars and the embedding. */
    method SaveSidecars(finalFile: string, lyrics: Option<string>)
      modifies disk
      ensures disk.fs == Saved(old(disk.fs), finalFile, lyrics, video)
    {
      if Truthy(lyrics) {
        var basePath := OsPath.SplitExt(finalFile).0;
        disk.WriteText(basePath + ".lrc", lyrics.value);
        var srtContent := FileProcessor.LrcToSrt(lyrics);
        if srtContent != [] {
          disk.WriteText(basePath + ".srt", srtContent);
        }
        if !video {
          disk.Embed(finalFile, lyrics.value);
        }
      }
    }

    /** `_download_and_process_track(ydl, entry)`. */
    method DownloadAndProcessTrack(ydl: Ydl, opts: Opts, entry: MetadataUtils.Info)
      modifies this, disk
      ensures State(disk.fs, downloads) == Track(State(old(disk.fs), old(downloads)), video, opts, entry, ydl, call, junk)
    {
      var videoUrl := Or(MetadataUtils.Get(entry, "webpage_url"), MetadataUtils.Get(entry, "url"));
      if !Truthy(videoUrl) {
        var id := MetadataUtils.Get(entry, "id");
        if Truthy(id) {
          videoUrl := Some(WatchPrefix + id.value);
        } else {
          return;
        }
      }
      assert videoUrl == TrackUrl(entry);
      var fetched := ydl.fetch(opts, videoUrl.value);
      if !fetched.Video? || (fetched.video.fields == map[] && fetched.video.duration.Missing?) {
        return;
      }
      var v := fetched.video;
      var names := MetadataUtils.ExtractProfessionalMetadata(v.fields, junk);
      if names.None? {
        return;
      }
      ghost var st0 := State(disk.fs, downloads);
      assert Track(st0, video, opts, entry, ydl, call, junk) == Acquired(st0, video, opts, v, names.value, ydl, call);
      Acquire(ydl, opts, v, names.value);
    }

    /** `_download_and_process_track` from the existence check on. */
    method Acquire(ydl: Ydl, opts: Opts, v: VideoInfo, names: MetadataUtils.Pair)
      modifies this, disk
      ensures State(disk.fs, downloads) == Acquired(State(old(disk.fs), old(downloads)), video, opts, v, names, ydl, call)
    {
      var duration := DurationOf(v.duration);
      var targetExt := if video then "mp4" else "mp3";
      var tempFilename := ydl.prepare(opts, v);
      var finalFile := OsPath.SplitExt(tempFilename).0 + "." + targetExt;
      assert finalFile == FinalFile(tempFilename, video);
      if finalFile in disk.fs.files {
        return;
      }
      downloads := downloads + [finalFile];
      if !ydl.process(opts, v) {
        return;
      }
      var lyrics, checked := LyricsEngine.Search(names.artist, names.title, duration, call);
      SaveSidecars(finalFile, lyrics);
    }
  }
}
