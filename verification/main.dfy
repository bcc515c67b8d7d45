/** The program's driver logic (main.py): the structured song list, and the repair of
    missing lyrics sidecars in an existing library. */
module MainFlow {
  import opened Wrappers
  import opened Text
  import OsPath
  import Config
  import Files
  import MetadataUtils
  import LyricsEngine
  import FileProcessor

  // ---------------------------------------------------------------- the song list

  /** `line.split('//')[0]` (the line itself when it holds no `//`): the text before the first
      `//`. */
  function CodePart(line: string): (r: string)
    ensures r <= line && !Contains(r, "//")
    ensures Contains(line, "//") ==> OccursAt(line, "//", |r|)
    ensures !Contains(line, "//") ==> r == line
  {
    match IndexOf(line, "//")
    case None => line
    case Some(i) =>
      forall j | 0 <= j
        ensures !OccursAt(line[..i], "//", j)
      {
        OccursInPrefix(line, "//", i, j);
      }
      line[..i]
  }

  /** A list line without its comment and surrounding whitespace. */
  function Clean(line: string): string {
    StripSpace(CodePart(line))
  }

  /** A comment marker is cut wherever it is, even inside a URL scheme. */
  lemma CommentInUrl(line: string)
    requires line == "https://x"
    ensures CodePart(line) == "https:"
  {
    assert OccursAt(line, "//", 6);
    assert '/' !in line[..6];
    forall j | 0 <= j < 6
      ensures !OccursAt(line, "//", j)
    {
      assert line[j..j + 2][0] == line[..6][j];
    }
    var i := IndexOf(line, "//").value;
    assert i == 6;
  }

  predicate IsHeader(line: string) {
    line != [] && line[0] == '#'
  }

  /** The number of leading `#`. */
  function Depth(line: string): nat {
    LeadCount(line, {'#'})
  }

  function FolderName(line: string): string {
    StripSpace(TrimLeft(line, {'#'}))
  }

  function Min(a: int, b: int): int {
    if a < b then a else b
  }

  /** A header of depth `d` keeps the first `d - 1` folders and opens its own. */
  function Enter(stack: seq<string>, header: string): (r: seq<string>)
    requires IsHeader(header)
    ensures |r| == Min(|stack|, Depth(header) - 1) + 1
    ensures r[..|r| - 1] == stack[..|r| - 1]
    ensures r[|r| - 1] == FolderName(header)
  {
    var keep := Min(|stack|, Depth(header) - 1);
    stack[..keep] + [FolderName(header)]
  }

  /** The download folder of a song under the folder stack. */
  function Target(stack: seq<string>): string {
    if stack != [] then OsPath.JoinAll(Config.DownloadDir, stack) else Config.DownloadDir
  }

  /** One song to fetch: the query or URL, and the folder it goes to. */
  datatype Task = Task(query: string, folder: string)

  datatype ListState = ListState(stack: seq<string>, tasks: seq<Task>)

  /** One line of `parse_song_list`'s loop. */
  function Feed(st: ListState, raw: string): (r: ListState)
    ensures Clean(raw) == [] ==> r == st
    ensures Clean(raw) != [] && IsHeader(Clean(raw)) ==> r == st.(stack := Enter(st.stack, Clean(raw)))
    ensures Clean(raw) != [] && !IsHeader(Clean(raw)) ==>
      r == st.(tasks := st.tasks + [Task(Clean(raw), Target(st.stack))])
  {
    var line := Clean(raw);
    if line == [] then st
    else if IsHeader(line) then st.(stack := Enter(st.stack, line))
    else st.(tasks := st.tasks + [Task(line, Target(st.stack))])
  }

  function Parse(lines: seq<string>): ListState {
    if lines == [] then ListState([], [])
    else Feed(Parse(lines[..|lines| - 1]), lines[|lines| - 1])
  }

  /** The song lines of a list, in order: cleaned, neither empty nor a header. */
  function Songs(lines: seq<string>): seq<string> {
    if lines == [] then []
    else
      var line := Clean(lines[|lines| - 1]);
      Songs(lines[..|lines| - 1]) + (if line != [] && !IsHeader(line) then [line] else [])
  }

  /** Exactly one task per song line, in file order; headers and blank lines give none. */
  lemma {:induction false} TasksAreSongs(lines: seq<string>)
    ensures |Parse(lines).tasks| == |Songs(lines)|
    ensures forall i :: 0 <= i < |Songs(lines)| ==> Parse(lines).tasks[i].query == Songs(lines)[i]
  {
    if lines != [] {
      var init := lines[..|lines| - 1];
      TasksAreSongs(init);
    }
  }

  /** Later lines only append tasks: the tasks of a prefix of the file are a prefix of its tasks. */
  lemma {:induction false} TasksGrow(lines: seq<string>, j: nat)
    requires j <= |lines|
    ensures Parse(lines[..j]).tasks <= Parse(lines).tasks
    decreases |lines|
  {
    if j < |lines| {
      var init := lines[..|lines| - 1];
      assert init[..j] == lines[..j];
      TasksGrow(init, j);
    } else {
      assert lines[..j] == lines;
    }
  }

  /** A song line gets the task in force when it is read: its cleaned text as the query, and as
      the folder the download folder joined with the folder stack that the lines before it left. */
  lemma SongTask(lines: seq<string>, j: nat)
    requires j < |lines| && Clean(lines[j]) != [] && !IsHeader(Clean(lines[j]))
    ensures var before := Parse(lines[..j]);
      && |before.tasks| < |Parse(lines).tasks|
      && Parse(lines).tasks[|before.tasks|] == Task(Clean(lines[j]), Target(before.stack))
  {
    var pre, pre1 := lines[..j], lines[..j + 1];
    assert pre1[..|pre1| - 1] == pre && pre1[|pre1| - 1] == lines[j];
    var before := Parse(pre);
    assert Parse(pre1) == Feed(before, lines[j]);
    assert Parse(pre1).tasks == before.tasks + [Task(Clean(lines[j]), Target(before.stack))];
    TasksGrow(lines, j + 1);
  }

  /** A song right after a first header goes to that header's folder under the download folder,
      whatever the header's depth. */
  lemma HeaderThenSong(header: string, song: string)
    requires IsHeader(Clean(header)) && Clean(song) != [] && !IsHeader(Clean(song))
    ensures Parse([header, song]).tasks
         == [Task(Clean(song), OsPath.JoinAll(Config.DownloadDir, [FolderName(Clean(header))]))]
  {
    assert [header, song][..1] == [header];
    assert [header][..0] == [];
    assert Parse([header]).stack == [FolderName(Clean(header))];
  }

  /** `parse_song_list`: `lines` are the lines of the list file. */
  method ParseSongList(lines: seq<string>) returns (tasks: seq<Task>)
    ensures tasks == Parse(lines).tasks
  {
    tasks := [];
    var stack: seq<string> := [];
    for k := 0 to |lines|
      invariant ListState(stack, tasks) == Parse(lines[..k])
    {
      assert lines[..k + 1][..k] == lines[..k];
      stack, tasks := FeedLine(stack, tasks, lines[k]);
    }
    assert lines[..|lines|] == lines;
  }

  /** One pass of `parse_song_list`'s loop over the line `raw`. */
  method FeedLine(stack0: seq<string>, tasks0: seq<Task>, raw: string) returns (stack: seq<string>, tasks: seq<Task>)
    ensures ListState(stack, tasks) == Feed(ListState(stack0, tasks0), raw)
  {
    stack, tasks := stack0, tasks0;
    var line := CodePart(raw);
    line := StripSpace(line);
    if line == [] {
      return;
    }
    if line[0] == '#' {
      var depth := LeadCount(line, {'#'});
      var name := StripSpace(TrimLeft(line, {'#'}));
      stack := stack[..Min(|stack|, depth - 1)];
      stack := stack + [name];
    } else {
      var target;
      if stack != [] {
        target := OsPath.JoinAll(Config.DownloadDir, stack);
      } else {
        target := Config.DownloadDir;
      }
      tasks := tasks + [Task(line, target)];
    }
  }

  // ---------------------------------------------------------------- library repair

  /** What the tag library reads from an MP3: the first `USLT` text, the `TPE1` and `TIT2`
      frames, and the length in whole seconds. */
  datatype Mp3Tags = Mp3Tags(uslt: Option<string>, artist: Option<string>, title: Option<string>, seconds: nat)

  /** The tags of the MP3 at a path; `None` when the file cannot be opened as MP3. */
  type TagReader = string -> Option<Mp3Tags>

  /** `extract_embedded_lyrics(path)`: failures read as no lyrics. */
  function ExtractEmbeddedLyrics(tags: TagReader, path: string): (r: Option<string>)
    ensures tags(path).None? ==> r == None
  {
    match tags(path)
    case None => None
    case Some(t) => t.uslt
  }

  /** The (artist, title) searched for a file: the tag values, `"Unknown"` when missing, and the
      file name's reading when the artist is `"Unknown"`. */
  function SearchPair(t: Mp3Tags, filename: string): (r: (string, string))
    ensures t.artist.GetOr("Unknown") == "Unknown" ==>
      r == (MetadataUtils.ParseFilenameRobustly(filename).artist, MetadataUtils.ParseFilenameRobustly(filename).title)
    ensures t.artist.GetOr("Unknown") != "Unknown" ==> r == (t.artist.value, t.title.GetOr("Unknown"))
  {
    var artist, title := t.artist.GetOr("Unknown"), t.title.GetOr("Unknown");
    if artist == "Unknown" then
      var p := MetadataUtils.ParseFilenameRobustly(filename);
      (p.artist, p.title)
    else (artist, title)
  }

  /** The lyrics found for a library file: an existing `.lrc` first, then the embedded lyrics,
      then the online search. */
  function FoundLyrics(fs: Files.Fs, filename: string, mp3: string, lrc: string, tags: TagReader,
                       call: LyricsEngine.Providers): (r: Option<string>)
    ensures Truthy(Files.ReadText(fs, lrc)) ==> r == Files.ReadText(fs, lrc)
    ensures !Truthy(Files.ReadText(fs, lrc)) && Truthy(ExtractEmbeddedLyrics(tags, mp3)) ==>
      r == ExtractEmbeddedLyrics(tags, mp3)
    ensures !Truthy(Files.ReadText(fs, lrc)) && !Truthy(ExtractEmbeddedLyrics(tags, mp3)) && tags(mp3).Some? ==>
      var q := SearchPair(tags(mp3).value, filename);
      r == LyricsEngine.SearchResult(q.0, q.1, Some(tags(mp3).value.seconds), call)
    ensures !Truthy(Files.ReadText(fs, lrc)) && tags(mp3).None? ==> !Truthy(r)
  {
    var local := Files.ReadText(fs, lrc);
    if Truthy(local) then local
    else
      var embedded := ExtractEmbeddedLyrics(tags, mp3);
      if Truthy(embedded) then embedded
      else
        match tags(mp3)
        case None => embedded
        case Some(t) =>
          var q := SearchPair(t, filename);
          LyricsEngine.SearchResult(q.0, q.1, Some(t.seconds), call)
  }

  /** The sidecar paths of an MP3 in folder `root`. */
  function SidecarPath(root: string, filename: string, ext: string): string {
    OsPath.Join(root, OsPath.SplitExt(filename).0 + ext)
  }

  lemma JoinEndsWith(a: string, b: string)
    ensures EndsWith(OsPath.Join(a, b), b)
  {
  }

  /** The two sidecars of a file never share a path. */
  lemma SidecarsDiffer(root: string, filename: string)
    ensures SidecarPath(root, filename, ".lrc") != SidecarPath(root, filename, ".srt")
  {
    var base := OsPath.SplitExt(filename).0;
    var l, t := SidecarPath(root, filename, ".lrc"), SidecarPath(root, filename, ".srt");
    JoinEndsWith(root, base + ".lrc");
    JoinEndsWith(root, base + ".srt");
    assert l[|l| - 1] == (base + ".lrc")[|base| + 3] == 'c';
    assert t[|t| - 1] == (base + ".srt")[|base| + 3] == 't';
  }

  /** Step 4 of the repair: with `lrc` or `srt` missing and lyrics found, the missing `.lrc`
      gets the lyrics, the missing `.srt` their conversion when that is not empty, and the
      lyrics are embedded into `mp3`. */
  function WithSidecars(fs: Files.Fs, mp3: string, lrc: string, srt: string, lyrics: Option<string>): (r: Files.Fs)
    requires lrc != srt
    ensures (lrc in fs.files && srt in fs.files) || !Truthy(lyrics) ==> r == fs
    ensures forall p :: p in fs.files ==> p in r.files && r.files[p] == fs.files[p]
    ensures forall p :: p in r.files && p !in fs.files ==> p == lrc || p == srt
    ensures lrc !in fs.files && Truthy(lyrics) ==> lrc in r.files && r.files[lrc] == Files.Text(lyrics.value)
    ensures srt in r.files && srt !in fs.files ==> r.files[srt] == Files.Text(FileProcessor.Srt(lyrics)) && FileProcessor.Srt(lyrics) != []
    ensures srt !in fs.files && Truthy(lyrics) && FileProcessor.Srt(lyrics) != [] ==> srt in r.files
    ensures r.embeds == fs.embeds
      + (if !(lrc in fs.files && srt in fs.files) && Truthy(lyrics) then [Files.Embedding(mp3, lyrics.value)] else [])
  {
    if (lrc in fs.files && srt in fs.files) || !Truthy(lyrics) then fs
    else
      var fs1 := if lrc !in fs.files then fs.(files := fs.files[lrc := Files.Text(lyrics.value)]) else fs;
      var converted := FileProcessor.Srt(lyrics);
      var fs2 := if srt !in fs.files && converted != [] then fs1.(files := fs1.files[srt := Files.Text(converted)]) else fs1;
      fs2.(embeds := fs2.embeds + [Files.Embedding(mp3, lyrics.value)])
  }

  /** The effect of `process_existing_library` on one file `filename` of folder `root`: nothing
      for a file that is not an `.mp3`. */
  function RepairOne(fs: Files.Fs, root: string, filename: string, tags: TagReader, call: LyricsEngine.Providers): (r: Files.Fs)
    ensures !EndsWith(filename, ".mp3") ==> r == fs
  {
    if !EndsWith(filename, ".mp3") then fs
    else
      var mp3 := OsPath.Join(root, filename);
      var lrc, srt := SidecarPath(root, filename, ".lrc"), SidecarPath(root, filename, ".srt");
      SidecarsDiffer(root, filename);
      WithSidecars(fs, mp3, lrc, srt, FoundLyrics(fs, filename, mp3, lrc, tags, call))
  }

  /** Only `.mp3` files missing a sidecar are looked at; only missing sidecars are written, the
      `.lrc` with the lyrics found and the `.srt` with their conversion, and an `.srt` only when
      the conversion gives text. */
  lemma RepairWritesOnlyMissing(fs: Files.Fs, root: string, filename: string, tags: TagReader, call: LyricsEngine.Providers)
    requires EndsWith(filename, ".mp3")
    ensures var r := RepairOne(fs, root, filename, tags, call);
      var lrc, srt := SidecarPath(root, filename, ".lrc"), SidecarPath(root, filename, ".srt");
      var lyrics := FoundLyrics(fs, filename, OsPath.Join(root, filename), lrc, tags, call);
      && (lrc in fs.files && srt in fs.files ==> r == fs)
      && (forall p :: p in fs.files ==> p in r.files && r.files[p] == fs.files[p])
      && (forall p :: p in r.files && p !in fs.files ==> p == lrc || p == srt)
      && (lrc in r.files && lrc !in fs.files ==> r.files[lrc] == Files.Text(lyrics.value))
      && (srt in r.files && srt !in fs.files ==> r.files[srt] == Files.Text(FileProcessor.Srt(lyrics)) && FileProcessor.Srt(lyrics) != [])
  {
    SidecarsDiffer(root, filename);
    var lrc, srt := SidecarPath(root, filename, ".lrc"), SidecarPath(root, filename, ".srt");
    var mp3 := OsPath.Join(root, filename);
    assert RepairOne(fs, root, filename, tags, call) == WithSidecars(fs, mp3, lrc, srt, FoundLyrics(fs, filename, mp3, lrc, tags, call));
  }

  /** `process_existing_library` over the files the walk lists, in order. */
  function RepairAll(fs: Files.Fs, walk: seq<(string, string)>, tags: TagReader, call: LyricsEngine.Providers): Files.Fs {
    if walk == [] then fs
    else RepairOne(RepairAll(fs, walk[..|walk| - 1], tags, call), walk[|walk| - 1].0, walk[|walk| - 1].1, tags, call)
  }

  /** Repairing never changes or deletes an existing file. */
  lemma {:induction false} RepairAllKeeps(fs: Files.Fs, walk: seq<(string, string)>, tags: TagReader, call: LyricsEngine.Providers)
    ensures forall p :: p in fs.files ==>
      p in RepairAll(fs, walk, tags, call).files && RepairAll(fs, walk, tags, call).files[p] == fs.files[p]
  {
    if walk != [] {
      var init := walk[..|walk| - 1];
      RepairAllKeeps(fs, init, tags, call);
      if EndsWith(walk[|walk| - 1].1, ".mp3") {
        RepairWritesOnlyMissing(RepairAll(fs, init, tags, call), walk[|walk| - 1].0, walk[|walk| - 1].1, tags, call);
      }
    }
  }

  /** Steps 1 to 3 of the repair: the local `.lrc`, then the embedded lyrics, then the online
      search with the tags (or the file name) of the MP3. */
  method LookUpLyrics(fs: Files.Fs, filename: string, mp3Path: string, lrcPath: string, tags: TagReader,
                      call: LyricsEngine.Providers) returns (lyricsText: Option<string>)
    ensures lyricsText == FoundLyrics(fs, filename, mp3Path, lrcPath, tags, call)
  {
    lyricsText := None;
    if lrcPath in fs.files {
      lyricsText := Files.ReadText(fs, lrcPath);
    }
    if !Truthy(lyricsText) {
      lyricsText := ExtractEmbeddedLyrics(tags, mp3Path);
    }
    if !Truthy(lyricsText) {
      var audio := tags(mp3Path);
      if audio.Some? {
        var artist := audio.value.artist.GetOr("Unknown");
        var title := audio.value.title.GetOr("Unknown");
        var duration := audio.value.seconds;
        if artist == "Unknown" {
          var p := MetadataUtils.ParseFilenameRobustly(filename);
          artist, title := p.artist, p.title;
        }
        var checked;
        lyricsText, checked := LyricsEngine.Search(artist, title, Some(duration), call);
      }
    }
  }

  /** One file of `process_existing_library`'s walk. */
  method RepairFile(disk: Files.Disk, root: string, filename: string, tags: TagReader, call: LyricsEngine.Providers)
    modifies disk
    ensures disk.fs == RepairOne(old(disk.fs), root, filename, tags, call)
  {
    if !EndsWith(filename, ".mp3") {
      return;
    }
    var baseName := OsPath.SplitExt(filename).0;
    var mp3Path := OsPath.Join(root, filename);
    var lrcPath := OsPath.Join(root, baseName + ".lrc");
    var srtPath := OsPath.Join(root, baseName + ".srt");
    SidecarsDiffer(root, filename);
    var missingLrc := lrcPath !in disk.fs.files;
    var missingSrt := srtPath !in disk.fs.files;
    if missingLrc || missingSrt {
      var lyricsText := LookUpLyrics(disk.fs, filename, mp3Path, lrcPath, tags, call);
      if lyricsText.Some? && lyricsText.value != [] {
        if missingLrc {
          disk.WriteText(lrcPath, lyricsText.value);
        }
        if missingSrt {
          var srt := FileProcessor.LrcToSrt(lyricsText);
          if srt != [] {
            disk.WriteText(srtPath, srt);
          }
        }
        disk.Embed(mp3Path, lyricsText.value);
      }
    }
  }

  /** `process_existing_library(engine)`: `walk` lists the (folder, file name) pairs of the
      recursive walk of the download folder, in walk order. */
  method ProcessExistingLibrary(disk: Files.Disk, walk: seq<(string, string)>, tags: TagReader, call: LyricsEngine.Providers)
    modifies disk
    ensures disk.fs == RepairAll(old(disk.fs), walk, tags, call)
  {
    for k := 0 to |walk|
      invariant disk.fs == RepairAll(old(disk.fs), walk[..k], tags, call)
    {
      assert walk[..k + 1][..k] == walk[..k];
      RepairFile(disk, walk[k].0, walk[k].1, tags, call);
    }
    assert walk[..|walk|] == walk;
  }
}
