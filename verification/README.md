# music-dl core, modelled in Dafny

This project models the core of music-dl, a downloader that turns a structured song list into a
music library. For each song it does five things:

- finds the track with yt-dlp;
- recovers a clean (artist, title) pair from noisy video metadata;
- asks six lyrics providers in turn;
- writes `.lrc` and `.srt` sidecars next to the media file;
- embeds the lyrics into the MP3.

A second pass repairs missing sidecars in an existing library. A cover resolver (a cache, an
iTunes search, a thumbnail fallback) and a download registry (ids and queries already fetched)
are modelled as standalone components, because the driver never calls them.

One module per source file:

- `MetadataUtils` (metadata_utils.py): pure functions and lemmas.
- `FileProcessor` (file_processor.py): `lrc_to_srt` as a method with loops, proved against the function `Srt`.
- `Registry` (registry.py): the class `Registry` with the record as a field, and the pure specifications `Added` and `Synced`.
- `LyricsEngine` (lyrics_engine.py): the strategy loop and the Megalyrics loop as methods, and the chain as the function `FirstHit`.
- `CoverEngine` (cover_engine.py): the class `CoverEngine` over a folder map, with `get_cover` proved against `Cover`.
- `MainFlow` (main.py): `parse_song_list` and `process_existing_library` as methods, proved against `Parse` and `RepairAll`.
- `Downloader` (downloader.py): the class `Downloader`, with `process_query` and `_download_and_process_track` proved against `Query` and `Track`.

The shared helper modules are:

- `Wrappers`: `Option` and Python truthiness.
- `Text`: Python string operations. `str.isspace` uses its exact character set; lower-casing is ASCII only.
- `OsPath`: posix `join` and `splitext`.
- `Config`: the configuration constants.
- `Files`: a mutable `Disk` object, holding text and media files and the embedding requests made so far.

Modelling choices:

- **Network and collaborators.** These are parameters. The lyrics providers are a function from
  (provider, arguments) to "returned a value" or "raised". The iTunes API, HTTP GET and the image
  re-encoder form the record `Net`. yt-dlp is the record `Ydl`: query expansion, full extraction,
  `prepare_filename` and `process_info`, each as a function of the options. MP3 tag reading is a
  `TagReader`.
- **Exceptions.** Where the model covers a raise, it is an explicit `Raised`/`None` outcome.
  Examples: a null title split in `extract_professional_metadata`; a null iTunes `artistName`; a
  body that is not JSON. The raises that are not modelled are listed under "Left out".
- **The deny-list.** Its regular expressions are abstract. A `Matcher` gives the positions that
  `re.sub(pattern, '', text)` deletes. The deny-list `Config.JunkKeywords` has the 27 entries
  that config.py:26-35 builds. The literal `(?i)\bpar\b` on config.py:31 has no trailing comma,
  so Python concatenates it with the next literal into a single pattern. The model keeps that
  fused entry as written and assumes the Python 3.10 behaviour, where it compiles but never
  matches (see "Left out").
- **Video mode.** `config.DOWNLOAD_VIDEO` is a parameter of the `Downloader` constructor, so both
  modes are modelled. The configured value is `Config.DownloadVideo = false`.
- **Times.** Times are whole milliseconds. The seconds group of a stamp contributes its whole
  seconds plus the first three fraction digits; shorter fractions are padded with zeros.

## Model

| member | source | states |
|---|---|---|
| `Registry.Registry.constructor` | registry.py:6-16 | the path is the registry file inside the download folder; the record is the loaded one, or `{"ids": [], "queries": {}}` when the file is missing or unreadable; nothing is saved yet |
| `Registry.Registry.Save` | registry.py:18-20 | the current record is written once more and is itself unchanged |
| `Registry.Registry.IsDownloaded` | registry.py:22-29 | true exactly when the query is recorded, or a non-empty id is among the recorded ids |
| `Registry.Registry.Add` | registry.py:31-34 | the record becomes `Added` of the old one and nothing is saved; afterwards the query counts as downloaded whatever id is asked, and a non-empty id makes every query count |
| `Registry.Added` | registry.py:31-34 | the query maps to the id and other queries keep theirs; the id is recorded; the old ids stay a prefix, and the list grows by one exactly when the id was new |
| `Registry.AddIdempotent` | registry.py:31-34 | adding the same pair twice is adding it once |
| `Registry.AddKeepsNoDup` | registry.py:32-33 | adding never makes the id list hold a duplicate |
| `Registry.AddKeepsConsistent` | registry.py:31-34 | when every query's id is recorded before an add, this still holds after it |
| `Registry.Kept` | registry.py:44 | the filtered ids are never more, and an id survives exactly when it was listed and is on disk |
| `Registry.KeptQueries` | registry.py:48-51 | a query survives exactly when its id is on disk, with its id unchanged |
| `Registry.KeptIdempotent` | registry.py:44 | filtering twice is filtering once |
| `Registry.KeptAll` | registry.py:44 | when every id is on disk the list is unchanged |
| `Registry.KeptShrinks` | registry.py:41-56 | the id list shrinks, which is when the record is saved, exactly when some listed id is not on disk |
| `Registry.KeptNoDup` | registry.py:44 | filtering never repeats an id |
| `Registry.SyncIdempotent` | registry.py:36-53 | syncing twice against the same disk is syncing once |
| `Registry.SyncKeepsConsistent` | registry.py:36-53 | syncing keeps every query's id among the recorded ids |
| `Registry.SyncTestsDisk` | registry.py:49-51 | queries are kept by testing their id against the disk, not against the id list: a query whose id was never listed survives |
| `Registry.Registry.SyncWithDisk` | registry.py:36-58 | the record becomes `Synced` of the old one, and is saved once exactly when the id list shrank |
| `Registry.Registry.KeepIds` | registry.py:44 | the list comprehension's loop gives `Kept` |
| `Registry.Registry.KeepQueries` | registry.py:48-53 | the dictionary loop gives `KeptQueries` |
| `MetadataUtils.Strike` | metadata_utils.py:10 | one substitution by the empty string only deletes characters: never longer, no new characters, and unchanged without a match |
| `MetadataUtils.RemoveJunk` | metadata_utils.py:9-10 | the whole deny-list pass only deletes characters |
| `MetadataUtils.RemoveNoJunk` | metadata_utils.py:9-10 | a deny-list that matches nothing leaves the text unchanged |
| `MetadataUtils.CollapseSpaces` | metadata_utils.py:12 | empty exactly for the empty text, never longer, a leading non-space kept, every whitespace left is a plain space, and no two spaces are adjacent |
| `MetadataUtils.CollapseKeeps` | metadata_utils.py:12 | collapsing leaves single-spaced text unchanged |
| `MetadataUtils.StripCleans` | metadata_utils.py:12 | trimming ` -–—\|` keeps the single-spacing and leaves no such glyph at either end |
| `MetadataUtils.CleanWith` | metadata_utils.py:5-13 | `None` or "" gives ""; otherwise the result is never longer than the input and is `Cleaned`: no trim glyph at either end, only plain spaces, never two in a row |
| `MetadataUtils.CleanWithKeepsCleaned` | metadata_utils.py:5-13 | a non-empty `Cleaned` text with no deny-list hits is returned unchanged |
| `MetadataUtils.CleanFixedPoints` | metadata_utils.py:5-13 | without deny-list hits, `clean_metadata(s) == s` exactly when `s` is `Cleaned` |
| `MetadataUtils.FindSep` | metadata_utils.py:27 | the leftmost spaced separator at or after a position, or none at all |
| `MetadataUtils.SplitAtFirstSep` | metadata_utils.py:27-28 | no split exactly when the text has no spaced separator; otherwise the texts before and after the leftmost one |
| `MetadataUtils.DashIsSep` | metadata_utils.py:36-37 | a title containing " - " always has a separator, so the step-3 split always gives two parts |
| `MetadataUtils.ExtractProfessionalMetadata` | metadata_utils.py:15-41 | both names are `Cleaned`; the call raises exactly when the tags are unusable and the record holds a null `title` |
| `MetadataUtils.SanitizeTotal` | metadata_utils.py:34-39 | step 3 never meets a null artist: an uploader fallback comes with a title that has no " - " |
| `MetadataUtils.TagsWin` | metadata_utils.py:19-24 | with a usable artist tag and track title, the display title and the uploader have no influence |
| `MetadataUtils.SplitsDisplayTitle` | metadata_utils.py:25-29 | without tags, the display title is split at its leftmost separator |
| `MetadataUtils.FallsBackToUploader` | metadata_utils.py:30-32 | without tags or a separator, the pair is the uploader (or "Unknown") and the whole title |
| `MetadataUtils.ResplitsTitle` | metadata_utils.py:36-39 | a title with " - " that contains the artist (ignoring case) is split again at its leftmost separator |
| `MetadataUtils.FilenameSpacedRule` | metadata_utils.py:48-52 | with a spaced separator in the stem, the artist is the trimmed text before the first one and the title the remaining pieces joined by spaces and trimmed |
| `MetadataUtils.SplitOnSingle` | metadata_utils.py:56 | splitting at a character that occurs once gives the text before and after it |
| `MetadataUtils.FilenameDashRule` | metadata_utils.py:55-58 | without a spaced separator and with exactly one bare dash, the stem is split at that dash |
| `MetadataUtils.FilenameUnknownRule` | metadata_utils.py:54-61 | with neither, the pair is ("Unknown", stem) |
| `FileProcessor.Pad` | file_processor.py:46 | a zero-padded field holds only digits and has at least the field width |
| `FileProcessor.NatToStringValue` | file_processor.py:48 | the decimal text of a number reads back as that number |
| `FileProcessor.PadValue` | file_processor.py:46 | zero padding does not change the value read back |
| `FileProcessor.PadWidth` | file_processor.py:46 | a number below `10^w` pads to exactly `w` digits |
| `FileProcessor.HourSplit` | file_processor.py:43-45 | hours, minutes below 60 and seconds below 60 recompose the seconds |
| `FileProcessor.TimecodeRoundTrip` | file_processor.py:41-46 | every `HH:MM:SS,mmm` timecode reads back as the millisecond time it was made from, so two times never share a timecode |
| `FileProcessor.SplitLinesFrom` | file_processor.py:14 | no line that `splitlines` yields holds a line boundary |
| `FileProcessor.LineUpTo` | file_processor.py:14 | a newline ends the current line |
| `FileProcessor.LastLine` | file_processor.py:14 | text after the last boundary is the last line |
| `FileProcessor.TwoLines` | file_processor.py:14 | two lines without boundaries joined by a newline split back into those two lines |
| `FileProcessor.DigitsEnd` | file_processor.py:19 | the scan stops at the end of a maximal run of digits |
| `FileProcessor.MatchStamp` | file_processor.py:19-23 | a match has non-empty digit groups, and gluing its groups back with the brackets and delimiters gives the line |
| `FileProcessor.MatchStampComplete` | file_processor.py:19-23 | every line of the stamped shape is matched, with its own groups |
| `FileProcessor.ParseLine` | file_processor.py:22-31 | a line gives a cue only when it matches; the cue's text is the stripped remainder and is never blank |
| `FileProcessor.StampedLine` | file_processor.py:23-31 | a stamped line with trimmed, non-blank text gives the cue at its stamp's time with that text |
| `FileProcessor.SecondsStamp` | file_processor.py:25-30 | `[00:0d.00]` starts at `d` seconds |
| `FileProcessor.CuesOfStep` | file_processor.py:22-31 | each further line appends at most its own cue |
| `FileProcessor.TwoParsed` | file_processor.py:22-31 | two lines that both parse give their two cues in line order |
| `FileProcessor.Blocks` | file_processor.py:36-39 | one block per cue, numbered from 1, with the cue's start and text; each block ends where the next starts, the last four seconds after its start |
| `FileProcessor.BlockLinesShape` | file_processor.py:48-51 | a block renders as four lines, the text third and a blank line last |
| `FileProcessor.RenderedLayout` | file_processor.py:48-51 | with four lines per block, block `i` owns output lines `4i` to `4i+3` |
| `FileProcessor.SrtLinesLayout` | file_processor.py:48-51 | the SRT lines are the blocks' four lines each, in block order |
| `FileProcessor.JoinEnding` | file_processor.py:54 | lines ending in a text and a blank line join into a result ending with newline, text, newline |
| `FileProcessor.SrtTextShape` | file_processor.py:33-54 | the SRT text is empty exactly when there are no cues; otherwise it ends with the last cue's text and a newline |
| `FileProcessor.SrtShape` | file_processor.py:11-54 | a falsy input gives ""; the output is empty exactly when no line qualifies; otherwise it ends with the last cue's text and a newline |
| `FileProcessor.LongMinutes` | file_processor.py:25-46 | minutes are not bounded: `[75:00.00]` starts at `01:15:00,000` |
| `FileProcessor.TwoBlocks` | file_processor.py:36-39 | two cues give two blocks: the first lasts until the second starts, the second four seconds |
| `FileProcessor.TwoStampedCues` | file_processor.py:14-31 | two stamped lines joined by a newline give the cues of their two stamps |
| `FileProcessor.TwoStampedLines` | file_processor.py:11-39 | two stamped lines give the blocks 1 and 2, the first ending where the second starts and the second four seconds long |
| `FileProcessor.LrcToSrt` | file_processor.py:6-54 | the two loops compute `Srt(lrc)` |
| `LyricsEngine.RemoveFrom` | lyrics_engine.py:19 | cutting occurrences out never lengthens the text |
| `LyricsEngine.RemoveAll` | lyrics_engine.py:19 | the substitution never lengthens the title |
| `LyricsEngine.RemoveAbsent` | lyrics_engine.py:19 | without an occurrence nothing is cut |
| `LyricsEngine.RemoveKeeps` | lyrics_engine.py:19 | a position where no occurrence starts is kept and the scan moves on by one |
| `LyricsEngine.RemoveDrops` | lyrics_engine.py:19 | an occurrence where the scan stands is dropped whole |
| `LyricsEngine.RemoveCutsFirst` | lyrics_engine.py:19 | the text before the leftmost occurrence (ignoring case) is kept, that occurrence is cut, and cutting goes on right after it; with `RemoveAbsent` this fixes the leftmost non-overlapping substitution |
| `LyricsEngine.RemoveShrinks` | lyrics_engine.py:19 | any occurrence makes the result shorter by at least the artist's length |
| `LyricsEngine.LowerContains` | lyrics_engine.py:18-19 | the lower-cased containment test implies an occurrence that the case-insensitive substitution finds |
| `LyricsEngine.Dedup` | lyrics_engine.py:18-19 | a title without the artist is unchanged; otherwise the result has no trim glyph at either end |
| `LyricsEngine.DedupCutsFirst` | lyrics_engine.py:18-19 | with the artist first occurring (ignoring case) at `j`, the result is the title before `j`, followed by the cut of every later occurrence, then trimmed |
| `LyricsEngine.DedupShrinks` | lyrics_engine.py:18-19 | with a non-empty artist in the title, the result is shorter than the title by at least the artist's length |
| `LyricsEngine.DedupExample` | lyrics_engine.py:17-19 | "Artist - Artist - Song" becomes "Song" |
| `LyricsEngine.Normalize` | lyrics_engine.py:17-23 | the title is de-duplicated; when the artist is "unknown" (any case) and that title holds " - ", the pair is that title split at its first " - "; otherwise the artist is kept with that title |
| `LyricsEngine.ArgsFor` | lyrics_engine.py:28-35 | every provider gets the artist and title; only LRCLIB also gets the duration |
| `LyricsEngine.FirstHitMeaning` | lyrics_engine.py:37-46 | the result is `None` exactly when every provider missed or raised, and then all were called; otherwise it is the first truthy result and no later provider was called |
| `LyricsEngine.FirstHitStep` | lyrics_engine.py:37-44 | the head provider's truthy result ends the chain; its miss defers to the rest |
| `LyricsEngine.AllMiss` | lyrics_engine.py:28-46 | with every provider missing, all six are called and the search gives `None` |
| `LyricsEngine.RaisedIsMiss` | lyrics_engine.py:38-44 | a provider that raises has the same effect as one that returns nothing |
| `LyricsEngine.TryInOrder` | lyrics_engine.py:37-46 | the loop returns the chain's result and calls exactly the providers up to the first hit |
| `LyricsEngine.Search` | lyrics_engine.py:12-46 | the providers are asked with the normalized pair; the result and the providers called are those of the chain |
| `LyricsEngine.GetLrclib` | lyrics_engine.py:48-53 | a non-200 status gives `None`; a 200 with a body that is not JSON raises; otherwise the synced lyrics when truthy, else the plain lyrics |
| `LyricsEngine.GetMegalyrics` | lyrics_engine.py:79-86 | a body that is not XML raises; otherwise the text of the first node typed `lrc` or with text, even when that text is empty, and `None` when no node qualifies |
| `CoverEngine.AlbumFilter` | cover_engine.py:23 | never longer; only letters, digits, space, `-` and `_` remain, and each such character of the name still occurs |
| `CoverEngine.AlbumFilterChar` | cover_engine.py:23 | one character is kept exactly when it is a letter, a digit, space, `-` or `_` |
| `CoverEngine.AlbumFilterAppend` | cover_engine.py:23 | the filter of a concatenation is the concatenation of the filters, so kept characters stay in order and every occurrence is kept |
| `CoverEngine.FilterKeeps` | cover_engine.py:23 | a name of kept characters filters to itself |
| `CoverEngine.PlainName` | cover_engine.py:23-24 | a trimmed name of kept characters is its own clean name, and it is generic exactly when its lower case is a placeholder or it is shorter than three characters |
| `CoverEngine.GenericExamples` | cover_engine.py:24 | "Video", "UNKNOWN" and "EP" are generic; "Abbey Road" is not |
| `CoverEngine.CacheIsNotIcon` | cover_engine.py:49-53 | the album cache and the folder cover never share a path |
| `CoverEngine.Square` | image_processor.py:6-7 | data shorter than 100 bytes is refused |
| `CoverEngine.ReplaceAll` | cover_engine.py:92 | a URL without the small-artwork marker is unchanged |
| `CoverEngine.ProcessResult` | cover_engine.py:89-95 | a result without an artwork URL, or whose download fails, gives no image |
| `CoverEngine.ItunesCover` | cover_engine.py:59-79 | when the strict search reports results, only it is sent and its first result decides, even without an image (a missing first result raises); otherwise the title alone is searched too, no results give no image, and its first result is used only when either lowercased artist name contains the other; a null artist name raises |
| `CoverEngine.ArtistExamples` | cover_engine.py:73-74 | "Queen" accepts "queen (band)"; "Adele" rejects "sam smith" |
| `CoverEngine.EmptyArtistAccepted` | cover_engine.py:73-74 | a result without an artist name is always accepted |
| `CoverEngine.Query` | cover_engine.py:13-20 | both names are cleaned; an "unknown" artist is replaced by the title's part before its first " - " and the title by the rest |
| `CoverEngine.WithThumbnail` | cover_engine.py:35-41 | the thumbnail is fetched only without an image and with a URL, and used only on status 200 |
| `CoverEngine.Persisted` | cover_engine.py:43-55 | with an image and a real album, the cache file is written and `cover.jpg` is written only when absent; no other path is touched; otherwise nothing is written |
| `CoverEngine.CacheShortCircuit` | cover_engine.py:26-30 | a cached real album is answered from its cache file, with no search and no write |
| `CoverEngine.IconWrittenOnce` | cover_engine.py:43-55 | an existing `cover.jpg` is never overwritten, and a generic album writes nothing |
| `CoverEngine.PersistedKeepsIcon` | cover_engine.py:52-55 | persisting never overwrites an existing folder cover |
| `CoverEngine.GenericStillReturns` | cover_engine.py:43-57 | a generic album still gets the image found; genericity only suppresses the writes |
| `CoverEngine.CoverEngine.constructor` | cover_engine.py:8-10 | the engine starts with the given network and folder contents |
| `CoverEngine.CoverEngine.CleanQuery` | cover_engine.py:13-20 | the statements compute `Query` |
| `CoverEngine.CoverEngine.FindCover` | cover_engine.py:32-41 | the iTunes search and the thumbnail fallback compute the lookup's image and search terms |
| `CoverEngine.CoverEngine.Persist` | cover_engine.py:43-55 | the writes give `Persisted` of the old folder |
| `CoverEngine.CoverEngine.GetCover` | cover_engine.py:12-57 | the result, the new folder contents and the searches sent are those of `Cover` |
| `MainFlow.CodePart` | main.py:100-101 | the text before the first `//`: a prefix with no `//`, followed in the line by `//` when there is one, and the whole line otherwise |
| `MainFlow.CommentInUrl` | main.py:100-101 | the comment cut also fires inside a URL: "https://x" becomes "https:" |
| `MainFlow.Enter` | main.py:107-117 | a header of depth `d` keeps the first `d-1` folders (all when fewer) and then its own name |
| `MainFlow.Feed` | main.py:98-128 | a blank line changes nothing; a header replaces the stack by `Enter` of it and keeps the tasks; a song keeps the stack and appends the task of its cleaned line with the download folder joined with the stack as its folder |
| `MainFlow.TasksAreSongs` | main.py:85-130 | exactly one task per song line, in file order, with that line as its query |
| `MainFlow.TasksGrow` | main.py:98-128 | later lines only append tasks: the tasks of a prefix of the file are a prefix of all its tasks |
| `MainFlow.SongTask` | main.py:119-128 | the song on line `j` gets the task at the position the lines before it filled, with its cleaned line as query and the download folder joined with the stack those lines left as its folder |
| `MainFlow.HeaderThenSong` | main.py:107-128 | a song right after a first header goes to that header's folder under the download folder, whatever the header's depth |
| `MainFlow.ParseSongList` | main.py:85-130 | the loop gives the tasks of `Parse` |
| `MainFlow.FeedLine` | main.py:99-128 | one pass of the loop has the effect `Feed` describes |
| `MainFlow.ExtractEmbeddedLyrics` | main.py:12-20 | a file that cannot be read as MP3 gives no lyrics |
| `MainFlow.SearchPair` | main.py:64-68 | the tag artist and title ("Unknown" when missing), or the file name's reading when the artist is "Unknown" |
| `MainFlow.FoundLyrics` | main.py:50-72 | a readable non-empty `.lrc` wins, then the embedded lyrics, then the online search with the file's pair and length; a file that is not MP3 gives nothing truthy |
| `MainFlow.SidecarsDiffer` | main.py:39-40 | the `.lrc` and `.srt` paths of a file never coincide |
| `MainFlow.WithSidecars` | main.py:75-82 | nothing changes when both sidecars exist or no lyrics were found; existing files are never changed; only the two sidecars can appear; a missing `.lrc` gets the lyrics and a missing `.srt` the non-empty conversion; the lyrics are embedded exactly when a sidecar is missing and lyrics were found, even when no file is written |
| `MainFlow.RepairOne` | main.py:35 | a file that is not an `.mp3` is ignored |
| `MainFlow.RepairWritesOnlyMissing` | main.py:35-82 | for an MP3, nothing happens when both sidecars exist; existing files are kept; only missing sidecars are written, with the lyrics found and their non-empty conversion |
| `MainFlow.RepairAllKeeps` | main.py:22-83 | the whole walk never changes or deletes an existing file |
| `MainFlow.LookUpLyrics` | main.py:50-72 | the three lookups compute `FoundLyrics` |
| `MainFlow.RepairFile` | main.py:34-83 | one file's repair has the effect `RepairOne` describes |
| `MainFlow.ProcessExistingLibrary` | main.py:22-83 | the walk has the effect `RepairAll` describes |
| `Files.ReadText` | main.py:53-56 | a file is read exactly when it exists and is text, giving its text |
| `Files.Disk.WriteText` | main.py:77 | writing replaces or creates one file and changes nothing else |
| `Files.Disk.Embed` | file_processor.py:56-95 | an embedding request is recorded; the files do not change |
| `Downloader.Merge` | downloader.py:39 | the merged keys are both key sets, the mode's value wins, the base value is kept otherwise |
| `Downloader.YdlOptsContents` | downloader.py:9-39 | the merged options hold every key of both dictionaries, keep `noplaylist` off and `ignoreerrors` on, take the mode's output template, and hold the post-processor list exactly in audio mode and the merge format exactly in video mode |
| `Downloader.CurrentOpts` | downloader.py:58-59 | the copy has the same keys plus `outtmpl`, the query's template, and every other option unchanged |
| `Downloader.OutputPathNotEmpty` | downloader.py:50 | the output folder is never empty: an empty target falls back to the download folder |
| `Downloader.SearchQueryKeepsQuery` | downloader.py:61 | the query always ends what is searched, and is sent unchanged exactly when it starts with `http` |
| `Downloader.VideoList` | downloader.py:69-74 | the entries of a listing, or the one record itself; the query stops exactly when the expansion raised, found nothing, or gave a null entry list |
| `Downloader.TrackUrl` | downloader.py:90-98 | `webpage_url`, else `url`, else the watch URL of `id`, else nothing |
| `Downloader.TrackUrlFound` | downloader.py:90-98 | a URL is found exactly when one of the three fields is non-empty, and it is never empty |
| `Downloader.FinalFileExt` | downloader.py:109-114 | the final file carries the mode's extension, and a predicted name that already has it is kept |
| `Downloader.Saved` | downloader.py:124-144 | with lyrics: the `.lrc` is written even over an existing file; the `.srt` only when the conversion is not empty; no other path changes; the lyrics are embedded only in audio mode; without lyrics nothing changes |
| `Downloader.ExistingIsSkipped` | downloader.py:112-118 | a track whose final file exists is skipped: no download, no search, no write |
| `Downloader.AcquiredFootprint` | downloader.py:112-144 | after the metadata step, at most one download happens, of a final file that did not exist; existing files other than its two sidecars are untouched; video mode embeds nothing |
| `Downloader.TrackFootprint` | downloader.py:85-149 | a whole track, whatever fails inside it, stays within that footprint |
| `Downloader.TracksAppend` | downloader.py:77-79 | the entries of a query are processed one after another |
| `Downloader.FailureIsContained` | downloader.py:77-149 | a track whose extraction raises does not stop the tracks after it |
| `Downloader.ExpansionFailureStops` | downloader.py:64-83 | an exception while expanding the query ends it before any track |
| `Downloader.Downloader.constructor` | downloader.py:9-39 | the base options, the mode's options and their merge for the given mode; no downloads yet |
| `Downloader.Downloader.ProcessQuery` | downloader.py:41-83 | the files and downloads after the query are those of `Query`, and the object's options are not changed |
| `Downloader.Downloader.DownloadAndProcessTrack` | downloader.py:85-149 | the files and downloads after one entry are those of `Track` |
| `Downloader.Downloader.Acquire` | downloader.py:106-144 | from the existence check on, the effect is that of `Acquired` |
| `Downloader.Downloader.SaveSidecars` | downloader.py:124-144 | the writes give `Saved` |

## Left out

- Network, HTTP sessions, headers and timeouts: providers, the iTunes API, thumbnail downloads and
  yt-dlp are parameters given as functions. NetEase, QQ Music, Gecimi and Lyrics.ovh
  (lyrics_engine.py:55-77, 88-100) appear only as outcomes of such a function, since their bodies
  are requests and JSON or base64 decoding.
- `MetadataUtils.CleanWith`: for the fused deny-list entry `(?i)\bpar\b(?i)\b8\s?bit\b`, the
  model assumes Python 3.10 or earlier. There a mid-pattern global flag is only deprecated, and the
  entry never matches, because `\b` cannot hold between `r` and `8`. On Python 3.11 and later,
  `re.sub` raises `re.error` for that entry. `clean_metadata` would then raise on every non-empty
  text, and so would the metadata step of every track. That raise is not modelled: the entry acts
  through the same total `Matcher` as the others.
- Regular-expression semantics of the deny-list: each pattern acts through an abstract `Matcher`.
  Case-insensitive matching and the other regular expressions are written out by hand.
- `lower()`, `isalnum()` and `\d` are modelled for ASCII only. Whitespace is Python's
  `str.isspace` set.
- Float arithmetic in `lrc_to_srt` and `format_time`: times are exact whole milliseconds. The
  fraction beyond three digits is truncated, where Python's float rounding could differ by one
  millisecond.
- `embed_lyrics` (file_processor.py:56-98): only the request is recorded. The ID3 tag writes, and
  the failures it swallows, are not modelled.
- `image_processor.process_to_square_jpg` beyond its size check: cropping and JPEG encoding are a
  given function.
- Reading MP3 tags (mutagen): a given `TagReader`.
- The media file yt-dlp writes: only the list of final paths handed to `process_info` is kept, so
  a later existence check does not see a freshly downloaded file.
- `os.walk`: the walk is a given list of (folder, file name) pairs. The early return when the
  download folder does not exist is the empty walk.
- `os.makedirs`, `print`, the logger and `time.sleep`: no effect on the modelled state.
- Failing writes (`open(..., "w")` raising) are not modelled. A write always succeeds.
- `main()` (main.py:132-160) is not modelled. It only wires `parse_song_list`, `process_query` and
  `process_existing_library` together.
- JSON loading of the registry file: the constructor receives the parsed record or `None`.
- Info values that are not strings, and float durations: info fields are optional strings, and
  durations are integers.
- An iTunes reply without `resultCount`, which raises a `KeyError`, is not modelled. The reply
  always has the field.
- `Downloader.Downloader.ProcessQuery`: the `prepare_filename` call raising inside a track is
  not modelled; yt-dlp's `prepare` is total.
