/** Constants of the program's configuration file that the core reads. */
module Config {

  const DownloadDir: string := "/app/downloads"
  const RegistryFile: string := ".registry.json"

  /** False: audio (MP3) mode; true: video (MP4) mode. */
  const DownloadVideo: bool := false

  /** The deny-list, in order, as the source text of each regular expression. The list has
      27 entries: the literal `(?i)\bpar\b` lacks its trailing comma, so Python concatenates
      it with the next literal into the single pattern `(?i)\bpar\b(?i)\b8\s?bit\b`. Python 3.11
      and later refuse a global flag after the start of a pattern, so that entry raises; earlier
      versions accept it, and it can never match, since `\b` cannot hold between `r` and `8`. */
  const JunkKeywords: seq<string> := [
    "\\(Official Music Video\\)", "\\(Official Video\\)", "\\(Official Audio\\)",
    "\\(Lyric Video\\)", "\\(Lyrics\\)", "\\[HQ\\]", "\\[HD\\]", "\\[4K\\]",
    "\\(Remastered\\)", "\\(Live\\)", "\\(Video\\)", "Official Music Video",
    "Official Video", "VEVO", "- Topic",
    "(?i)\\bby\\b", "(?i)\\bpar\\b(?i)\\b8\\s?bit\\b",
    "(?i)\\barranged\\s+by\\b", "(?i)\\bperformed\\s+by\\b",
    "(?i)\\bft\\b", "(?i)\\bfeat\\b", "(?i)\\bversion\\b", "(?i)\\bost\\b",
    "(?i)\\bsoundtrack\\b", "(?i)\\btheme\\b", "\\(.*?\\)", "\\[.*?\\]"
  ]
}
