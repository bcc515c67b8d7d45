/** The part of the file system the library code reads and writes: text sidecars, media files,
    and the lyrics embedded into MP3 tags. */
module Files {
  import opened Wrappers

  /** A file: UTF-8 text, or binary data that cannot be read as text. */
  datatype Content = Text(text: string) | Media

  /** One `embed_lyrics(path, lyrics)` request. */
  datatype Embedding = Embedding(path: string, lyrics: string)

  /** The files by path, and the embedding requests made so far. */
  datatype Fs = Fs(files: map<string, Content>, embeds: seq<Embedding>)

  /** Reading a file as UTF-8 text: `None` when it is missing or not text. */
  function ReadText(fs: Fs, path: string): (r: Option<string>)
    ensures r.Some? <==> path in fs.files && fs.files[path].Text?
    ensures r.Some? ==> r.value == fs.files[path].text
  {
    if path in fs.files && fs.files[path].Text? then Some(fs.files[path].text) else None
  }

  /** The file system as a mutable object. */
  class Disk {
    var fs: Fs

    constructor (fs: Fs)
      ensures this.fs == fs
    {
      this.fs := fs;
    }

    /** `open(path, "w").write(text)`. */
    method WriteText(path: string, text: string)
      modifies this
      ensures fs == old(fs).(files := old(fs).files[path := Text(text)])
    {
      fs := fs.(files := fs.files[path := Text(text)]);
    }

    /** `embed_lyrics(path, lyrics)`: the tag writes themselves are not modelled. */
    method Embed(path: string, lyrics: string)
      modifies this
      ensures fs == old(fs).(embeds := old(fs).embeds + [Embedding(path, lyrics)])
    {
      fs := fs.(embeds := fs.embeds + [Embedding(path, lyrics)]);
    }
  }
}
