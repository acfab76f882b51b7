/** The records the application passes around (types.ts). */
module Types {
  import opened Wrappers

  /** A playlist entry: `query` is the full playlist line and the key of
      both cache tiers. */
  datatype SongItem = SongItem(artist: string, title: string, query: string)

  /** What the lyrics panel shows; the application only ever fills `lyricsHtml`. */
  datatype SongData = SongData(lyrics: Option<string>, lyricsHtml: Option<string>)

  datatype LoadingState = Idle | SearchingLyrics | GeneratingFurigana | Completed | Error

  /** The application's React state record. */
  datatype AppState = AppState(
    currentSong: Option<SongItem>,
    songData: Option<SongData>,
    status: LoadingState,
    errorMsg: Option<string>)
}
