/**
  The offline database generator of scripts/generate_db.js: its own song
  list, the reply cleanup of `fetchLyrics`, and the resumable loop of
  `main` that fills the lyrics dictionary in place.

  Each remote call is an input `Reply`; the database file read at start
  is the input `existing` (the empty dictionary when the file is absent
  or does not decode); file writes and the rate-limiting delay are not
  modelled.
*/
module GenerateDb {
  import opened Wrappers
  import opened Text
  import opened Replies
  import Playlist

  const SEPARATOR := " - "
  const NOT_FOUND := "NOT_FOUND"
  /** Entries longer than this many UTF-16 units count as already generated. */
  const SKIP_LENGTH := 50

  /** `rawList.trim().split('\n').map(line => line.trim())`: no filter. */
  function SongList(raw: string): (songs: seq<string>)
    ensures var lines := Playlist.Lines(raw);
      |songs| == |lines| && forall i :: 0 <= i < |songs| ==> songs[i] == Trim(lines[i])
  {
    var lines := Playlist.Lines(raw);
    seq(|lines|, i requires 0 <= i < |lines| => Trim(lines[i]))
  }

  /** Every song of the generator's list is trimmed and holds no line
      feed. */
  lemma SongListSong(raw: string, i: nat)
    requires i < |SongList(raw)|
    ensures Trim(SongList(raw)[i]) == SongList(raw)[i]
    ensures '\n' !in SongList(raw)[i]
  {
    var lines := Playlist.Lines(raw);
    SplitPiecesFree(Trim(raw), "\n");
    assert !Contains(lines[i], "\n");
    ContainsChar(lines[i], '\n');
    TrimAbsent(lines[i], '\n');
    TrimIdempotent(lines[i]);
  }

  /** Nothing is filtered: the generator's list has an entry for every
      line, so it is never shorter than the playlist. */
  lemma SongListCoversPlaylist(raw: string)
    ensures |Playlist.ParseSongList(raw)| <= |SongList(raw)|
  {
    Playlist.ParseSongListShape(raw);
  }

  /** The title and artist `fetchLyrics` puts in its prompt: the first
      piece of the split and the second piece, or `''` when there is none;
      nothing is trimmed. */
  function TitleArtist(query: string): (string, string) {
    var parts := Split(query, SEPARATOR);
    (parts[0], if |parts| >= 2 then parts[1] else "")
  }

  /** The title is the text before the first separator and the artist the
      text up to the next one; without a separator the whole query is the
      title and the artist is empty. */
  lemma TitleArtistSpec(query: string)
    ensures !Contains(query, SEPARATOR) ==> TitleArtist(query) == (query, "")
    ensures Contains(query, SEPARATOR) ==>
      IndexOf(query, SEPARATOR).Some?
      && var i := IndexOf(query, SEPARATOR).value;
         var rest := query[i + |SEPARATOR|..];
         TitleArtist(query).0 == query[..i]
         && TitleArtist(query).1 == Split(rest, SEPARATOR)[0]
         && !Contains(TitleArtist(query).1, SEPARATOR)
  {
    SplitSingle(query, SEPARATOR);
    if Contains(query, SEPARATOR) {
      SplitFirst(query, SEPARATOR);
      var i := IndexOf(query, SEPARATOR).value;
      var rest := query[i + |SEPARATOR|..];
      assert Split(query, SEPARATOR) == [query[..i]] + Split(rest, SEPARATOR);
      SplitPiecesFree(rest, SEPARATOR);
    }
  }

  /** What `fetchLyrics` returns: `None` when the call threw or had no
      text, the empty text as it is, and any other trimmed text with its
      fences stripped. */
  function FetchLyricsResult(reply: Reply): Option<string> {
    match ReplyText(reply)
    case None => None
    case Some(text) => if text == "" then Some(text) else Some(StripHtmlFences(text))
  }

  /** `html && html !== "NOT_FOUND"`: the only results `main` stores. */
  predicate Storable(html: Option<string>) {
    html.Some? && html.value != "" && html.value != NOT_FOUND
  }

  /** `db[song] && db[song].length > 50`. */
  predicate AlreadyGenerated(db: map<string, string>, song: string) {
    song in db && db[song] != "" && Utf16Length(db[song]) > SKIP_LENGTH
  }

  /** The dictionary and the songs fetched so far, in order. */
  datatype Run = Run(db: map<string, string>, fetched: seq<string>)

  /** One iteration of the loop of `main`. */
  function ResumeStep(run: Run, song: string, html: Option<string>): Run {
    if AlreadyGenerated(run.db, song) then run
    else
      var db := if Storable(html) then run.db[song := html.value] else run.db;
      Run(db, run.fetched + [song])
  }

  /** The loop of `main` over the first `|songs|` songs. */
  function Resume(existing: map<string, string>, songs: seq<string>, results: seq<Option<string>>): Run
    requires |results| == |songs|
  {
    if |songs| == 0 then Run(existing, [])
    else
      var n := |songs| - 1;
      ResumeStep(Resume(existing, songs[..n], results[..n]), songs[n], results[n])
  }

  /** What `fetchLyrics` returns for each reply. */
  function FetchResults(replies: seq<Reply>): (results: seq<Option<string>>)
    ensures |results| == |replies|
    ensures forall i :: 0 <= i < |replies| ==> results[i] == FetchLyricsResult(replies[i])
  {
    seq(|replies|, i requires 0 <= i < |replies| => FetchLyricsResult(replies[i]))
  }

  /** `main`, from the loaded database on: the replies are what the calls
      for the songs that are not skipped produce (the reply for a skipped
      song is never looked at). */
  method GenerateDatabase(existing: map<string, string>, songs: seq<string>, replies: seq<Reply>)
    returns (db: map<string, string>, fetched: seq<string>)
    requires |replies| == |songs|
    ensures Run(db, fetched) == Resume(existing, songs, FetchResults(replies))
  {
    ghost var results := FetchResults(replies);
    db, fetched := existing, [];
    for i := 0 to |songs|
      invariant Run(db, fetched) == Resume(existing, songs[..i], results[..i])
    {
      assert songs[..i + 1][..i] == songs[..i] && results[..i + 1][..i] == results[..i];
      var song := songs[i];
      if song in db && db[song] != "" && Utf16Length(db[song]) > SKIP_LENGTH {
        continue;
      }
      var html := FetchLyricsResult(replies[i]);
      fetched := fetched + [song];
      if html.Some? && html.value != "" && html.value != NOT_FOUND {
        db := db[song := html.value];
      }
    }
    assert songs[..|songs|] == songs && results[..|results|] == results;
  }

  /** The loop never removes a key. */
  lemma {:induction false} ResumeKeepsKeys(existing: map<string, string>, songs: seq<string>, results: seq<Option<string>>)
    requires |results| == |songs|
    ensures existing.Keys <= Resume(existing, songs, results).db.Keys
  {
    if |songs| > 0 {
      var n := |songs| - 1;
      ResumeKeepsKeys(existing, songs[..n], results[..n]);
    }
  }

  /** Keys that are not songs of the list keep their presence and value. */
  lemma {:induction false} ResumeOnlySongKeys(existing: map<string, string>, songs: seq<string>,
                                               results: seq<Option<string>>, key: string)
    requires |results| == |songs|
    requires key !in songs
    ensures var db := Resume(existing, songs, results).db;
      (key in db <==> key in existing) && (key in existing ==> db[key] == existing[key])
  {
    if |songs| > 0 {
      var n := |songs| - 1;
      assert key in songs[..n] ==> key in songs;
      ResumeOnlySongKeys(existing, songs[..n], results[..n], key);
    }
  }

  /** A key of the dictionary after one step was written by that step
      with the storable result, or was there before with the same value. */
  lemma ResumeStepEntry(run: Run, song: string, html: Option<string>, key: string)
    requires key in ResumeStep(run, song, html).db
    ensures var v := ResumeStep(run, song, html).db[key];
      (key == song && !AlreadyGenerated(run.db, song) && Storable(html)
       && html == Some(v))
      || (key in run.db && run.db[key] == v)
  {
  }

  /** Every value the loop wrote is the storable result fetched for its
      song: non-empty and not the bare sentinel. */
  lemma {:induction false} ResumeWritesStorable(existing: map<string, string>, songs: seq<string>,
                                                 results: seq<Option<string>>, key: string)
    requires |results| == |songs|
    requires key in Resume(existing, songs, results).db
    requires key !in existing || Resume(existing, songs, results).db[key] != existing[key]
    ensures var v := Resume(existing, songs, results).db[key];
      v != "" && v != NOT_FOUND
      && exists i :: 0 <= i < |songs| && songs[i] == key && results[i] == Some(v)
  {
    if |songs| > 0 {
      var n := |songs| - 1;
      var before := Resume(existing, songs[..n], results[..n]);
      var v := Resume(existing, songs, results).db[key];
      ResumeStepEntry(before, songs[n], results[n], key);
      if key in before.db && before.db[key] == v {
        ResumeWritesStorable(existing, songs[..n], results[..n], key);
        var i :| 0 <= i < n && songs[..n][i] == key && results[..n][i] == Some(v);
        assert songs[i] == key && results[i] == Some(v);
        assert v != "" && v != NOT_FOUND
          && exists j :: 0 <= j < |songs| && songs[j] == key && results[j] == Some(v);
      } else {
        assert songs[n] == key && results[n] == Some(v);
        assert v != "" && v != NOT_FOUND
          && exists j :: 0 <= j < |songs| && songs[j] == key && results[j] == Some(v);
      }
    }
  }

  /** An existing entry longer than 50 units is never fetched and never
      overwritten. */
  lemma {:induction false} ResumeKeepsGenerated(existing: map<string, string>, songs: seq<string>,
                                                 results: seq<Option<string>>, key: string)
    requires |results| == |songs|
    requires AlreadyGenerated(existing, key)
    ensures var run := Resume(existing, songs, results);
      key in run.db && run.db[key] == existing[key] && key !in run.fetched
  {
    if |songs| > 0 {
      var n := |songs| - 1;
      ResumeKeepsGenerated(existing, songs[..n], results[..n], key);
    }
  }

  /** Every song the loop fetched was not already generated at start. */
  lemma {:induction false} ResumeFetchesOnlyMissing(existing: map<string, string>, songs: seq<string>,
                                                     results: seq<Option<string>>)
    requires |results| == |songs|
    ensures var run := Resume(existing, songs, results);
      |run.fetched| <= |songs|
      && forall s :: s in run.fetched ==> s in songs && !AlreadyGenerated(existing, s)
  {
    if |songs| > 0 {
      var n := |songs| - 1;
      ResumeFetchesOnlyMissing(existing, songs[..n], results[..n]);
      forall s | s in Resume(existing, songs, results).fetched
        ensures s in songs && !AlreadyGenerated(existing, s)
      {
        if AlreadyGenerated(existing, s) {
          ResumeKeepsGenerated(existing, songs, results, s);
        }
        if s in Resume(existing, songs[..n], results[..n]).fetched {
          assert s in songs[..n];
        }
      }
    }
  }

  const FENCED_SENTINEL := "```html\nNOT_FOUND\n```"

  /** `fetchLyrics` turns a fenced sentinel into the sentinel between
      line breaks. */
  lemma FencedSentinelFetched(reply: Reply)
    requires reply.Replied? && reply.text == Some(FENCED_SENTINEL)
    ensures FetchLyricsResult(reply) == Some("\nNOT_FOUND\n")
  {
    var text := FENCED_SENTINEL;
    assert Trim(text) == text by {
      assert !IsWhitespace(text[0]);
      assert TrimStart(text) == text;
      assert TrimEnd(text) == text;
    }
    FencedSentinelKeepsNewlines();
  }

  /** A fenced sentinel reply for a song not yet generated is stored: its
      fences go but its line breaks stay, so the stored text is not the
      bare sentinel. */
  lemma FencedSentinelStored(existing: map<string, string>, song: string, reply: Reply)
    requires !AlreadyGenerated(existing, song)
    requires reply.Replied? && reply.text == Some(FENCED_SENTINEL)
    ensures Resume(existing, [song], FetchResults([reply])).db == existing[song := "\nNOT_FOUND\n"]
  {
    var html := Some("\nNOT_FOUND\n");
    FencedSentinelFetched(reply);
    SingleFetchResult(reply);
    assert Storable(html);
    ResumeSingle(existing, song, html);
    ResumeStepStores(Run(existing, []), song, html);
  }

  /** The results of a single reply. */
  lemma SingleFetchResult(reply: Reply)
    ensures FetchResults([reply]) == [FetchLyricsResult(reply)]
  {
  }

  /** A song not yet generated with a storable result gets that result. */
  lemma ResumeStepStores(run: Run, song: string, html: Option<string>)
    requires !AlreadyGenerated(run.db, song) && Storable(html)
    ensures ResumeStep(run, song, html).db == run.db[song := html.value]
  {
  }

  /** The loop over one song is one step from the loaded dictionary. */
  lemma ResumeSingle(existing: map<string, string>, song: string, html: Option<string>)
    ensures Resume(existing, [song], [html]) == ResumeStep(Run(existing, []), song, html)
  {
    assert [song][..0] == [] && [html][..0] == [];
  }

  /** The query of an entry of the application's playlist parsed from
      the same raw list is a song of the generator's list. */
  lemma PlaylistQueryListed(raw: string, k: nat)
    requires k < |Playlist.ParseSongList(raw)|
    ensures Playlist.ParseSongList(raw)[k].query in SongList(raw)
  {
    var j := Playlist.SongLine(raw, k);
    assert SongList(raw)[j] == Playlist.ParseSongList(raw)[k].query;
  }

  /** Every query of the application's playlist is a song of the
      generator's list: both lists come from the same lines. */
  lemma PlaylistQueriesListed(raw: string)
    ensures forall item :: item in Playlist.ParseSongList(raw) ==> item.query in SongList(raw)
  {
    var songs := Playlist.ParseSongList(raw);
    forall item | item in songs
      ensures item.query in SongList(raw)
    {
      var k :| 0 <= k < |songs| && songs[k] == item;
      PlaylistQueryListed(raw, k);
    }
  }
}
