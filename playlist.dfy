/**
  The playlist of constants.ts: the raw list is trimmed, split into lines,
  each line is split on `' - '` into a title and an artist, and entries
  without a title are dropped.
*/
module Playlist {
  import opened Text
  import opened Types

  const SEPARATOR := " - "
  const UNKNOWN_ARTIST := "Unknown"
  const LINE_FEED := "\n"

  /** The `map` callback: the text before the first separator is the
      title, everything after it (later separators included) the artist;
      a line without a separator is all title, by an unknown artist. */
  function ParseLine(line: string): SongItem {
    var parts := Split(line, SEPARATOR);
    if |parts| >= 2 then
      SongItem(Trim(Join(parts[1..], SEPARATOR)), Trim(parts[0]), Trim(line))
    else
      SongItem(UNKNOWN_ARTIST, Trim(line), Trim(line))
  }

  /** `rawList.trim().split('\n')`. */
  function Lines(raw: string): seq<string> {
    Split(Trim(raw), LINE_FEED)
  }

  /** `.filter(item => item.title)`. */
  function KeepTitled(items: seq<SongItem>): (r: seq<SongItem>)
    ensures |r| <= |items|
    ensures forall k :: 0 <= k < |r| ==> r[k].title != ""
  {
    if |items| == 0 then []
    else
      var last := items[|items| - 1];
      var rest := KeepTitled(items[..|items| - 1]);
      if last.title != "" then rest + [last] else rest
  }

  /** The positions of the items with a title, in increasing order. */
  function TitledIndices(items: seq<SongItem>): (idx: seq<nat>)
    ensures |idx| <= |items|
    ensures forall k :: 0 <= k < |idx| ==> idx[k] < |items| && items[idx[k]].title != ""
    ensures forall k, l :: 0 <= k < l < |idx| ==> idx[k] < idx[l]
    ensures forall i :: 0 <= i < |items| && items[i].title != "" ==> i in idx
  {
    if |items| == 0 then []
    else
      var n := |items| - 1;
      var rest := TitledIndices(items[..n]);
      if items[n].title != "" then rest + [n] else rest
  }

  /** Every line parsed, before the filter. */
  function ParsedLines(raw: string): (items: seq<SongItem>)
    ensures |items| == |Lines(raw)|
    ensures forall i :: 0 <= i < |items| ==> items[i] == ParseLine(Lines(raw)[i])
  {
    var lines := Lines(raw);
    seq(|lines|, i requires 0 <= i < |lines| => ParseLine(lines[i]))
  }

  /** `SONG_LIST`. */
  function ParseSongList(raw: string): seq<SongItem> {
    KeepTitled(ParsedLines(raw))
  }

  /** The filter keeps exactly the items with a title, in their order. */
  lemma {:induction false} KeepTitledInOrder(items: seq<SongItem>)
    ensures var r := KeepTitled(items); var idx := TitledIndices(items);
      |r| == |idx| && forall k :: 0 <= k < |r| ==> r[k] == items[idx[k]]
  {
    if |items| > 0 {
      var n := |items| - 1;
      KeepTitledInOrder(items[..n]);
      var rest := KeepTitled(items[..n]);
      var restIdx := TitledIndices(items[..n]);
      var r := KeepTitled(items);
      var idx := TitledIndices(items);
      assert |r| == |idx|;
      forall k | 0 <= k < |r|
        ensures r[k] == items[idx[k]]
      {
        if k < |rest| {
          assert r[k] == rest[k] && idx[k] == restIdx[k];
          assert rest[k] == items[..n][restIdx[k]];
        }
      }
    }
  }

  /** With a separator, the title is the trimmed text before its first
      occurrence and the artist the trimmed text after it. */
  lemma ParseLineWithSeparator(line: string)
    requires Contains(line, SEPARATOR)
    ensures IndexOf(line, SEPARATOR).Some?
    ensures var i := IndexOf(line, SEPARATOR).value; var item := ParseLine(line);
      item.title == Trim(line[..i]) && item.artist == Trim(line[i + |SEPARATOR|..])
  {
    SplitFirst(line, SEPARATOR);
  }

  /** Without a separator the line is the title and the artist is unknown. */
  lemma ParseLineWithoutSeparator(line: string)
    requires !Contains(line, SEPARATOR)
    ensures ParseLine(line) == SongItem(UNKNOWN_ARTIST, Trim(line), Trim(line))
  {
    SplitSingle(line, SEPARATOR);
  }

  /** The title piece, a separator and the rejoined artist pieces are the line again. */
  lemma ParseLineRoundTrip(line: string)
    requires |Split(line, SEPARATOR)| >= 2
    ensures var parts := Split(line, SEPARATOR);
      parts[0] + SEPARATOR + Join(parts[1..], SEPARATOR) == line
  {
    JoinSplit(line, SEPARATOR);
    JoinCons(Split(line, SEPARATOR), SEPARATOR);
  }

  /** No title contains the separator. */
  lemma ParseLineTitleFree(line: string)
    ensures !Contains(ParseLine(line).title, SEPARATOR)
  {
    var parts := Split(line, SEPARATOR);
    SplitPiecesFree(line, SEPARATOR);
    var piece := if |parts| >= 2 then parts[0] else line;
    if |parts| < 2 {
      SplitSingle(line, SEPARATOR);
    }
    assert !Contains(piece, SEPARATOR);
    TrimContained(piece);
    if Contains(Trim(piece), SEPARATOR) {
      ContainsTransitive(piece, Trim(piece), SEPARATOR);
    }
  }

  /** The playlist has one entry per line with a title, in line order,
      each parsed from its line. */
  lemma ParseSongListShape(raw: string)
    ensures var lines := Lines(raw);
      var idx := TitledIndices(ParsedLines(raw));
      var songs := ParseSongList(raw);
      |songs| == |idx| <= |lines|
      && (forall k :: 0 <= k < |songs| ==>
            idx[k] < |lines| && songs[k] == ParseLine(lines[idx[k]]) && songs[k].title != ""
            && songs[k].query == Trim(lines[idx[k]]))
      && (forall k, l :: 0 <= k < l < |songs| ==> idx[k] < idx[l])
  {
    KeepTitledInOrder(ParsedLines(raw));
  }

  /** The line an entry of the playlist was parsed from. */
  lemma SongLine(raw: string, k: nat) returns (j: nat)
    requires k < |ParseSongList(raw)|
    ensures j < |Lines(raw)| && ParseSongList(raw)[k].query == Trim(Lines(raw)[j])
  {
    ParseSongListShape(raw);
    j := TitledIndices(ParsedLines(raw))[k];
  }
}
