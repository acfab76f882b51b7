/**
  The bookkeeping of App.tsx: the browser cache of annotated lyrics, the
  preload loop with its success and failure counters, and the state
  transitions of a song selection.

  The browser storage is the field `cache`; whether a `setItem` throws
  (a quota error) is an input, and so is the outcome of each call of the
  lyrics pipeline. The confirmation dialog is the input `confirmed`, and
  the final alert is the returned report.
*/
module AppModel {
  import opened Wrappers
  import opened Types

  const CACHE_PREFIX := "jpop_lyrics_v1_"
  const LOAD_ERROR_MESSAGE := "歌詞の読み込みに失敗しました。後でもう一度お試しください。"

  /** The storage key of a song's annotated lyrics. */
  function CacheKey(song: SongItem): string {
    CACHE_PREFIX + song.query
  }

  /** Two songs share a cache entry exactly when they share a query. */
  lemma CacheKeyInjective(a: SongItem, b: SongItem)
    ensures CacheKey(a) == CacheKey(b) <==> a.query == b.query
  {
    if CacheKey(a) == CacheKey(b) {
      assert a.query == CacheKey(a)[|CACHE_PREFIX|..];
      assert b.query == CacheKey(b)[|CACHE_PREFIX|..];
    }
  }

  /** The `isLoading` flag handed to the song list: a request is in flight. */
  function IsLoading(status: LoadingState): (r: bool)
    ensures r <==> status == SearchingLyrics || status == GeneratingFurigana
  {
    status != Idle && status != Completed && status != Error
  }

  /** `localStorage.getItem(key)` is truthy: present and non-empty. */
  predicate CacheHit(cache: map<string, string>, key: string) {
    key in cache && cache[key] != ""
  }

  /** What awaiting `fetchLyricsWithRuby` gave: a string, or an exception. */
  datatype FetchOutcome = Returned(html: string) | Failed

  /** The cache, the two counters and the songs fetched so far. */
  datatype PreloadRun = PreloadRun(
    cache: map<string, string>, successCount: nat, failCount: nat, fetched: seq<SongItem>)

  /** One iteration of the preload loop: a cached song is a success with
      no fetch; otherwise a non-empty fetch result is written and is a
      success, and a failed fetch, an empty result or a write that throws
      is a failure. */
  function PreloadStep(run: PreloadRun, song: SongItem, outcome: FetchOutcome, writeFails: bool): PreloadRun {
    var key := CacheKey(song);
    if CacheHit(run.cache, key) then run.(successCount := run.successCount + 1)
    else
      var fetched := run.fetched + [song];
      match outcome
      case Returned(html) =>
        if html == "" then run.(failCount := run.failCount + 1, fetched := fetched)
        else if writeFails then run.(failCount := run.failCount + 1, fetched := fetched)
        else PreloadRun(run.cache[key := html], run.successCount + 1, run.failCount, fetched)
      case Failed => run.(failCount := run.failCount + 1, fetched := fetched)
  }

  /** The preload loop over the first `|songs|` songs. */
  function Preload(cache: map<string, string>, songs: seq<SongItem>,
                   outcomes: seq<FetchOutcome>, writeFails: seq<bool>): PreloadRun
    requires |outcomes| == |songs| && |writeFails| == |songs|
  {
    if |songs| == 0 then PreloadRun(cache, 0, 0, [])
    else
      var n := |songs| - 1;
      PreloadStep(Preload(cache, songs[..n], outcomes[..n], writeFails[..n]), songs[n], outcomes[n], writeFails[n])
  }

  /** Each song counts exactly once, as a success or as a failure. */
  lemma {:induction false} PreloadCounts(cache: map<string, string>, songs: seq<SongItem>,
                                          outcomes: seq<FetchOutcome>, writeFails: seq<bool>)
    requires |outcomes| == |songs| && |writeFails| == |songs|
    ensures var run := Preload(cache, songs, outcomes, writeFails);
      run.successCount + run.failCount == |songs|
  {
    if |songs| > 0 {
      var n := |songs| - 1;
      PreloadCounts(cache, songs[..n], outcomes[..n], writeFails[..n]);
    }
  }

  /** The fetch-and-write of one iteration stores markup: the call
      returned a non-empty string and `setItem` did not throw. */
  predicate Stored(outcome: FetchOutcome, writeFails: bool) {
    outcome.Returned? && outcome.html != "" && !writeFails
  }

  /** The counting rule of one iteration: a cache hit or a stored result
      adds one success, anything else (a failed call, an empty result, a
      write that throws) adds one failure; exactly the songs that miss the
      cache are fetched. */
  lemma PreloadStepCounts(run: PreloadRun, song: SongItem, outcome: FetchOutcome, writeFails: bool)
    ensures var next := PreloadStep(run, song, outcome, writeFails);
      var succeeds := CacheHit(run.cache, CacheKey(song)) || Stored(outcome, writeFails);
      next.successCount == run.successCount + (if succeeds then 1 else 0)
      && next.failCount == run.failCount + (if succeeds then 0 else 1)
      && next.fetched == run.fetched + (if CacheHit(run.cache, CacheKey(song)) then [] else [song])
  {
  }

  /** Song `i` found no entry in the cache as the loop left it before its turn. */
  predicate MissingAt(cache: map<string, string>, songs: seq<SongItem>,
                      outcomes: seq<FetchOutcome>, writeFails: seq<bool>, i: nat)
    requires |outcomes| == |songs| && |writeFails| == |songs| && i < |songs|
  {
    !CacheHit(Preload(cache, songs[..i], outcomes[..i], writeFails[..i]).cache, CacheKey(songs[i]))
  }

  /** Whether a turn counts as a failure is the same in a longer run. */
  lemma MissingAtPrefix(cache: map<string, string>, songs: seq<SongItem>,
                        outcomes: seq<FetchOutcome>, writeFails: seq<bool>, n: nat, i: nat)
    requires |outcomes| == |songs| && |writeFails| == |songs| && i < n <= |songs|
    ensures MissingAt(cache, songs[..n], outcomes[..n], writeFails[..n], i)
            == MissingAt(cache, songs, outcomes, writeFails, i)
  {
    assert songs[..n][..i] == songs[..i] && outcomes[..n][..i] == outcomes[..i]
           && writeFails[..n][..i] == writeFails[..i];
  }

  /** The turns that count as failures, in increasing order: the song
      missed the cache at its turn and its result was not stored. */
  function FailedTurns(cache: map<string, string>, songs: seq<SongItem>,
                       outcomes: seq<FetchOutcome>, writeFails: seq<bool>): (idx: seq<nat>)
    requires |outcomes| == |songs| && |writeFails| == |songs|
    ensures |idx| <= |songs|
    ensures forall k :: 0 <= k < |idx| ==> idx[k] < |songs|
    ensures forall k, l :: 0 <= k < l < |idx| ==> idx[k] < idx[l]
  {
    if |songs| == 0 then []
    else
      var n := |songs| - 1;
      var rest := FailedTurns(cache, songs[..n], outcomes[..n], writeFails[..n]);
      if MissingAt(cache, songs, outcomes, writeFails, n) && !Stored(outcomes[n], writeFails[n])
      then rest + [n] else rest
  }

  /** The failed turns of a run are those of the run without its last
      song, then the last turn when it fails. */
  lemma FailedTurnsStep(cache: map<string, string>, songs: seq<SongItem>,
                        outcomes: seq<FetchOutcome>, writeFails: seq<bool>)
    requires |outcomes| == |songs| && |writeFails| == |songs| && |songs| > 0
    ensures var n := |songs| - 1;
      var rest := FailedTurns(cache, songs[..n], outcomes[..n], writeFails[..n]);
      FailedTurns(cache, songs, outcomes, writeFails)
      == if MissingAt(cache, songs, outcomes, writeFails, n) && !Stored(outcomes[n], writeFails[n])
         then rest + [n] else rest
  {
  }

  /** Every failed turn missed the cache and did not store its result. */
  lemma {:induction false} FailedTurnsSound(cache: map<string, string>, songs: seq<SongItem>,
                                             outcomes: seq<FetchOutcome>, writeFails: seq<bool>, k: nat)
    requires |outcomes| == |songs| && |writeFails| == |songs|
    requires k < |FailedTurns(cache, songs, outcomes, writeFails)|
    ensures var i := FailedTurns(cache, songs, outcomes, writeFails)[k];
      MissingAt(cache, songs, outcomes, writeFails, i) && !Stored(outcomes[i], writeFails[i])
  {
    var n := |songs| - 1;
    var rest := FailedTurns(cache, songs[..n], outcomes[..n], writeFails[..n]);
    FailedTurnsStep(cache, songs, outcomes, writeFails);
    if k < |rest| {
      FailedTurnsSound(cache, songs[..n], outcomes[..n], writeFails[..n], k);
      var i := rest[k];
      assert FailedTurns(cache, songs, outcomes, writeFails)[k] == i;
      MissingAtPrefix(cache, songs, outcomes, writeFails, n, i);
      assert outcomes[..n][i] == outcomes[i] && writeFails[..n][i] == writeFails[i];
    }
  }

  /** Every turn that missed the cache and did not store its result is
      a failed turn. */
  lemma {:induction false} FailedTurnsComplete(cache: map<string, string>, songs: seq<SongItem>,
                                                outcomes: seq<FetchOutcome>, writeFails: seq<bool>, i: nat)
    requires |outcomes| == |songs| && |writeFails| == |songs| && i < |songs|
    requires MissingAt(cache, songs, outcomes, writeFails, i) && !Stored(outcomes[i], writeFails[i])
    ensures i in FailedTurns(cache, songs, outcomes, writeFails)
  {
    var n := |songs| - 1;
    FailedTurnsStep(cache, songs, outcomes, writeFails);
    if i < n {
      MissingAtPrefix(cache, songs, outcomes, writeFails, n, i);
      assert outcomes[..n][i] == outcomes[i] && writeFails[..n][i] == writeFails[i];
      FailedTurnsComplete(cache, songs[..n], outcomes[..n], writeFails[..n], i);
    }
  }

  /** The alert's counts: the failures are exactly the failed turns and
      every other song is a success. */
  lemma {:induction false} PreloadFailures(cache: map<string, string>, songs: seq<SongItem>,
                                            outcomes: seq<FetchOutcome>, writeFails: seq<bool>)
    requires |outcomes| == |songs| && |writeFails| == |songs|
    ensures var run := Preload(cache, songs, outcomes, writeFails);
      var failed := FailedTurns(cache, songs, outcomes, writeFails);
      run.failCount == |failed| && run.successCount == |songs| - |failed|
  {
    PreloadFailCount(cache, songs, outcomes, writeFails);
    PreloadCounts(cache, songs, outcomes, writeFails);
  }

  /** The failure counter counts the failed turns. */
  lemma {:induction false} PreloadFailCount(cache: map<string, string>, songs: seq<SongItem>,
                                             outcomes: seq<FetchOutcome>, writeFails: seq<bool>)
    requires |outcomes| == |songs| && |writeFails| == |songs|
    ensures Preload(cache, songs, outcomes, writeFails).failCount
            == |FailedTurns(cache, songs, outcomes, writeFails)|
  {
    if |songs| > 0 {
      var n := |songs| - 1;
      PreloadFailCount(cache, songs[..n], outcomes[..n], writeFails[..n]);
      var before := Preload(cache, songs[..n], outcomes[..n], writeFails[..n]);
      PreloadStepCounts(before, songs[n], outcomes[n], writeFails[n]);
      assert MissingAt(cache, songs, outcomes, writeFails, n) == !CacheHit(before.cache, CacheKey(songs[n]));
      FailedTurnsStep(cache, songs, outcomes, writeFails);
    }
  }

  /** Only a fetched song can fail: a cache hit is always a success. */
  lemma {:induction false} PreloadFailsOnlyFetched(cache: map<string, string>, songs: seq<SongItem>,
                                                    outcomes: seq<FetchOutcome>, writeFails: seq<bool>)
    requires |outcomes| == |songs| && |writeFails| == |songs|
    ensures var run := Preload(cache, songs, outcomes, writeFails);
      run.failCount <= |run.fetched|
  {
    if |songs| > 0 {
      var n := |songs| - 1;
      PreloadFailsOnlyFetched(cache, songs[..n], outcomes[..n], writeFails[..n]);
      PreloadStepCounts(Preload(cache, songs[..n], outcomes[..n], writeFails[..n]), songs[n], outcomes[n], writeFails[n]);
    }
  }

  /** No entry is removed; a cached entry keeps its value. */
  lemma {:induction false} PreloadKeepsEntries(cache: map<string, string>, songs: seq<SongItem>,
                                                outcomes: seq<FetchOutcome>, writeFails: seq<bool>)
    requires |outcomes| == |songs| && |writeFails| == |songs|
    ensures var result := Preload(cache, songs, outcomes, writeFails).cache;
      cache.Keys <= result.Keys
      && forall key :: CacheHit(cache, key) ==> result[key] == cache[key]
  {
    if |songs| > 0 {
      var n := |songs| - 1;
      PreloadKeepsEntries(cache, songs[..n], outcomes[..n], writeFails[..n]);
    }
  }

  /** Only songs of the list that were missing from the cache at the
      start are fetched, and there are no more fetches than songs. */
  lemma {:induction false} PreloadFetchesOnlyMissing(cache: map<string, string>, songs: seq<SongItem>,
                                                      outcomes: seq<FetchOutcome>, writeFails: seq<bool>)
    requires |outcomes| == |songs| && |writeFails| == |songs|
    ensures var run := Preload(cache, songs, outcomes, writeFails);
      |run.fetched| <= |songs|
      && forall s :: s in run.fetched ==> s in songs && !CacheHit(cache, CacheKey(s))
  {
    if |songs| > 0 {
      var n := |songs| - 1;
      PreloadFetchesOnlyMissing(cache, songs[..n], outcomes[..n], writeFails[..n]);
      PreloadKeepsEntries(cache, songs[..n], outcomes[..n], writeFails[..n]);
      var before := Preload(cache, songs[..n], outcomes[..n], writeFails[..n]);
      forall s | s in Preload(cache, songs, outcomes, writeFails).fetched
        ensures s in songs && !CacheHit(cache, CacheKey(s))
      {
        if s in before.fetched {
          assert s in songs[..n];
        }
      }
    }
  }

  /** Keys of no song of the list keep their presence and value. */
  lemma {:induction false} PreloadOtherKeys(cache: map<string, string>, songs: seq<SongItem>,
                                             outcomes: seq<FetchOutcome>, writeFails: seq<bool>, key: string)
    requires |outcomes| == |songs| && |writeFails| == |songs|
    requires forall i :: 0 <= i < |songs| ==> CacheKey(songs[i]) != key
    ensures var result := Preload(cache, songs, outcomes, writeFails).cache;
      (key in result <==> key in cache) && (key in cache ==> result[key] == cache[key])
  {
    if |songs| > 0 {
      var n := |songs| - 1;
      PreloadOtherKeys(cache, songs[..n], outcomes[..n], writeFails[..n], key);
    }
  }

  /** Every entry the loop wrote holds the non-empty markup fetched for a
      song of that key, on an iteration whose write did not throw. */
  lemma {:induction false} PreloadWritesFetched(cache: map<string, string>, songs: seq<SongItem>,
                                                 outcomes: seq<FetchOutcome>, writeFails: seq<bool>, key: string)
    requires |outcomes| == |songs| && |writeFails| == |songs|
    requires key in Preload(cache, songs, outcomes, writeFails).cache
    requires key !in cache || Preload(cache, songs, outcomes, writeFails).cache[key] != cache[key]
    ensures var v := Preload(cache, songs, outcomes, writeFails).cache[key];
      v != ""
      && exists i :: 0 <= i < |songs| && CacheKey(songs[i]) == key && outcomes[i] == Returned(v) && !writeFails[i]
  {
    if |songs| > 0 {
      var n := |songs| - 1;
      var before := Preload(cache, songs[..n], outcomes[..n], writeFails[..n]);
      var v := Preload(cache, songs, outcomes, writeFails).cache[key];
      if key == CacheKey(songs[n]) && !CacheHit(before.cache, key)
         && outcomes[n].Returned? && outcomes[n].html != "" && !writeFails[n] {
        assert outcomes[n] == Returned(v);
      } else {
        assert key in before.cache && before.cache[key] == v;
        PreloadWritesFetched(cache, songs[..n], outcomes[..n], writeFails[..n], key);
        var i :| 0 <= i < n && CacheKey(songs[..n][i]) == key
                 && outcomes[..n][i] == Returned(v) && !writeFails[..n][i];
        assert songs[i] == songs[..n][i] && outcomes[i] == outcomes[..n][i] && writeFails[i] == writeFails[..n][i];
      }
    }
  }

  /** When every fetch returns markup and every write succeeds, nothing
      fails and every song of the list ends up cached. */
  lemma {:induction false} PreloadAllSucceed(cache: map<string, string>, songs: seq<SongItem>,
                                              outcomes: seq<FetchOutcome>, writeFails: seq<bool>)
    requires |outcomes| == |songs| && |writeFails| == |songs|
    requires forall i :: 0 <= i < |songs| ==> outcomes[i].Returned? && outcomes[i].html != "" && !writeFails[i]
    ensures var run := Preload(cache, songs, outcomes, writeFails);
      run.failCount == 0 && forall s :: s in songs ==> CacheHit(run.cache, CacheKey(s))
  {
    if |songs| > 0 {
      var n := |songs| - 1;
      PreloadAllSucceed(cache, songs[..n], outcomes[..n], writeFails[..n]);
      var before := Preload(cache, songs[..n], outcomes[..n], writeFails[..n]);
      var after := Preload(cache, songs, outcomes, writeFails);
      forall s | s in songs
        ensures CacheHit(after.cache, CacheKey(s))
      {
        if s != songs[n] {
          assert s in songs[..n];
          assert CacheHit(before.cache, CacheKey(s));
        }
      }
    }
  }

  /** The counts the final alert reports. */
  datatype PreloadReport = PreloadReport(successCount: nat, failCount: nat)

  /** The component's state record and the browser storage it writes. */
  class App {
    var state: AppState
    var cache: map<string, string>

    /** The initial render, over whatever the storage already holds. */
    constructor (stored: map<string, string>)
      ensures state == AppState(None, None, Idle, None) && cache == stored
    {
      state := AppState(None, None, Idle, None);
      cache := stored;
    }

    /** `handlePreloadAll`: nothing happens unless the dialog is
        confirmed; then every song of the list is checked against the
        cache and fetched when missing. `outcomes[i]` and `writeFails[i]`
        are what the fetch and the write for `songs[i]` would do. */
    method HandlePreloadAll(songs: seq<SongItem>, confirmed: bool,
                            outcomes: seq<FetchOutcome>, writeFails: seq<bool>)
      returns (report: Option<PreloadReport>, fetched: seq<SongItem>)
      requires |outcomes| == |songs| && |writeFails| == |songs|
      modifies this`cache
      ensures !confirmed ==> report == None && fetched == [] && cache == old(cache)
      ensures confirmed ==>
        var run := Preload(old(cache), songs, outcomes, writeFails);
        report == Some(PreloadReport(run.successCount, run.failCount))
        && fetched == run.fetched && cache == run.cache
    {
      if !confirmed {
        return None, [];
      }
      var successCount, failCount := 0, 0;
      fetched := [];
      for i := 0 to |songs|
        invariant Preload(old(cache), songs[..i], outcomes[..i], writeFails[..i])
                  == PreloadRun(cache, successCount, failCount, fetched)
      {
        assert songs[..i + 1][..i] == songs[..i] && outcomes[..i + 1][..i] == outcomes[..i]
               && writeFails[..i + 1][..i] == writeFails[..i];
        var key := CacheKey(songs[i]);
        if key in cache && cache[key] != "" {
          successCount := successCount + 1;
          continue;
        }
        fetched := fetched + [songs[i]];
        match outcomes[i]
        case Returned(html) =>
          if html != "" {
            if writeFails[i] {
              failCount := failCount + 1;
            } else {
              cache := cache[key := html];
              successCount := successCount + 1;
            }
          } else {
            failCount := failCount + 1;
          }
        case Failed =>
          failCount := failCount + 1;
      }
      assert songs[..|songs|] == songs && outcomes[..|songs|] == outcomes && writeFails[..|songs|] == writeFails;
      return Some(PreloadReport(successCount, failCount)), fetched;
    }

    /** `handleSongSelect`: `trace` lists the state after each update, and
        `fetched` says whether the pipeline was called. The selection is
        shown at once; a cached entry completes it without a fetch; a
        fetched markup is written (a throwing write is ignored) and
        completes it; a failed or empty fetch ends in the error state
        with the cache untouched. */
    method HandleSongSelect(song: SongItem, outcome: FetchOutcome, writeFails: bool)
      returns (trace: seq<AppState>, fetched: bool)
      modifies this
      ensures var selected := old(state).(currentSong := Some(song), songData := None,
                                          status := SearchingLyrics, errorMsg := None);
        |trace| >= 2 && trace[0] == selected && state == trace[|trace| - 1]
      ensures fetched <==> !CacheHit(old(cache), CacheKey(song))
      ensures CacheHit(old(cache), CacheKey(song)) ==>
        cache == old(cache)
        && trace[1..] == [trace[0].(songData := Some(SongData(None, Some(old(cache)[CacheKey(song)]))),
                                    status := Completed)]
      ensures !CacheHit(old(cache), CacheKey(song)) && outcome.Returned? && outcome.html != "" ==>
        cache == (if writeFails then old(cache) else old(cache)[CacheKey(song) := outcome.html])
        && trace[1..] == [trace[0].(status := GeneratingFurigana),
                          trace[0].(songData := Some(SongData(None, Some(outcome.html))), status := Completed)]
      ensures !CacheHit(old(cache), CacheKey(song)) && (outcome.Failed? || outcome.html == "") ==>
        cache == old(cache)
        && trace[1..] == [trace[0].(status := GeneratingFurigana),
                          trace[0].(status := Error, errorMsg := Some(LOAD_ERROR_MESSAGE))]
    {
      state := state.(currentSong := Some(song), songData := None, status := SearchingLyrics, errorMsg := None);
      trace := [state];
      var key := CacheKey(song);
      if key in cache && cache[key] != "" {
        state := state.(songData := Some(SongData(None, Some(cache[key]))), status := Completed);
        trace := trace + [state];
        return trace, false;
      }
      state := state.(status := GeneratingFurigana);
      trace := trace + [state];
      fetched := true;
      if outcome.Failed? || outcome.html == "" {
        state := state.(status := Error, errorMsg := Some(LOAD_ERROR_MESSAGE));
        trace := trace + [state];
        return;
      }
      if !writeFails {
        cache := cache[key := outcome.html];
      }
      state := state.(songData := Some(SongData(None, Some(outcome.html))), status := Completed);
      trace := trace + [state];
    }
  }
}
