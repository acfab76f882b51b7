# J-Pop lyrics with furigana: a Dafny model

The application shows Japanese pop lyrics with furigana (small kana
readings over kanji, written as HTML `<ruby>` markup). Its core is a
lyrics pipeline with these stages:

1. A bundled static database is tried first.
2. A search-grounded call to a generative model comes next.
3. A plain memory-recall call comes after that.
4. An annotation call adds the `<ruby>` readings, with a mechanical
   fallback when it fails.
5. An attribution block is appended last.

Around the pipeline sit three more pieces:

- a browser cache of finished markup;
- a preload loop that fills that cache for the whole playlist;
- an offline generator that builds the static database resumably.

This project models that core and proves what the code promises.

Modules, one per source file (plus three shared ones: `Wrappers`, `Text` and `Replies`):

- `Wrappers`: `Option` and `Result`.
- `Text`: the JavaScript string built-ins the code relies on. These are
  `trim`, whose whitespace set is modelled exactly as ECMAScript defines
  it, along with `includes`, `indexOf`, `split`/`join` on a string
  separator, literal prefix and suffix removal, and `length` counted in
  UTF-16 code units.
- `Types`: the records of `types.ts`.
- `Replies`: a remote call's reply, plus the two markdown-fence
  cleanups.
- `Gemini` (`services/geminiService.ts`):
  - the acceptance tests of search and recall;
  - deduplicated grounding sources;
  - `simpleFormat` and the three outcomes of `formatLyrics`;
  - the attribution `div`;
  - the class `Service`, holding the module-level `staticDb` /
    `isDbLoaded` state, with `loadStaticDatabase` and
    `fetchLyricsWithRuby`.
- `Playlist` (`constants.ts`): the `rawList → SONG_LIST` parse.
- `GenerateDb` (`scripts/generate_db.js`):
  - the generator's own song list;
  - the title/artist split;
  - the reply cleanup of `fetchLyrics`;
  - the resume loop of `main`, as a method over a dictionary, proved
    against a fold over prefixes.
- `AppModel` (`App.tsx`):
  - the cache key;
  - `isLoading`;
  - the class `App`, holding the state record and the cache map, with
    `handlePreloadAll` (a loop proved against a fold) and
    `handleSongSelect` (a sequence of state updates).

Everything outside the program is an input:

- Each remote call is a `Reply` value: the call threw, or it returned
  optional text and grounding URIs.
- The URL standard's hostname parser is a function parameter
  `hostOf: string -> Option<string>`: `None` for a URL that `new URL`
  rejects, otherwise the hostname, which may be empty.
- API-key presence is a boolean.
- The database download is a `DbResponse`.
- What awaiting `fetchLyricsWithRuby` gives the component in App.tsx
  (a string, or an exception) is a `FetchOutcome`.
- A quota failure on a cache write is a boolean.

Facts about the code that the model keeps:

- The service tries two retrieval strategies: grounded search, then
  memory recall (services/geminiService.ts:246-267).
- Search accepts text of 50 or more UTF-16 units, and recall accepts
  text of 20 or more (services/geminiService.ts:101 and 159).
- A static-database hit is returned before the API key is checked
  (services/geminiService.ts:232-244).
- Sources are deduplicated by their full URL
  (services/geminiService.ts:117).
- A source whose URL `new URL` rejects still takes one of the three
  slots and shows as an empty string. A URL that parses with an empty
  hostname (such as `mailto:a@b`) still gets its anchor, with empty link
  text (services/geminiService.ts:281-287).
- The cleanup of retrieved text removes an optional `html`, `json` or
  `text` fence tag and trims afterwards (services/geminiService.ts:97).
- The annotation cleanup removes ```` ```html ````, then ```` ``` ````,
  then a trailing ```` ``` ````, and does not trim afterwards
  (services/geminiService.ts:214).

The generator's exact `!== "NOT_FOUND"` test has a consequence. A fenced
sentinel reply ```` ```html\nNOT_FOUND\n``` ```` is stored as
`"\nNOT_FOUND\n"`, which `GenerateDb.FencedSentinelStored` states.

## Model

| member | source | states |
|---|---|---|
| Text.TrimStart | services/geminiService.ts:93 | the result is a suffix of the input, only whitespace was dropped, and it does not start with whitespace |
| Text.TrimEnd | services/geminiService.ts:93 | the result is a prefix of the input, only whitespace was dropped, and it does not end with whitespace |
| Text.TrimEdges | services/geminiService.ts:93 | a trimmed string neither starts nor ends with JavaScript whitespace |
| Text.TrimSlice | services/geminiService.ts:93 | the trimmed string is the slice of the input after its leading whitespace, with only whitespace on either side |
| Text.TrimContained | services/geminiService.ts:93 | `trim()` yields a piece of its input |
| Text.TrimAbsent | services/geminiService.ts:58 | trimming never introduces a character that the input lacks |
| Text.TrimIdempotent | services/geminiService.ts:97 | trimming an already trimmed string changes nothing |
| Text.FindFrom | constants.ts:49 | the result is the first occurrence of the needle at or after the start index, or none exists |
| Text.IndexOfContains | services/geminiService.ts:101 | `includes` holds exactly when `indexOf` finds an occurrence |
| Text.ContainsTransitive | services/geminiService.ts:217 | a piece of a piece of a string is a piece of the string |
| Text.ContainsChar | services/geminiService.ts:58 | a one-character needle occurs exactly when that character is in the string |
| Text.Split | constants.ts:47 | `split` on a non-empty separator yields at least one piece |
| Text.JoinSplit | constants.ts:49-52 | joining the pieces of a split with the same separator restores the string |
| Text.OccurrenceSplits | constants.ts:49 | an occurrence of a needle cuts the string into the text before it, the needle and the text after it |
| Text.SplitPiecesFree | constants.ts:49 | no piece of a split contains the separator |
| Text.SplitSingle | constants.ts:50 | a split has one piece exactly when the separator is absent, and that piece is the whole string |
| Text.SplitFirst | constants.ts:49-52 | the first piece is the text before the first separator and the other pieces rejoin to the text after it |
| Text.SplitAtChar | services/geminiService.ts:58 | a one-character split peels off the text before the first occurrence of that character |
| Text.JoinFree | services/geminiService.ts:58 | joining pieces and a separator that lack a character gives a string without it |
| Text.StripPrefix | services/geminiService.ts:214 | an anchored literal prefix is removed exactly when present, and nothing else changes |
| Text.StripSuffix | services/geminiService.ts:214 | an anchored literal suffix is removed exactly when present, and nothing else changes |
| Text.StripContained | services/geminiService.ts:214 | what remains after removing a prefix or a suffix is a piece of the original |
| Text.Utf16Length | services/geminiService.ts:101 | `length` lies between the number of characters and twice that, and equals it for text inside the Basic Multilingual Plane |
| Replies.ReplyTextPiece | services/geminiService.ts:93 | the reply text that is kept is already trimmed (trimming again changes nothing) and is a piece of the text the call returned |
| Replies.LongerFenceIsFence | services/geminiService.ts:97 | a string opening with a tagged fence opens with a bare fence |
| Replies.CleanRetrievedContained | services/geminiService.ts:96-98 | the cleaned retrieval text is a piece of the reply text |
| Replies.CleanRetrievedUnfenced | services/geminiService.ts:96-98 | without fences the cleanup only trims |
| Replies.StripHtmlFencesContained | services/geminiService.ts:214 | fence stripping keeps a piece of its input and cuts at most 13 characters |
| Replies.StripHtmlFencesUnfenced | services/geminiService.ts:214 | fence stripping leaves unfenced text alone |
| Replies.FencedSentinelKeepsNewlines | scripts/generate_db.js:112 | ```` ```html\nNOT_FOUND\n``` ```` is stripped to `"\nNOT_FOUND\n"`, since nothing is trimmed afterwards |
| Gemini.Strings | services/geminiService.ts:112-115 | the string URIs are exactly the present ones among the grounding chunks |
| Gemini.StringsAppend | services/geminiService.ts:112-115 | the URIs of two runs of chunks are those of the first run followed by those of the second, so chunk order is kept |
| Gemini.StringsSingle | services/geminiService.ts:112-115 | one chunk gives its URI when it has a string one, and nothing otherwise |
| Gemini.Dedupe | services/geminiService.ts:117 | same elements as the input and no duplicates |
| Gemini.DedupeFirstOccurrenceOrder | services/geminiService.ts:117 | of two deduplicated URIs, the earlier one first occurs in the input before the later one occurs at all |
| Gemini.SearchAcceptance | services/geminiService.ts:93-117 | search yields a result exactly when the cleaned text is non-empty, free of `NOT_FOUND`, at least 50 UTF-16 units long and holds a Hiragana, Katakana or Kanji character; the accepted text has nothing left to trim and is a piece of the reply |
| Gemini.RecallAcceptance | services/geminiService.ts:153-168 | the same test with a minimum of 20 units |
| Gemini.AcceptedPiece | services/geminiService.ts:93-98 | accepted text is non-empty, already trimmed, and a piece of the raw reply text |
| Gemini.RecallAcceptsWhatSearchAccepts | services/geminiService.ts:153-168 | recall accepts any reply search accepts, with the same text |
| Gemini.SearchSources | services/geminiService.ts:112-117 | search sources are distinct and are exactly the string `web.uri` values |
| Gemini.TrimAllPieces | services/geminiService.ts:58 | each formatted line is already trimmed and is a piece of its source line |
| Gemini.SimpleFormatNoNewline | services/geminiService.ts:58 | the mechanical format contains no line feed |
| Gemini.SimpleFormatLine | services/geminiService.ts:58 | a single line is only trimmed |
| Gemini.SimpleFormatLines | services/geminiService.ts:58 | the first line is trimmed and followed by `<br/>` and the format of the rest |
| Gemini.FormatLyricsOutcomes | services/geminiService.ts:211-225 | the three outcomes: the fallback when the reply has no text, the output plus the warning when kanji input meets output without `<ruby>`, the cleaned output otherwise |
| Gemini.FormatFallback | services/geminiService.ts:222-225 | a thrown or empty reply gives the line-feed-free mechanical format followed by the failure notice |
| Gemini.AnnotationNeverSilentlyIncomplete | services/geminiService.ts:216-225 | for kanji input the markup has `<ruby>` or ends in one of the two notices |
| Gemini.AttributionFrame | services/geminiService.ts:280-291 | the block is one attribution `div`; without sources it holds the internal-knowledge line |
| Gemini.AttributionLinks | services/geminiService.ts:280-288 | with sources: at most three links, one per source among the first three; empty for a URL that `new URL` rejects, otherwise a link to the URL showing its hostname, which may be empty |
| Gemini.AttributionIgnoresExtraSources | services/geminiService.ts:281 | sources after the third never show |
| Gemini.AttributionTwoSources | services/geminiService.ts:280-288 | two sources give exactly their two links, in order, between the heading and the closing tag |
| Gemini.Retrieve | services/geminiService.ts:246-267 | search first; recall only when search yields nothing; grounded text and sources come from search, recalled text from recall, and the text is non-empty |
| Gemini.Service.constructor | services/geminiService.ts:40-41 | no database and not loaded |
| Gemini.Service.LoadStaticDatabase | services/geminiService.ts:43-56 | afterwards the database counts as loaded; a repeat call changes nothing; the entries are recorded only from an ok response that decodes |
| Gemini.Service.FetchLyricsWithRuby | services/geminiService.ts:232-294 | a static hit returns the stored entry with no remote call, before the key check; a missing key fails on a miss; otherwise search, then recall, then annotation, with the exact calls and status messages of each path, `Lyrics Not Found on Web` when both fail, and markup that is never empty |
| Playlist.KeepTitled | constants.ts:65 | the filter keeps no item with an empty title and never lengthens the list |
| Playlist.TitledIndices | constants.ts:65 | the positions of the titled items, strictly increasing, complete |
| Playlist.KeepTitledInOrder | constants.ts:65 | the filter output is exactly the titled items at those positions, in order |
| Playlist.ParseLineWithSeparator | constants.ts:49-57 | with `' - '` present, the title is the trimmed text before its first occurrence and the artist the trimmed text after it, later separators included |
| Playlist.ParseLineWithoutSeparator | constants.ts:59-63 | without `' - '`, title and query are the trimmed line and the artist is `Unknown` |
| Playlist.ParseLineRoundTrip | constants.ts:49-52 | `parts[0] + ' - ' + parts.slice(1).join(' - ')` is the line |
| Playlist.ParseLineTitleFree | constants.ts:49-51 | no title contains `' - '` |
| Playlist.ParseSongListShape | constants.ts:45-65 | the list has one entry per titled line, in line order, not longer than the lines, each with a non-empty title and the trimmed line as query |
| GenerateDb.SongListSong | scripts/generate_db.js:68 | every song of the generator's list is trimmed and holds no line feed |
| GenerateDb.SongListCoversPlaylist | scripts/generate_db.js:68 | with no filter, the generator's list is never shorter than the playlist parsed from the same raw list |
| GenerateDb.TitleArtistSpec | scripts/generate_db.js:75-77 | the title is the untrimmed text before the first `' - '`, the artist the untrimmed second piece, or `''` without a separator |
| GenerateDb.GenerateDatabase | scripts/generate_db.js:136-156 | the loop's dictionary and fetch list are the fold of its step over the songs and the `fetchLyrics` results of the replies |
| GenerateDb.ResumeKeepsKeys | scripts/generate_db.js:136-156 | no key is ever removed |
| GenerateDb.ResumeOnlySongKeys | scripts/generate_db.js:136-156 | keys that are not songs of the list keep their presence and value |
| GenerateDb.ResumeStepEntry | scripts/generate_db.js:137-147 | after one iteration an entry was either written just then with the storable result for that song, or was already there with the same value |
| GenerateDb.ResumeWritesStorable | scripts/generate_db.js:144-147 | every written value is non-empty, is not `NOT_FOUND`, and is the cleaned result fetched for that song |
| GenerateDb.ResumeKeepsGenerated | scripts/generate_db.js:137-140 | an entry longer than 50 units is never fetched and never overwritten |
| GenerateDb.ResumeFetchesOnlyMissing | scripts/generate_db.js:137-144 | only songs of the list that were not already generated are fetched, and no more fetches than songs |
| GenerateDb.FencedSentinelFetched | scripts/generate_db.js:109-114 | `fetchLyrics` returns `"\nNOT_FOUND\n"` for a fenced sentinel reply |
| GenerateDb.FencedSentinelStored | scripts/generate_db.js:109-147 | a fenced sentinel reply for a song not yet generated is stored as `"\nNOT_FOUND\n"`, and nothing else changes |
| GenerateDb.PlaylistQueryListed | scripts/generate_db.js:68 | the query of each playlist entry parsed from a raw list is a song of the generator's list from that raw list |
| GenerateDb.PlaylistQueriesListed | constants.ts:45-65 | every playlist query is a song of the generator's list |
| AppModel.CacheKeyInjective | App.tsx:9 | two songs share a cache key exactly when they share a query |
| AppModel.IsLoading | App.tsx:156 | loading exactly while searching or generating furigana |
| AppModel.PreloadCounts | App.tsx:40-76 | the two counters sum to the number of songs |
| AppModel.PreloadStepCounts | App.tsx:53-72 | one iteration adds a success exactly for a cache hit or a non-empty result whose write did not throw, and a failure otherwise; only a cache miss is fetched |
| AppModel.FailedTurns | App.tsx:43-76 | the failed turns are listed in increasing order, each a turn of the loop |
| AppModel.FailedTurnsSound | App.tsx:53-72 | every failed turn missed the cache at its turn and did not store its result |
| AppModel.FailedTurnsComplete | App.tsx:53-72 | every turn that missed the cache and did not store its result is a failed turn |
| AppModel.PreloadFailCount | App.tsx:43-76 | the failure counter is the number of failed turns |
| AppModel.PreloadFailures | App.tsx:40-79 | the alert reports the number of failed turns as failures and every other song as a success |
| AppModel.PreloadFailsOnlyFetched | App.tsx:53-72 | a cache hit never fails, so there are no more failures than fetches |
| AppModel.PreloadKeepsEntries | App.tsx:52-56 | no entry is removed, and a cached entry keeps its value |
| AppModel.PreloadFetchesOnlyMissing | App.tsx:52-61 | only songs missing from the cache at the start are fetched |
| AppModel.PreloadOtherKeys | App.tsx:58-68 | keys of no playlist song keep their presence and value |
| AppModel.PreloadWritesFetched | App.tsx:58-68 | every written entry is the non-empty markup fetched for a song with that key, on an iteration whose write did not throw |
| AppModel.PreloadAllSucceed | App.tsx:43-76 | when every fetch returns markup and every write succeeds, nothing fails and every song ends up cached |
| AppModel.App.constructor | App.tsx:12-17 | the initial state record over the existing storage |
| AppModel.App.HandlePreloadAll | App.tsx:34-80 | declining the dialog changes nothing; otherwise the counters, the fetched songs and the cache are those of the fold |
| AppModel.App.HandleSongSelect | App.tsx:82-135 | the selection state comes first; a cache hit completes with the cached markup and no fetch; a fetched markup is written unless the write throws, and completes the selection; a failed or empty fetch ends in the error state with its message and the cache unchanged |

## Left out

- The generative-model SDK calls, prompts, model names and safety settings are remote calls. Each one is an input `Reply`.
- Parsing URL hostnames follows the WHATWG URL Standard and is a library call. It is the parameter `hostOf`.
- `getApiKey` probes the environment. Its result is the boolean `hasApiKey`.
- Console logging is not modelled.
- `fetch('/lyrics-db.json')` and JSON decoding are I/O. They are the input `DbResponse`; a decoded body that is not a string dictionary is not modelled.
- The generator's file reads and writes are I/O. The file it loads is the input `existing`, and each progressive save is not modelled.
- The generator exits at start when `API_KEY` is unset (scripts/generate_db.js:14-19). That is a process exit before any logic runs, so the model starts after it.
- `localStorage.getItem` throwing is not modelled. `setItem` throwing is a boolean input.
- Timers, `window.confirm` and `alert` are timing and dialogs. The confirmation is a boolean input, and the alert's counts are the returned report.
- Preload progress updates and the status callback's UI effect are React state for display only. The status messages themselves are modelled.
- JSX rendering and the components are UI.
- Two selections can overlap: `handleSongSelect` may start while an earlier one is still awaiting. That is concurrency, and each call is modelled as running to completion.
- `loadStaticDatabase` racing with a selection is concurrency too.
- The literal song lists in constants.ts and scripts/generate_db.js are data, not logic. The parses are modelled for any raw list.
- Object-prototype keys (looking up `"constructor"` in a plain object) are not modelled. Dictionaries are maps.
- Gemini.Service.FetchLyricsWithRuby: the status callback is optional in the source. The model always records the messages.
