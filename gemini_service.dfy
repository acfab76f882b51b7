/**
  The lyrics pipeline of services/geminiService.ts: acceptance of retrieved
  text, the search-then-recall chain, the annotation stage with its
  mechanical fallback, the attribution block, and the one-shot loader of
  the bundled static database.

  Each remote call is an input (`Reply`), the hostname parser of the URL
  standard is the input `hostOf` (`None` for a URL that `new URL` rejects,
  otherwise its hostname, which may be empty), and the presence of an API key is the
  input `hasApiKey`.
*/
module Gemini {
  import opened Wrappers
  import opened Text
  import opened Types
  import opened Replies

  // ---------------------------------------------------------------------
  // Constants of the service
  // ---------------------------------------------------------------------

  /** The sentinel the prompts ask the model to return when it does not know the song. */
  const NOT_FOUND := "NOT_FOUND"
  const SEARCH_MIN_LENGTH := 50
  const RECALL_MIN_LENGTH := 20

  const RUBY_OPEN := "<ruby>"
  const LINE_BREAK := "<br/>"
  const NEWLINE := "\n"

  const KANJI_WARNING :=
    "<div style=\"margin-top:20px;font-size:0.75rem;color:#f87171;\">※AIがふりがなを生成できませんでした。</div>"
  const FALLBACK_NOTICE :=
    "<div style=\"margin-top:20px;font-size:0.75rem;color:#888;\">※ふりがな解析に失敗しました（原文表示）</div>"

  const ATTRIBUTION_OPEN :=
    "<div style=\"margin-top:40px;padding-top:20px;border-top:1px solid #e7e5e4;font-size:0.75rem;color:#a8a29e;\">"
  const SEARCH_HEADING := "<p>出典 (Search):</p>"
  const INTERNAL_LINE := "<p>出典: Gemini AI Internal Knowledge</p>"
  const DIV_CLOSE := "</div>"
  const LINK_OPEN := "<a href=\""
  const LINK_MIDDLE := "\" target=\"_blank\" style=\"color:#a8a29e;text-decoration:underline;margin-right:10px;\">"
  const LINK_CLOSE := "</a>"

  /** The progress messages the pipeline sends through `onStatusChange`. */
  datatype Status = ReadingCache | Searching | Recalling | Annotating {
    function Message(): string {
      match this
      case ReadingCache => "キャッシュ読み込み中..."
      case Searching => "Web検索中..."
      case Recalling => "検索失敗...知識ベースから復元中..."
      case Annotating => "解析・ふりがな付与中..."
    }
  }

  /** The two errors `fetchLyricsWithRuby` throws. */
  datatype FetchError = ApiKeyMissing | LyricsNotFound {
    function Message(): string {
      match this
      case ApiKeyMissing => "API Key is missing"
      case LyricsNotFound => "Lyrics Not Found on Web"
    }
  }

  /** The remote calls the pipeline issues, in the order it issues them. */
  datatype RemoteCall = SearchCall | RecallCall | FormatCall

  // ---------------------------------------------------------------------
  // Japanese script
  // ---------------------------------------------------------------------

  predicate IsHiragana(c: char) { 0x3040 <= c as int <= 0x309F }
  predicate IsKatakana(c: char) { 0x30A0 <= c as int <= 0x30FF }
  /** The CJK Unified Ideographs range the service tests, up to U+9FAF. */
  predicate IsKanji(c: char) { 0x4E00 <= c as int <= 0x9FAF }

  predicate IsJapanese(c: char) { IsHiragana(c) || IsKatakana(c) || IsKanji(c) }

  /** `/[぀-ゟ゠-ヿ一-龯]/.test(s)`. */
  predicate HasJapanese(s: string) {
    exists i | 0 <= i < |s| :: IsJapanese(s[i])
  }

  /** `/[一-龯]/.test(s)`. */
  predicate HasKanji(s: string) {
    exists i | 0 <= i < |s| :: IsKanji(s[i])
  }

  // ---------------------------------------------------------------------
  // Acceptance of retrieved text
  // ---------------------------------------------------------------------

  /** The acceptance test of both retrieval strategies, on the cleaned text. */
  predicate Acceptable(text: string, minLength: nat) {
    text != "" && !Contains(text, NOT_FOUND) && Utf16Length(text) >= minLength && HasJapanese(text)
  }

  /** The cleaned reply text when it passes the acceptance test, else `None`. */
  function AcceptedText(reply: Reply, minLength: nat): Option<string> {
    match ReplyText(reply)
    case None => None
    case Some(t) =>
      var cleaned := CleanRetrieved(t);
      if Acceptable(cleaned, minLength) then Some(cleaned) else None
  }

  /** The test `AcceptedText` applies, stated on the reply. */
  lemma AcceptedTextExactly(reply: Reply, minLength: nat)
    ensures AcceptedText(reply, minLength).Some? <==>
      reply.Replied? && reply.text.Some? && Acceptable(CleanRetrieved(Trim(reply.text.value)), minLength)
  {
    if reply.Replied? && reply.text.Some? {
      assert ReplyText(reply) == Some(Trim(reply.text.value));
    }
  }

  /** A successful search: the lyrics and the grounding sources. */
  datatype SearchResult = SearchResult(text: string, sources: seq<string>)

  /** The string URIs among the grounding chunks, in order. */
  function Strings(uris: seq<Option<string>>): (r: seq<string>)
    ensures forall u :: u in r <==> Some(u) in uris
  {
    if |uris| == 0 then []
    else
      var last := uris[|uris| - 1];
      assert uris == uris[..|uris| - 1] + [last];
      Strings(uris[..|uris| - 1]) + (if last.Some? then [last.value] else [])
  }

  predicate NoDuplicates(xs: seq<string>) {
    forall i, j :: 0 <= i < j < |xs| ==> xs[i] != xs[j]
  }

  /** `[...new Set(xs)]`: each element once, at the place it first occurs. */
  function Dedupe(xs: seq<string>): (r: seq<string>)
    ensures forall x :: x in r <==> x in xs
    ensures NoDuplicates(r)
  {
    if |xs| == 0 then []
    else
      var last := xs[|xs| - 1];
      var r := Dedupe(xs[..|xs| - 1]);
      assert xs == xs[..|xs| - 1] + [last];
      if last in r then r else r + [last]
  }

  /** `map` then `filter` keeps chunk order: the URIs of a concatenation
      are those of each part, one after the other. */
  lemma {:induction false} StringsAppend(a: seq<Option<string>>, b: seq<Option<string>>)
    ensures Strings(a + b) == Strings(a) + Strings(b)
  {
    if |b| > 0 {
      var n := |b| - 1;
      StringsAppend(a, b[..n]);
      assert (a + b)[..|a + b| - 1] == a + b[..n];
      assert (a + b)[|a + b| - 1] == b[n];
    } else {
      assert a + b == a;
    }
  }

  /** A single chunk contributes its URI when it has one, and nothing otherwise. */
  lemma StringsSingle(u: Option<string>)
    ensures Strings([u]) == if u.Some? then [u.value] else []
  {
    assert [u][..0] == [];
  }

  /** `b` does not occur in `xs` before `a` first does. */
  predicate FirstOccursBefore(xs: seq<string>, a: string, b: string) {
    exists p :: 0 <= p < |xs| && xs[p] == a && b !in xs[..p]
  }

  /** `[...new Set(xs)]` lists the elements in the order of their first
      occurrence: an earlier element first occurs before a later one does. */
  lemma {:induction false} DedupeFirstOccurrenceOrder(xs: seq<string>, i: nat, j: nat)
    requires i < j < |Dedupe(xs)|
    ensures FirstOccursBefore(xs, Dedupe(xs)[i], Dedupe(xs)[j])
  {
    var n := |xs| - 1;
    var init := xs[..n];
    var before := Dedupe(init);
    var r := Dedupe(xs);
    assert r == before || r == before + [xs[n]];
    if j < |before| {
      DedupeFirstOccurrenceOrder(init, i, j);
      assert r[i] == before[i] && r[j] == before[j];
      var p :| 0 <= p < |init| && init[p] == r[i] && r[j] !in init[..p];
      assert xs[p] == r[i] && xs[..p] == init[..p];
    } else {
      assert r == before + [xs[n]] && r[j] == xs[n] && xs[n] !in init;
      assert r[i] == before[i] && before[i] in before;
      var p :| 0 <= p < |init| && init[p] == r[i];
      assert xs[p] == r[i] && xs[..p] == init[..p];
    }
  }

  /** `performSearch`: the reply of the search-grounded call. */
  function PerformSearch(reply: Reply): Option<SearchResult> {
    match AcceptedText(reply, SEARCH_MIN_LENGTH)
    case None => None
    case Some(t) => Some(SearchResult(t, Dedupe(Strings(reply.groundingUris))))
  }

  /** `performMemoryRecall`: the reply of the call without search. */
  function PerformMemoryRecall(reply: Reply): Option<string> {
    AcceptedText(reply, RECALL_MIN_LENGTH)
  }

  /** A search result is accepted exactly when the reply has text whose
      cleaned form is non-empty, free of the sentinel, at least 50 UTF-16
      units long and holds a Hiragana, Katakana or Kanji character. The
      accepted text is a piece of the reply text with nothing left to trim. */
  lemma SearchAcceptance(reply: Reply)
    ensures PerformSearch(reply).Some? <==>
      reply.Replied? && reply.text.Some? && Acceptable(CleanRetrieved(Trim(reply.text.value)), SEARCH_MIN_LENGTH)
    ensures PerformSearch(reply).Some? ==>
      var t := PerformSearch(reply).value.text;
      Acceptable(t, SEARCH_MIN_LENGTH) && Trim(t) == t
      && Contains(reply.text.value, t)
  {
    AcceptedTextExactly(reply, SEARCH_MIN_LENGTH);
    if PerformSearch(reply).Some? {
      AcceptedPiece(reply, SEARCH_MIN_LENGTH);
    }
  }

  /** A recall result is accepted by the same test with a minimum of 20. */
  lemma RecallAcceptance(reply: Reply)
    ensures PerformMemoryRecall(reply).Some? <==>
      reply.Replied? && reply.text.Some? && Acceptable(CleanRetrieved(Trim(reply.text.value)), RECALL_MIN_LENGTH)
    ensures PerformMemoryRecall(reply).Some? ==>
      var t := PerformMemoryRecall(reply).value;
      Acceptable(t, RECALL_MIN_LENGTH) && Trim(t) == t
      && Contains(reply.text.value, t)
  {
    AcceptedTextExactly(reply, RECALL_MIN_LENGTH);
    if PerformMemoryRecall(reply).Some? {
      AcceptedPiece(reply, RECALL_MIN_LENGTH);
    }
  }

  lemma AcceptedPiece(reply: Reply, minLength: nat)
    requires AcceptedText(reply, minLength).Some?
    ensures var t := AcceptedText(reply, minLength).value;
      t != "" && Trim(t) == t
      && Contains(reply.text.value, t)
  {
    var raw := reply.text.value;
    var trimmed := Trim(raw);
    var t := CleanRetrieved(trimmed);
    TrimIdempotent(StripSuffix(StripOpeningFence(trimmed), FENCE));
    TrimContained(raw);
    CleanRetrievedContained(trimmed);
    ContainsTransitive(raw, trimmed, t);
  }

  /** Recall is the more lenient test: whatever search accepts, recall
      accepts too, with the same text. */
  lemma RecallAcceptsWhatSearchAccepts(reply: Reply)
    requires PerformSearch(reply).Some?
    ensures PerformMemoryRecall(reply) == Some(PerformSearch(reply).value.text)
  {
  }

  /** The search sources are the distinct string URIs of the grounding
      chunks. */
  lemma SearchSources(reply: Reply)
    requires PerformSearch(reply).Some?
    ensures var sources := PerformSearch(reply).value.sources;
      NoDuplicates(sources) && forall u :: u in sources <==> Some(u) in reply.groundingUris
  {
  }

  // ---------------------------------------------------------------------
  // Annotation stage
  // ---------------------------------------------------------------------

  /** `lines.map(line => line.trim())`. */
  function TrimAll(lines: seq<string>): (r: seq<string>)
    ensures |r| == |lines| && forall i :: 0 <= i < |r| ==> r[i] == Trim(lines[i])
  {
    seq(|lines|, i requires 0 <= i < |lines| => Trim(lines[i]))
  }

  /** Each formatted line is already trimmed and is a piece of its
      source line. */
  lemma TrimAllPieces(lines: seq<string>, i: nat)
    requires i < |lines|
    ensures Trim(TrimAll(lines)[i]) == TrimAll(lines)[i]
    ensures Contains(lines[i], TrimAll(lines)[i])
  {
    TrimIdempotent(lines[i]);
    TrimContained(lines[i]);
  }

  /** `simpleFormat`: each line trimmed, the lines joined with `<br/>`. */
  function SimpleFormat(text: string): string {
    Join(TrimAll(Split(text, NEWLINE)), LINE_BREAK)
  }

  /** The mechanical format leaves no line feed behind. */
  lemma SimpleFormatNoNewline(text: string)
    ensures '\n' !in SimpleFormat(text)
  {
    var lines := Split(text, NEWLINE);
    var trimmed := TrimAll(lines);
    SplitPiecesFree(text, NEWLINE);
    forall k | 0 <= k < |trimmed|
      ensures '\n' !in trimmed[k]
    {
      ContainsChar(lines[k], '\n');
      TrimAbsent(lines[k], '\n');
    }
    JoinFree(trimmed, LINE_BREAK, '\n');
  }

  /** A single line is only trimmed. */
  lemma SimpleFormatLine(line: string)
    requires '\n' !in line
    ensures SimpleFormat(line) == Trim(line)
  {
    ContainsChar(line, '\n');
    SplitSingle(line, NEWLINE);
  }

  /** The first line is trimmed and separated from the rest by `<br/>`. */
  lemma SimpleFormatLines(line: string, rest: string)
    requires '\n' !in line
    ensures SimpleFormat(line + NEWLINE + rest) == Trim(line) + LINE_BREAK + SimpleFormat(rest)
  {
    SplitAtChar(line, rest, '\n');
    var lines := Split(line + NEWLINE + rest, NEWLINE);
    var tail := Split(rest, NEWLINE);
    assert lines[1..] == tail;
    var trimmed := TrimAll(lines);
    assert trimmed[0] == Trim(line) && trimmed[1..] == TrimAll(tail);
    JoinCons(trimmed, LINE_BREAK);
  }

  /** `formatLyrics`: the annotation reply, fence-stripped, with a warning
      when the input has Kanji but the reply has no `<ruby>`; the
      mechanical format with a failure notice when the call threw or
      returned no text. */
  function FormatLyrics(raw: string, reply: Reply): string {
    match ReplyText(reply)
    case None => SimpleFormat(raw) + FALLBACK_NOTICE
    case Some(text) =>
      if text == "" then SimpleFormat(raw) + FALLBACK_NOTICE
      else
        var html := StripHtmlFences(text);
        if HasKanji(raw) && !Contains(html, RUBY_OPEN) then html + KANJI_WARNING else html
  }

  /** The annotated text the reply carries, when it carries any. */
  function Annotation(reply: Reply): Option<string> {
    match ReplyText(reply)
    case None => None
    case Some(text) => if text == "" then None else Some(StripHtmlFences(text))
  }

  /** The three outcomes of the annotation stage. */
  lemma FormatLyricsOutcomes(raw: string, reply: Reply)
    ensures Annotation(reply).None? ==>
      FormatLyrics(raw, reply) == SimpleFormat(raw) + FALLBACK_NOTICE
    ensures Annotation(reply).Some? && HasKanji(raw) && !Contains(Annotation(reply).value, RUBY_OPEN) ==>
      FormatLyrics(raw, reply) == Annotation(reply).value + KANJI_WARNING
    ensures Annotation(reply).Some? && (!HasKanji(raw) || Contains(Annotation(reply).value, RUBY_OPEN)) ==>
      FormatLyrics(raw, reply) == Annotation(reply).value
  {
  }

  /** The fallback is the mechanical format, without line feeds, and a
      notice; no remote text enters it. */
  lemma FormatFallback(raw: string, reply: Reply)
    requires reply.Threw? || reply.text.None? || Trim(reply.text.value) == ""
    ensures FormatLyrics(raw, reply) == SimpleFormat(raw) + FALLBACK_NOTICE
    ensures '\n' !in SimpleFormat(raw)
    ensures EndsWith(FormatLyrics(raw, reply), FALLBACK_NOTICE)
  {
    SimpleFormatNoNewline(raw);
  }

  /** Lyrics with Kanji never come back looking complete without readings:
      the markup has a `<ruby>` construct or ends with one of the two
      notices. */
  lemma AnnotationNeverSilentlyIncomplete(raw: string, reply: Reply)
    requires HasKanji(raw)
    ensures var html := FormatLyrics(raw, reply);
      Contains(html, RUBY_OPEN) || EndsWith(html, KANJI_WARNING) || EndsWith(html, FALLBACK_NOTICE)
  {
    var html := FormatLyrics(raw, reply);
    match Annotation(reply)
    case None =>
      assert EndsWith(html, FALLBACK_NOTICE);
    case Some(a) =>
      if !Contains(a, RUBY_OPEN) {
        assert html == a + KANJI_WARNING;
        assert EndsWith(html, KANJI_WARNING);
      }
  }

  // ---------------------------------------------------------------------
  // Attribution
  // ---------------------------------------------------------------------

  /** One source link, or `''` for a URL that `new URL` rejects. A URL
      that parses with an empty hostname still gets its anchor. */
  function SourceLink(url: string, hostOf: string -> Option<string>): string {
    match hostOf(url)
    case None => ""
    case Some(host) => LINK_OPEN + url + LINK_MIDDLE + host + LINK_CLOSE
  }

  /** `sources.slice(0, 3).map(...)`. */
  function SourceLinks(sources: seq<string>, hostOf: string -> Option<string>): seq<string> {
    var shown := if |sources| <= 3 then sources else sources[..3];
    seq(|shown|, i requires 0 <= i < |shown| => SourceLink(shown[i], hostOf))
  }

  /** The attribution `div` appended to the annotated markup. */
  function AttributionBlock(sources: seq<string>, hostOf: string -> Option<string>): string {
    if |sources| > 0 then ATTRIBUTION_OPEN + SEARCH_HEADING + Concat(SourceLinks(sources, hostOf)) + DIV_CLOSE
    else ATTRIBUTION_OPEN + INTERNAL_LINE + DIV_CLOSE
  }

  /** The block is one attribution `div` in both cases. */
  lemma AttributionFrame(sources: seq<string>, hostOf: string -> Option<string>)
    ensures var block := AttributionBlock(sources, hostOf);
      StartsWith(block, ATTRIBUTION_OPEN) && EndsWith(block, DIV_CLOSE)
    ensures |sources| == 0 ==> Contains(AttributionBlock(sources, hostOf), INTERNAL_LINE)
  {
    var block := AttributionBlock(sources, hostOf);
    assert block[..|ATTRIBUTION_OPEN|] == ATTRIBUTION_OPEN;
    assert block[|block| - |DIV_CLOSE|..] == DIV_CLOSE;
    if |sources| == 0 {
      assert OccursAt(block, INTERNAL_LINE, |ATTRIBUTION_OPEN|);
    }
  }

  /** With sources there are at most three links, one per source among the
      first three: empty for a URL that `new URL` rejects, otherwise a link
      to the URL showing its hostname (possibly empty). */
  lemma AttributionLinks(sources: seq<string>, hostOf: string -> Option<string>)
    requires |sources| > 0
    ensures var links := SourceLinks(sources, hostOf);
      AttributionBlock(sources, hostOf) == ATTRIBUTION_OPEN + SEARCH_HEADING + Concat(links) + DIV_CLOSE
      && |links| <= 3 && |links| == (if |sources| < 3 then |sources| else 3)
      && (forall i :: 0 <= i < |links| && hostOf(sources[i]).None? ==> links[i] == "")
      && (forall i :: 0 <= i < |links| && hostOf(sources[i]).Some? ==>
            links[i] == LINK_OPEN + sources[i] + LINK_MIDDLE + hostOf(sources[i]).value + LINK_CLOSE)
  {
    var links := SourceLinks(sources, hostOf);
    var shown := if |sources| <= 3 then sources else sources[..3];
    forall i | 0 <= i < |links|
      ensures links[i] == SourceLink(sources[i], hostOf)
    {
      assert shown[i] == sources[i];
    }
  }

  /** Sources after the third never show. */
  lemma AttributionIgnoresExtraSources(sources: seq<string>, hostOf: string -> Option<string>)
    requires |sources| > 3
    ensures AttributionBlock(sources, hostOf) == AttributionBlock(sources[..3], hostOf)
  {
    assert SourceLinks(sources, hostOf) == SourceLinks(sources[..3], hostOf);
  }

  /** Two sources give exactly their two links, in order. */
  lemma AttributionTwoSources(u1: string, u2: string, hostOf: string -> Option<string>)
    ensures AttributionBlock([u1, u2], hostOf) ==
      ATTRIBUTION_OPEN + SEARCH_HEADING + SourceLink(u1, hostOf) + SourceLink(u2, hostOf) + DIV_CLOSE
  {
    var links := SourceLinks([u1, u2], hostOf);
    assert links == [SourceLink(u1, hostOf), SourceLink(u2, hostOf)];
    assert links[1..] == [SourceLink(u2, hostOf)];
    JoinCons(links, "");
    assert Join(links[1..], "") == SourceLink(u2, hostOf);
    assert SourceLink(u1, hostOf) + "" == SourceLink(u1, hostOf);
  }

  // ---------------------------------------------------------------------
  // The service: static database state and the pipeline
  // ---------------------------------------------------------------------

  /** Outcome of `fetch('/lyrics-db.json')` and of decoding its body. */
  datatype DbResponse = FetchFailed | NotOk | BodyMalformed | Body(entries: map<string, string>)

  /** What the strategy chain of `fetchLyricsWithRuby` retrieved: grounded
      lyrics with their sources, recalled lyrics, or nothing. */
  datatype Retrieval = Grounded(text: string, sources: seq<string>) | Recalled(text: string) | Unretrieved

  /** Search first; memory recall only when search yields nothing. Any
      retrieved text is non-empty. */
  function Retrieve(search: Reply, recall: Reply): (r: Retrieval)
    ensures r.Grounded? <==> PerformSearch(search).Some?
    ensures r.Grounded? ==> r == Grounded(PerformSearch(search).value.text, PerformSearch(search).value.sources)
    ensures r.Recalled? <==> PerformSearch(search).None? && PerformMemoryRecall(recall).Some?
    ensures r.Recalled? ==> r.text == PerformMemoryRecall(recall).value
    ensures !r.Unretrieved? ==> r.text != ""
  {
    match PerformSearch(search)
    case Some(found) => Grounded(found.text, found.sources)
    case None =>
      match PerformMemoryRecall(recall)
      case Some(text) => Recalled(text)
      case None => Unretrieved
  }

  lemma AttributionNonEmpty(sources: seq<string>, hostOf: string -> Option<string>)
    ensures AttributionBlock(sources, hostOf) != ""
  {
  }

  /** The module-level state of the service: the static database and the
      flag that the one load attempt has finished. */
  class Service {
    var staticDb: Option<map<string, string>>
    var isDbLoaded: bool

    constructor ()
      ensures staticDb == None && !isDbLoaded
    {
      staticDb := None;
      isDbLoaded := false;
    }

    /** `loadStaticDatabase`: the first call records the loaded entries
        when the response is ok and decodes, and in every case marks the
        load as done; later calls change nothing. */
    method LoadStaticDatabase(response: DbResponse)
      modifies this
      ensures isDbLoaded
      ensures old(isDbLoaded) ==> staticDb == old(staticDb)
      ensures !old(isDbLoaded) ==>
        staticDb == (if response.Body? then Some(response.entries) else old(staticDb))
    {
      if isDbLoaded {
        return;
      }
      if response.Body? {
        staticDb := Some(response.entries);
      }
      isDbLoaded := true;
    }

    /** `staticDb && staticDb[song.query]`: a non-empty entry for the song. */
    predicate StaticHit(song: SongItem)
      reads this
    {
      staticDb.Some? && song.query in staticDb.value && staticDb.value[song.query] != ""
    }

    /** `fetchLyricsWithRuby`. `search`, `recall` and `format` are what the
        three remote calls would produce; `calls` lists the calls made and
        `statuses` the progress messages sent, in order. */
    method FetchLyricsWithRuby(song: SongItem, hasApiKey: bool,
                               search: Reply, recall: Reply, format: Reply,
                               hostOf: string -> Option<string>)
      returns (result: Result<string, FetchError>, calls: seq<RemoteCall>, statuses: seq<Status>)
      ensures StaticHit(song) ==>
        result == Ok(staticDb.value[song.query]) && calls == [] && statuses == [ReadingCache]
      ensures !StaticHit(song) && !hasApiKey ==>
        result == Err(ApiKeyMissing) && calls == [] && statuses == []
      ensures !StaticHit(song) && hasApiKey ==>
        match Retrieve(search, recall)
        case Grounded(text, sources) =>
          result == Ok(FormatLyrics(text, format) + AttributionBlock(sources, hostOf))
          && calls == [SearchCall, FormatCall] && statuses == [Searching, Annotating]
        case Recalled(text) =>
          result == Ok(FormatLyrics(text, format) + AttributionBlock([], hostOf))
          && calls == [SearchCall, RecallCall, FormatCall] && statuses == [Searching, Recalling, Annotating]
        case Unretrieved =>
          result == Err(LyricsNotFound) && calls == [SearchCall, RecallCall] && statuses == [Searching, Recalling]
      ensures result.Ok? ==> result.value != ""
    {
      if StaticHit(song) {
        return Ok(staticDb.value[song.query]), [], [ReadingCache];
      }
      if !hasApiKey {
        return Err(ApiKeyMissing), [], [];
      }
      match Retrieve(search, recall)
      case Grounded(text, sources) =>
        AttributionNonEmpty(sources, hostOf);
        result := Ok(FormatLyrics(text, format) + AttributionBlock(sources, hostOf));
        calls, statuses := [SearchCall, FormatCall], [Searching, Annotating];
      case Recalled(text) =>
        AttributionNonEmpty([], hostOf);
        result := Ok(FormatLyrics(text, format) + AttributionBlock([], hostOf));
        calls, statuses := [SearchCall, RecallCall, FormatCall], [Searching, Recalling, Annotating];
      case Unretrieved =>
        result := Err(LyricsNotFound);
        calls, statuses := [SearchCall, RecallCall], [Searching, Recalling];
    }
  }
}
