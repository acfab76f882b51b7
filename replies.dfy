/**
  Replies of the generative text service and the two markdown-fence
  cleanups applied to them. The service itself is not modelled: every call
  is an input value saying what the call produced.
*/
module Replies {
  import opened Wrappers
  import opened Text

  /** What one `ai.models.generateContent` call produced: it threw, or it
      returned `response.text` (undefined when absent) and, for each
      grounding chunk of the first candidate, its `web.uri` when that is a
      string. */
  datatype Reply = Threw | Replied(text: Option<string>, groundingUris: seq<Option<string>>)

  /** `response.text?.trim()`, with `None` for a call that threw or
      returned no text. */
  function ReplyText(reply: Reply): (r: Option<string>)
    ensures r.Some? <==> reply.Replied? && reply.text.Some?
    ensures r.Some? ==> r.value == Trim(reply.text.value)
  {
    match reply
    case Threw => None
    case Replied(text, _) => if text.Some? then Some(Trim(text.value)) else None
  }

  /** The text kept is already trimmed and is a piece of what the call
      returned. */
  lemma ReplyTextPiece(reply: Reply)
    requires ReplyText(reply).Some?
    ensures Trim(ReplyText(reply).value) == ReplyText(reply).value
    ensures Contains(reply.text.value, ReplyText(reply).value)
  {
    TrimIdempotent(reply.text.value);
    TrimContained(reply.text.value);
  }

  const FENCE := "```"
  const HTML_FENCE := "```html"

  /** A fence followed by one of the language tags the retrieval cleanup knows. */
  predicate StartsWithTaggedFence(s: string) {
    StartsWith(s, "```html") || StartsWith(s, "```json") || StartsWith(s, "```text")
  }

  /** `s.replace(/^```(html|json|text)?/, '')`: an opening fence, with its
      tag when it has one of the three. */
  function StripOpeningFence(s: string): string {
    if StartsWithTaggedFence(s) then s[7..] else StripPrefix(s, FENCE)
  }

  /** The cleanup of a retrieval reply: remove an opening fence, then a
      closing fence at the very end, then trim. */
  function CleanRetrieved(text: string): string {
    Trim(StripSuffix(StripOpeningFence(text), FENCE))
  }

  /** A tagged fence, like ```` ```html ````, is in particular a fence. */
  lemma LongerFenceIsFence(s: string, tagged: string)
    requires StartsWith(tagged, FENCE) && StartsWith(s, tagged)
    ensures StartsWith(s, FENCE)
  {
    assert s[..3] == s[..|tagged|][..3];
  }

  /** The cleaned retrieval text is a piece of the reply text. */
  lemma CleanRetrievedContained(text: string)
    ensures Contains(text, CleanRetrieved(text))
  {
    var a := StripOpeningFence(text);
    if StartsWithTaggedFence(text) {
      assert OccursAt(text, a, 7);
    } else {
      StripContained(text, FENCE);
    }
    assert Contains(text, a);
    var b := StripSuffix(a, FENCE);
    StripContained(a, FENCE);
    ContainsTransitive(text, a, b);
    TrimContained(b);
    ContainsTransitive(text, b, Trim(b));
  }

  /** Without fences the cleaned retrieval text is just the trimmed text. */
  lemma CleanRetrievedUnfenced(text: string)
    requires !StartsWith(text, FENCE) && !EndsWith(text, FENCE)
    ensures CleanRetrieved(text) == Trim(text)
  {
    if StartsWith(text, "```html") { LongerFenceIsFence(text, "```html"); }
    if StartsWith(text, "```json") { LongerFenceIsFence(text, "```json"); }
    if StartsWith(text, "```text") { LongerFenceIsFence(text, "```text"); }
  }

  /** `s.replace(/^```html/, '').replace(/^```/, '').replace(/```$/, '')`:
      the three replacements run one after another and nothing is trimmed
      afterwards. */
  function StripHtmlFences(s: string): string {
    StripSuffix(StripPrefix(StripPrefix(s, HTML_FENCE), FENCE), FENCE)
  }

  /** Fence stripping keeps a piece of the input and cuts at most 13
      characters (`html` and two opening fences, one closing fence). */
  lemma StripHtmlFencesContained(s: string)
    ensures Contains(s, StripHtmlFences(s))
    ensures |s| - 13 <= |StripHtmlFences(s)| <= |s|
  {
    var a := StripPrefix(s, HTML_FENCE);
    var b := StripPrefix(a, FENCE);
    var c := StripSuffix(b, FENCE);
    StripContained(s, HTML_FENCE);
    StripContained(a, FENCE);
    StripContained(b, FENCE);
    ContainsTransitive(s, a, b);
    ContainsTransitive(s, b, c);
  }

  /** Fence stripping leaves an unfenced input alone. */
  lemma StripHtmlFencesUnfenced(s: string)
    requires !StartsWith(s, FENCE) && !EndsWith(s, FENCE)
    ensures StripHtmlFences(s) == s
  {
    if StartsWith(s, HTML_FENCE) { LongerFenceIsFence(s, HTML_FENCE); }
  }

  /** A fenced sentinel keeps the line breaks around it: the fences go,
      but since nothing is trimmed afterwards the result is not the bare
      sentinel. */
  lemma FencedSentinelKeepsNewlines()
    ensures StripHtmlFences("```html\nNOT_FOUND\n```") == "\nNOT_FOUND\n"
  {
    var s := "```html\nNOT_FOUND\n```";
    assert StartsWith(s, HTML_FENCE) by {
      assert s[..7] == HTML_FENCE;
    }
    var a := s[7..];
    assert a == "\nNOT_FOUND\n```";
    assert !StartsWith(a, FENCE) by {
      assert a[0] == '\n';
    }
    assert EndsWith(a, FENCE) by {
      assert a[|a| - 3..] == FENCE;
    }
    assert a[..|a| - 3] == "\nNOT_FOUND\n";
  }
}
