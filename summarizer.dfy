/** `summarize_events`: the short-term history is joined into one block, sent
    to the language model through the fixed summary template, and the text
    that comes back is stripped of surrounding whitespace. */
module Summarizer {
  import opened Text

  /** The summary chain: the model's raw text for the template filled with a
      given `{history}`. What the text says is not modelled. */
  type SummaryBackend = string -> string

  /** `summarize_events(history)`. */
  function SummarizeEvents(backend: SummaryBackend, history: seq<string>): (summary: string)
    ensures summary == [] || (!IsSpace(summary[0]) && !IsSpace(summary[|summary| - 1]))
  {
    Strip(backend(JoinLines(history)))
  }

  /** The summary is the backend's text for the joined history with exactly
      its leading and trailing whitespace removed. */
  lemma SummaryIsTrimmedReply(backend: SummaryBackend, history: seq<string>) returns (i: nat)
    ensures var raw, summary := backend(JoinLines(history)), SummarizeEvents(backend, history);
      i + |summary| <= |raw| && raw[i..i + |summary|] == summary
      && AllSpace(raw[..i]) && AllSpace(raw[i + |summary|..])
  {
    i := StripShape(backend(JoinLines(history)));
  }

  /** A summary is already stripped: stripping it again changes nothing. */
  lemma SummaryIsStripped(backend: SummaryBackend, history: seq<string>)
    ensures Strip(SummarizeEvents(backend, history)) == SummarizeEvents(backend, history)
  {
  }
}
