/** The specification of the chat loop's memory policy: the exit test, how
    each turn is written into the short-term buffer, and which buffer
    generations a run of turns hands to the summarizer. */
module ConversationSpec {
  import opened Text
  import opened SummaryStore
  import opened Summarizer

  /** `MAX_HISTORY`: the buffer is summarized once it holds this many turns. */
  const MaxHistory: nat := 5

  /** The exit token, compared with the lower-cased input. */
  const ExitCommand: string := "/exit"

  /** `user_input.lower() == "/exit"`. */
  predicate IsExitCommand(input: string)
  {
    Lower(input) == ExitCommand
  }

  /** The exit test ignores the case of the letters and nothing else. */
  lemma ExitCommandSpelling(input: string)
    ensures IsExitCommand(input) <==>
      |input| == 5 && input[0] == '/' && input[1] in "eE" && input[2] in "xX"
      && input[3] in "iI" && input[4] in "tT"
  {
  }

  /** The buffer entry for one user turn. */
  function Tag(input: string): string
  {
    "User: " + input
  }

  /** The buffer entries for a sequence of turns, in arrival order. */
  function Tags(inputs: seq<string>): seq<string>
  {
    seq(|inputs|, k requires 0 <= k < |inputs| => Tag(inputs[k]))
  }

  lemma TagsStep(inputs: seq<string>, i: nat)
    requires i < |inputs|
    ensures Tags(inputs[..i + 1]) == Tags(inputs[..i]) + [Tag(inputs[i])]
  {
  }

  /** The buffer generations that are summarized while the entries `s` arrive
      one by one into an empty buffer: consecutive blocks of `MaxHistory`. */
  function Batches(s: seq<string>): seq<seq<string>>
  {
    if |s| < MaxHistory then [] else [s[..MaxHistory]] + Batches(s[MaxHistory..])
  }

  /** What the buffer still holds once the entries `s` have arrived. */
  function Leftover(s: seq<string>): seq<string>
  {
    if |s| < MaxHistory then s else Leftover(s[MaxHistory..])
  }

  /** The summaries the backend gives for a sequence of buffer generations. */
  function Summaries(backend: SummaryBackend, batches: seq<seq<string>>): seq<string>
  {
    seq(|batches|, k requires 0 <= k < |batches| => SummarizeEvents(backend, batches[k]))
  }

  /** Index of the first exit command in `inputs`, or `|inputs|` if there is none. */
  function FirstExit(inputs: seq<string>): (n: nat)
    ensures n <= |inputs|
    ensures forall k :: 0 <= k < n ==> !IsExitCommand(inputs[k])
    ensures n < |inputs| ==> IsExitCommand(inputs[n])
  {
    if inputs == [] || IsExitCommand(inputs[0]) then 0 else 1 + FirstExit(inputs[1..])
  }

  lemma FirstExitStep(inputs: seq<string>, i: nat)
    requires i <= FirstExit(inputs) && i < |inputs| && !IsExitCommand(inputs[i])
    ensures i + 1 <= FirstExit(inputs)
  {
  }

  lemma FirstExitAt(inputs: seq<string>, i: nat)
    requires i <= FirstExit(inputs) && i < |inputs| && IsExitCommand(inputs[i])
    ensures FirstExit(inputs) == i
  {
  }

  /** One more entry either joins the leftover, or completes it to a full
      generation that is summarized and leaves the buffer empty. */
  lemma {:induction false} BatchesSnoc(s: seq<string>, x: string)
    ensures |Leftover(s)| < MaxHistory
    ensures var l := Leftover(s) + [x];
      if |l| == MaxHistory then Batches(s + [x]) == Batches(s) + [l] && Leftover(s + [x]) == []
      else Batches(s + [x]) == Batches(s) && Leftover(s + [x]) == l
  {
    if |s| >= MaxHistory {
      assert (s + [x])[..MaxHistory] == s[..MaxHistory];
      assert (s + [x])[MaxHistory..] == s[MaxHistory..] + [x];
      BatchesSnoc(s[MaxHistory..], x);
    } else if |s| + 1 == MaxHistory {
      assert (s + [x])[..MaxHistory] == s + [x];
      assert (s + [x])[MaxHistory..] == [];
    }
  }

  lemma SummariesSnoc(backend: SummaryBackend, batches: seq<seq<string>>, batch: seq<string>)
    ensures Summaries(backend, batches + [batch])
         == Summaries(backend, batches) + [SummarizeEvents(backend, batch)]
  {
  }

  /** The state reached once the entries `stream` have arrived into an empty
      buffer, starting from the trace `log` and the store `entries`: every full
      generation has been summarized and its summary saved, and the buffer
      holds the rest. */
  ghost predicate Absorbed(stream: seq<string>, backend: SummaryBackend, log: seq<seq<string>>,
                           entries: seq<string>, context: seq<string>,
                           summarized: seq<seq<string>>, stored: seq<string>)
  {
    summarized == log + Batches(stream) && context == Leftover(stream)
    && stored == SaveAll(entries, Summaries(backend, Batches(stream)))
  }

  /** What the loop body does with the new buffer entry `x`: it is appended;
      a buffer that reaches `MaxHistory` entries is summarized, its summary
      saved and the buffer cleared. `summarized` traces the generations handed
      to the summarizer, `stored` is the store. */
  ghost predicate Buffered(context: seq<string>, summarized: seq<seq<string>>, stored: seq<string>,
                           x: string, backend: SummaryBackend, context': seq<string>,
                           summarized': seq<seq<string>>, stored': seq<string>)
  {
    var history := context + [x];
    if |history| == MaxHistory then
      context' == [] && summarized' == summarized + [history]
      && stored' == Insert(stored, SummarizeEvents(backend, history))
    else
      context' == history && summarized' == summarized && stored' == stored
  }

  /** One turn's effect on the buffer, the trace and the store keeps
      `Absorbed` true for one more entry. */
  lemma AbsorbStep(stream: seq<string>, x: string, backend: SummaryBackend, log: seq<seq<string>>,
                   entries: seq<string>, context: seq<string>, summarized: seq<seq<string>>,
                   stored: seq<string>, context': seq<string>, summarized': seq<seq<string>>,
                   stored': seq<string>)
    requires Absorbed(stream, backend, log, entries, context, summarized, stored)
    requires Buffered(context, summarized, stored, x, backend, context', summarized', stored')
    ensures Absorbed(stream + [x], backend, log, entries, context', summarized', stored')
  {
    BatchesSnoc(stream, x);
    var history := context + [x];
    var batches := Batches(stream);
    if |history| == MaxHistory {
      var summary := SummarizeEvents(backend, history);
      assert Batches(stream + [x]) == batches + [history];
      SummariesSnoc(backend, batches, history);
      SaveAllSnoc(entries, Summaries(backend, batches), summary);
      assert stored' == SaveAll(entries, Summaries(backend, batches + [history]));
      assert summarized' == log + (batches + [history]);
    } else {
      assert Batches(stream + [x]) == batches;
    }
  }

  /** `|s| / MaxHistory` generations of `MaxHistory` consecutive entries each
      are summarized, and the last `|s| % MaxHistory` entries are left over. */
  lemma {:induction false} BatchesShape(s: seq<string>)
    ensures |Batches(s)| == |s| / MaxHistory
    ensures forall k :: 0 <= k < |Batches(s)| ==>
      Batches(s)[k] == s[MaxHistory * k..MaxHistory * k + MaxHistory]
    ensures Leftover(s) == s[|s| - |s| % MaxHistory..]
  {
    if |s| >= MaxHistory {
      var rest := s[MaxHistory..];
      BatchesShape(rest);
      assert |s| / MaxHistory == |rest| / MaxHistory + 1;
      assert |s| % MaxHistory == |rest| % MaxHistory;
      forall k | 1 <= k < |Batches(s)|
        ensures Batches(s)[k] == s[MaxHistory * k..MaxHistory * k + MaxHistory]
      {
        assert Batches(s)[k] == Batches(rest)[k - 1];
        assert MaxHistory * k == MaxHistory * (k - 1) + MaxHistory;
      }
    }
  }

  /** From an empty buffer, N turns cause exactly N / 5 summarize-and-save
      cycles, and the buffer keeps the entries of the last N % 5 turns. */
  lemma FlushCount(inputs: seq<string>)
    ensures |Batches(Tags(inputs))| == |inputs| / MaxHistory
    ensures Leftover(Tags(inputs)) == Tags(inputs[|inputs| - |inputs| % MaxHistory..])
  {
    BatchesShape(Tags(inputs));
  }

  /** `FlushCount` for the first `n` of the lines. */
  lemma FlushCountPrefix(inputs: seq<string>, n: nat)
    requires n <= |inputs|
    ensures |Batches(Tags(inputs[..n]))| == n / MaxHistory
    ensures Leftover(Tags(inputs[..n])) == Tags(inputs[n - n % MaxHistory..n])
  {
    FlushCount(inputs[..n]);
    assert inputs[..n][n - n % MaxHistory..] == inputs[n - n % MaxHistory..n];
  }
}
