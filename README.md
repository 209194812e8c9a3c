# ChatyBot memory policy in Dafny

ChatyBot is a terminal chat assistant. It sends each user line to a language
model and keeps two tiers of memory:

- a short-term buffer of the recent turns (`global_context`, which the loop
  also calls `context`);
- a long-term log of summaries in a TinyDB file (`memory.json`).

This project models the policy that connects the two, and proves its
properties:

- A user line is appended to the buffer as `"User: " + line`, and a counter
  is stepped.
- When the counter reaches `MAX_HISTORY` (5), the buffer is summarized, the
  summary is saved, and the buffer and counter are reset.
- The summary log is re-read in full for every prompt.
- A line whose lower-case form is `/exit` ends the loop.
- An `atexit` hook summarizes and saves the buffer once more if it is
  non-empty.
- A summary is saved only when exactly the same text is not already stored.

Files and modules:

- `text.dfy`, module `Text`: the Python string operations the policy relies
  on. These are `str.strip()` (whitespace as `str.isspace()` defines it),
  `str.lower()` for the exit test and `"\n".join(...)`. The program never
  splits the memory text. `SplitLines` (`str.split("\n")`) is here only to
  state what the joined memory text preserves of the store.
- `store.dfy`, module `SummaryStore`: the summary log as a sequence of
  texts. `Insert` is what `save_summary` does to it, `SaveAll` is a run of
  saves, and `Memory` is what `load_memory` returns. The class `Store` is the
  database object that `save_summary` changes in place.
- `summarizer.dfy`, module `Summarizer`: `summarize_events`. The language
  model is a function parameter from the joined history to raw text.
- `conversation_spec.dfy`, module `ConversationSpec`: the pure specification
  of the loop. It covers the exit test, the buffer entries, and the split of
  a stream of turns into summarized generations (`Batches`) and the
  remainder (`Leftover`). `Absorbed` states what the session holds once a
  stream of entries has arrived.
- `session.dfy`, module `Conversation`: the class `Session`. It holds the
  buffer, the counter, the database and the two model calls. Its methods are
  one loop iteration (`Turn`), the loop (`HandleConversation`) and the exit
  hook (`Finalize`). A ghost field `summarized` records every buffer passed
  to `summarize_events`, so that the number of summarize-and-save cycles can
  be stated.
- `scenarios.dfy`, module `Scenarios`: two client runs checked from the
  contracts alone. One is five turns into an empty store. The other is three
  turns, then `/exit`, then the exit hook.

## Model

| member | source | states |
|---|---|---|
| `SummaryStore.Insert` | chatybot.py:76-77 | the store after one `save_summary`; it has no contract of its own, and `InsertKeepsEntries`, `InsertPreservesNoDuplicates` and `InsertIdempotent` state its properties |
| `SummaryStore.Memory` | chatybot.py:83 | the text `load_memory` returns for a store; it has no contract of its own, and `StoredSummaryInMemory`, `ReloadRoundTrip`, `ReloadEmptyStore` and `ReloadSplitsSummary` state its properties |
| `SummaryStore.Store.LoadMemory` | chatybot.py:79-83 | `load_memory()` on the database object is `Memory` of its entries; it has no contract of its own, and the lemmas about `Memory` state its properties |
| `SummaryStore.Store.constructor` | chatybot.py:11 | the opened database holds exactly the records written before |
| `SummaryStore.Store.Contains` | chatybot.py:76 | true exactly when some stored entry equals the text |
| `SummaryStore.Store.SaveSummary` | chatybot.py:72-77 | the store becomes `Insert(old, summary)`: unchanged if that text is stored, otherwise the old entries followed by the summary |
| `SummaryStore.InsertKeepsEntries` | chatybot.py:76-77 | after a save the text is stored; the old entries stay in place as a prefix; the store grows by one exactly when the text was absent; nothing but the text is added |
| `SummaryStore.InsertPreservesNoDuplicates` | chatybot.py:76-77 | a store whose entries are pairwise distinct stays so after a save |
| `SummaryStore.InsertIdempotent` | chatybot.py:76-77 | saving the same text twice gives the same store as saving it once |
| `SummaryStore.SaveAllPreservesNoDuplicates` | chatybot.py:76-77 | any run of saves keeps the entries pairwise distinct |
| `SummaryStore.SaveAllContents` | chatybot.py:76-77 | after a run of saves the store holds exactly the old entries and the saved texts, with the old entries first and in order |
| `SummaryStore.SaveAllStoredIsNoop` | chatybot.py:76-77 | saving only texts that are already stored leaves the store unchanged |
| `SummaryStore.ReloadRoundTrip` | chatybot.py:76-83 | for a non-empty store whose summaries hold no newline, splitting the loaded memory into lines and saving each line back gives the same store |
| `SummaryStore.ReloadEmptyStore` | chatybot.py:83 | for the empty store that round trip adds one empty summary, because the empty memory text splits into one empty line |
| `SummaryStore.ReloadSplitsSummary` | chatybot.py:76-83 | a stored summary `a\nb` with distinct newline-free lines does not survive the round trip: `a` and `b` come back as two further summaries |
| `SummaryStore.StoredSummaryInMemory` | chatybot.py:83 | every stored summary occurs, as it is, in the text `load_memory` returns |
| `Text.JoinLines` | chatybot.py:83 | `"\n".join(parts)`; it has no contract of its own, and `JoinSplit`, `SplitJoin` and `PartOccurs` state its properties |
| `Text.SplitLines` | chatybot.py:83 | `s.split("\n")`, used only to state properties of the memory text: there is always at least one piece, and no piece holds a newline |
| `Text.JoinSplit` | chatybot.py:83 | splitting a joined text on newlines and joining again gives the text back |
| `Text.SplitJoin` | chatybot.py:83 | joining one or more newline-free entries and splitting the result gives the entries back in order |
| `Text.PartOccurs` | chatybot.py:83 | each joined entry occurs unchanged inside the joined text |
| `Text.Strip` | chatybot.py:69 | the stripped text is no longer than the input, and if it is non-empty it neither starts nor ends with whitespace |
| `Text.StripShape` | chatybot.py:69 | the stripped text is a contiguous part of the input, and what lies before and after it is whitespace only |
| `Text.StripAllSpace` | chatybot.py:69 | a whitespace-only reply strips to the empty string |
| `Text.StripIdempotent` | chatybot.py:69 | stripping twice is stripping once |
| `Text.Lower` | chatybot.py:99 | the result has the input's length, and every character is the lower-case form of the input's character at that position |
| `Summarizer.SummarizeEvents` | chatybot.py:52-69 | the summary neither starts nor ends with whitespace |
| `Summarizer.SummaryIsTrimmedReply` | chatybot.py:66-69 | the summary is the backend's reply to the newline-joined history with exactly its leading and trailing whitespace removed |
| `Summarizer.SummaryIsStripped` | chatybot.py:69 | stripping a summary again does not change it |
| `ConversationSpec.IsExitCommand` | chatybot.py:99 | `user_input.lower() == "/exit"`; it has no contract of its own, and `ExitCommandSpelling` states exactly which lines it accepts |
| `ConversationSpec.ExitCommandSpelling` | chatybot.py:99 | a line is the exit command exactly when it is `/exit` with each letter in either case |
| `ConversationSpec.Tag` | chatybot.py:103 | the buffer entry `"User: " + line` for one turn; it has no contract of its own, and `FlushCount` and `HandleConversation` state which of these entries the buffer holds |
| `ConversationSpec.FirstExit` | chatybot.py:97-101 | the loop processes the lines before the first exit command, and that line, if there is one, is an exit command |
| `ConversationSpec.BatchesSnoc` | chatybot.py:103-111 | one more turn either joins the buffer (fewer than 5 entries) or completes a generation of 5 that is summarized and leaves the buffer empty |
| `ConversationSpec.Buffered` | chatybot.py:103-111 | one loop body's effect on the buffer, the summarize trace and the store: the entry is appended, and a buffer that reaches 5 entries is summarized, saved and cleared; `Turn` guarantees it and `AbsorbStep` shows it keeps the loop's invariant |
| `ConversationSpec.AbsorbStep` | chatybot.py:103-111 | one loop iteration keeps the session in the state that the whole stream of turns so far determines |
| `ConversationSpec.BatchesShape` | chatybot.py:103-111 | a stream of N entries is summarized in N / 5 generations of 5 consecutive entries, and its last N % 5 entries stay buffered |
| `ConversationSpec.FlushCount` | chatybot.py:103-111 | from an empty buffer, N turns give exactly N / 5 summarize-and-save cycles, and the buffer holds the entries of the last N % 5 turns |
| `ConversationSpec.FlushCountPrefix` | chatybot.py:103-111 | the same count and remainder for the first n lines of a longer input, the form the loop reaches when it stops early |
| `Conversation.Session.constructor` | chatybot.py:92-93 | the session starts with an empty shared buffer, a zero counter and no summarize calls |
| `Conversation.Session.SummarizeAndSave` | chatybot.py:108-109 | the summary of the current buffer is saved with deduplication, and exactly one summarize call is recorded |
| `Conversation.Session.Turn` | chatybot.py:98-127 | an exit line changes nothing; any other line is appended as a user entry; a buffer reaching 5 entries is summarized, saved and cleared, and the counter is reset; the prompt carries the memory re-read after the save, the remaining buffer joined by newlines, and the line; the counter always equals the buffer length and stays below 5 |
| `Conversation.Session.HandleConversation` | chatybot.py:86-127 | the loop consumes exactly the lines before the first exit command. The summarize calls are the full generations of the old buffer followed by the new entries, and each one's summary is saved in order. The buffer keeps the remainder. From an empty buffer, N turns give exactly N / 5 summarize calls and leave the buffer holding `"User: " + line` for the last N % 5 lines, in arrival order. The store stays duplicate-free |
| `Conversation.Session.Finalize` | chatybot.py:130 | exactly one summarize-and-save of the shared buffer when it is non-empty, none when it is empty; the buffer itself is left unchanged |
| `Conversation.FlushedSummaryInMemory` | chatybot.py:107-113 | the summary saved by a flush occurs in the memory text read afterwards in the same turn |
| `Scenarios.UpperCaseExit` | chatybot.py:99 | `/EXIT` and `/Exit` end the loop; `/exit ` with a trailing space does not |

## Left out

- The language models (`OllamaLLM`, the prompt templates, `chain.invoke`,
  `summary_chain.invoke`) are foreign calls. They enter as two function
  parameters: `SummaryBackend` maps the joined history to raw text, and
  `ChatBackend` maps a `Prompt` to a reply. What the text says is not
  modelled. Each backend is a fixed function, so the same input always gives
  the same text; the real model samples at `temperature=0.7`.
  `HandleConversation`'s store clause relies on this when two generations
  hold the same entries: the model then stores one summary, where the
  sampled model would usually produce two different texts and store both.
- `Prompt` carries only the fields that change from turn to turn: memory,
  context and question. The persona name, the personality text, the
  template wording, the temperature and `max_tokens` are constants with no
  logic.
- The `hasattr(..., "content")` branches duck-type over a library object.
  The model's backends return plain text.
- TinyDB file persistence and `Query` are I/O. The store is an in-memory
  sequence. Its constructor takes whatever earlier runs wrote. The
  duplicate-free property is stated as preserved, not assumed.
- `input()`, `print` and colorama are console I/O. `HandleConversation`
  takes the input lines as a sequence and does not return the printed
  replies. Each reply is in `Turn`'s result.
- When the lines run out before an exit command, `HandleConversation`
  stops. Python's `input()` would raise `EOFError` there, and the `atexit`
  hook would run next, just as after `/exit`.
- How `atexit` is registered, and when the interpreter calls it (signals,
  interruption), is runtime machinery. It is the explicit method
  `Finalize`, which any caller can invoke between turns. An interruption in
  the middle of a turn is not modelled.
- Errors from the store or the backends (exceptions) are not modelled. No
  call in the model can fail.
- `message_count` is a local of `handle_conversation`. The model keeps it as
  the `Session` field `messageCount`, reset by the constructor, because
  `handle_conversation` runs once per process.
- `Text.Lower`: maps only the ASCII letters A–Z. Python's `str.lower` also
  lowercases other letters, and it can change the length (U+0130 becomes
  `i` followed by U+0307), so `|r| == |s|` does not hold for it in general.
  The exit test is unaffected: under Python's full case mapping only the
  ASCII letters E, X, I and T lowercase to `e`, `x`, `i`, `t` (U+212A, the
  Kelvin sign, becomes `k`), and `/` has no case. So `IsExitCommand` agrees
  with `user_input.lower() == "/exit"` on every input.

The model follows the code and adds no safeguard the code lacks:

- An empty or whitespace-only summary is saved as it is. No summary is
  rejected.
- The exit hook does not clear the buffer after its flush. `Finalize`
  leaves `context` as it was.
- The round trip from memory text back to the store is proved for a
  non-empty store whose summaries hold no newline (`ReloadRoundTrip`). These
  conditions are enough but not needed. `ReloadEmptyStore` shows a failing
  empty case, and `ReloadSplitsSummary` a failing store with a two-line
  summary.
