/** The chat loop of `handle_conversation` and the `atexit` flush. */
module Conversation {
  import opened Text
  import opened SummaryStore
  import opened Summarizer
  import opened ConversationSpec

  /** The fields of the main prompt that change from turn to turn; the
      persona name and the personality text are constants. */
  datatype Prompt = Prompt(memory: string, context: string, question: string)

  /** The main chain: the model's reply to a filled prompt. */
  type ChatBackend = Prompt -> string

  /** What one pass through the loop body does with its input line. */
  datatype TurnResult = Exited | Answered(prompt: Prompt, response: string)

  /** The state of a chat session: the shared buffer `global_context` (which
      `context` aliases), the loop's `message_count`, and the database. */
  class Session {
    var context: seq<string>
    var messageCount: nat
    const db: Store
    const summaryBackend: SummaryBackend
    const chatBackend: ChatBackend
    /** Every buffer generation passed to `summarize_events`, in call order. */
    ghost var summarized: seq<seq<string>>

    /** The counter counts the buffer's entries and stays below the threshold
        between turns. */
    ghost predicate Valid()
      reads this
    {
      messageCount == |context| && messageCount < MaxHistory
    }

    /** Module start and the beginning of `handle_conversation`: the buffer
        is empty, the counter zero and the database holds what earlier runs
        stored. */
    constructor (db: Store, summaryBackend: SummaryBackend, chatBackend: ChatBackend)
      ensures Valid()
      ensures context == [] && summarized == []
      ensures this.db == db && this.summaryBackend == summaryBackend && this.chatBackend == chatBackend
    {
      this.db := db;
      this.summaryBackend := summaryBackend;
      this.chatBackend := chatBackend;
      context := [];
      messageCount := 0;
      summarized := [];
    }

    /** `save_summary(summarize_events(context))`. */
    method SummarizeAndSave()
      modifies db, this`summarized
      ensures db.entries == Insert(old(db.entries), SummarizeEvents(summaryBackend, context))
      ensures summarized == old(summarized) + [context]
      ensures NoDuplicates(old(db.entries)) ==> NoDuplicates(db.entries)
    {
      var summary := SummarizeEvents(summaryBackend, context);
      summarized := summarized + [context];
      if NoDuplicates(db.entries) {
        InsertPreservesNoDuplicates(db.entries, summary);
      }
      db.SaveSummary(summary);
    }

    /** One pass through the body of the `while True` loop. An exit command
        changes nothing. Any other line is appended as a user turn; a full
        buffer is summarized, saved and cleared; then the memory is read
        back from the database for the prompt. */
    method Turn(input: string) returns (result: TurnResult)
      requires Valid()
      modifies this, db
      ensures Valid()
      ensures IsExitCommand(input) ==>
        result == Exited && context == old(context) && db.entries == old(db.entries)
        && summarized == old(summarized)
      ensures !IsExitCommand(input) ==>
        Buffered(old(context), old(summarized), old(db.entries), Tag(input), summaryBackend,
                 context, summarized, db.entries)
      ensures !IsExitCommand(input) ==>
        result == Answered(Prompt(Memory(db.entries), JoinLines(context), input),
                              chatBackend(Prompt(Memory(db.entries), JoinLines(context), input)))
      ensures NoDuplicates(old(db.entries)) ==> NoDuplicates(db.entries)
    {
      if Lower(input) == ExitCommand {
        return Exited;
      }
      context := context + [Tag(input)];
      messageCount := messageCount + 1;
      if messageCount >= MaxHistory {
        SummarizeAndSave();
        context := [];
        messageCount := 0;
      }
      var memory := db.LoadMemory();
      var prompt := Prompt(memory, JoinLines(context), input);
      result := Answered(prompt, chatBackend(prompt));
    }

    /** `handle_conversation()` fed the lines `inputs`: it stops at the first
        exit command, or when the input runs out. The turns before it reach
        the buffer in order, every full generation is summarized and saved,
        and the buffer keeps what is left over. */
    method HandleConversation(inputs: seq<string>) returns (turns: nat)
      requires Valid()
      modifies this, db
      ensures Valid()
      ensures turns == FirstExit(inputs)
      ensures var stream := old(context) + Tags(inputs[..turns]);
        summarized == old(summarized) + Batches(stream) && context == Leftover(stream)
        && db.entries == SaveAll(old(db.entries), Summaries(summaryBackend, Batches(stream)))
      ensures old(context) == [] ==>
        context == Tags(inputs[turns - turns % MaxHistory..turns])
        && |summarized| == |old(summarized)| + turns / MaxHistory
      ensures NoDuplicates(old(db.entries)) ==> NoDuplicates(db.entries)
    {
      ghost var start, log, entries := context, summarized, db.entries;
      ghost var stream := start;
      assert start + Tags(inputs[..0]) == start;
      var i := 0;
      while i < |inputs|
        invariant i <= FirstExit(inputs)
        invariant stream == start + Tags(inputs[..i])
        invariant Valid()
        invariant Absorbed(stream, summaryBackend, log, entries, context, summarized, db.entries)
        invariant NoDuplicates(entries) ==> NoDuplicates(db.entries)
      {
        ghost var context0, summarized0, stored0 := context, summarized, db.entries;
        var result := Turn(inputs[i]);
        if result.Exited? {
          break;
        }
        FirstExitStep(inputs, i);
        AbsorbStep(stream, Tag(inputs[i]), summaryBackend, log, entries, context0, summarized0, stored0,
                   context, summarized, db.entries);
        TagsStep(inputs, i);
        stream := stream + [Tag(inputs[i])];
        i := i + 1;
      }
      if i < |inputs| {
        FirstExitAt(inputs, i);
      }
      turns := i;
      if start == [] {
        assert stream == Tags(inputs[..i]);
        FlushCountPrefix(inputs, i);
      }
    }

    /** The `atexit` hook: summarize and save the shared buffer once if it is
        non-empty. The buffer itself is left as it is. */
    method Finalize()
      modifies db, this`summarized
      ensures old(context) != [] ==>
        db.entries == Insert(old(db.entries), SummarizeEvents(summaryBackend, context))
        && summarized == old(summarized) + [context]
      ensures old(context) == [] ==>
        db.entries == old(db.entries) && summarized == old(summarized)
      ensures NoDuplicates(old(db.entries)) ==> NoDuplicates(db.entries)
    {
      if context != [] {
        SummarizeAndSave();
      }
    }
  }

  /** The summary saved by a flush is in the memory text read afterwards in
      the same turn. */
  lemma FlushedSummaryInMemory(entries: seq<string>, summary: string) returns (k: nat)
    ensures k + |summary| <= |Memory(Insert(entries, summary))|
    ensures Memory(Insert(entries, summary))[k..k + |summary|] == summary
  {
    InsertKeepsEntries(entries, summary);
    k := StoredSummaryInMemory(Insert(entries, summary), summary);
  }
}
