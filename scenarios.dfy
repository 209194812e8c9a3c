/** Two sessions proved from the contracts alone, whatever the backends answer. */
module Scenarios {
  import opened SummaryStore
  import opened Summarizer
  import opened ConversationSpec
  import opened Conversation

  /** Exactly `MaxHistory` entries make one generation and leave nothing over. */
  lemma OneGeneration(s: seq<string>)
    requires |s| == MaxHistory
    ensures Batches(s) == [s] && Leftover(s) == []
  {
    assert s[..MaxHistory] == s && s[MaxHistory..] == [];
  }

  /** Five turns, none of them the exit command, into an empty buffer and
      an empty store: the fifth turn triggers exactly one summarize-and-save,
      after which the store has one entry and the buffer and counter are back
      to empty and zero. */
  method FiveTurns(summaryBackend: SummaryBackend, chatBackend: ChatBackend, inputs: seq<string>)
    requires |inputs| == 5
    requires forall k :: 0 <= k < 5 ==> !IsExitCommand(inputs[k])
  {
    var db := new Store([]);
    var session := new Session(db, summaryBackend, chatBackend);
    var turns := session.HandleConversation(inputs);
    var tags := Tags(inputs);
    assert turns == 5 && inputs[..turns] == inputs;
    assert [] + tags == tags;
    OneGeneration(tags);
    assert session.summarized == [tags];
    var summaries := Summaries(summaryBackend, [tags]);
    assert summaries == [SummarizeEvents(summaryBackend, tags)];
    assert SaveAll([], summaries) == Insert([], summaries[0]);
    assert session.context == [] && session.messageCount == 0;
    assert db.entries == [SummarizeEvents(summaryBackend, tags)];
  }

  /** Three turns, then an exit command, then the exit hook: the three
      turns stay buffered, and the hook summarizes and saves them once and
      leaves them in the buffer. */
  method ThreeTurnsThenExit(summaryBackend: SummaryBackend, chatBackend: ChatBackend, inputs: seq<string>)
    requires |inputs| >= 4
    requires forall k :: 0 <= k < 3 ==> !IsExitCommand(inputs[k])
    requires IsExitCommand(inputs[3])
  {
    var db := new Store([]);
    var session := new Session(db, summaryBackend, chatBackend);
    var turns := session.HandleConversation(inputs);
    var tags := Tags(inputs[..3]);
    assert turns == 3 && [] + tags == tags;
    assert session.summarized == [] && db.entries == [] && session.context == tags;
    session.Finalize();
    assert session.summarized == [tags];
    assert db.entries == [SummarizeEvents(summaryBackend, tags)];
    assert session.context == tags;
  }

  /** `/exit` in any mix of upper and lower case ends the loop. */
  lemma UpperCaseExit()
    ensures IsExitCommand("/EXIT") && IsExitCommand("/Exit") && !IsExitCommand("/exit ")
  {
  }
}
