/** The long-term summary store: a TinyDB table of `{summary: text}` records,
    seen here as the sequence of summary texts in storage order. */
module SummaryStore {
  import opened Text

  /** No two stored entries are equal. */
  ghost predicate NoDuplicates(entries: seq<string>)
  {
    forall i, j :: 0 <= i < j < |entries| ==> entries[i] != entries[j]
  }

  /** The store after `save_summary(summary)`: the insert is skipped when an
      entry with exactly this text already exists. */
  function Insert(entries: seq<string>, summary: string): seq<string>
  {
    if summary in entries then entries else entries + [summary]
  }

  /** The store after saving `summaries` one after the other. */
  function SaveAll(entries: seq<string>, summaries: seq<string>): seq<string>
  {
    if summaries == [] then entries
    else Insert(SaveAll(entries, summaries[..|summaries| - 1]), summaries[|summaries| - 1])
  }

  lemma SaveAllSnoc(entries: seq<string>, summaries: seq<string>, summary: string)
    ensures SaveAll(entries, summaries + [summary]) == Insert(SaveAll(entries, summaries), summary)
  {
    assert (summaries + [summary])[..|summaries|] == summaries;
  }

  /** The text `load_memory()` returns: every entry, in storage order, one per line. */
  function Memory(entries: seq<string>): string
  {
    JoinLines(entries)
  }

  /** An insert keeps every earlier entry where it was, adds at most `summary`
      at the end, and afterwards `summary` is stored. */
  lemma InsertKeepsEntries(entries: seq<string>, summary: string)
    ensures summary in Insert(entries, summary)
    ensures entries <= Insert(entries, summary)
    ensures |Insert(entries, summary)| == if summary in entries then |entries| else |entries| + 1
    ensures forall x :: x in Insert(entries, summary) <==> x in entries || x == summary
  {
  }

  lemma InsertPreservesNoDuplicates(entries: seq<string>, summary: string)
    requires NoDuplicates(entries)
    ensures NoDuplicates(Insert(entries, summary))
  {
  }

  /** Saving the same text twice stores it once. */
  lemma InsertIdempotent(entries: seq<string>, summary: string)
    ensures Insert(Insert(entries, summary), summary) == Insert(entries, summary)
  {
  }

  lemma {:induction false} SaveAllPreservesNoDuplicates(entries: seq<string>, summaries: seq<string>)
    requires NoDuplicates(entries)
    ensures NoDuplicates(SaveAll(entries, summaries))
  {
    if summaries != [] {
      var last := |summaries| - 1;
      SaveAllPreservesNoDuplicates(entries, summaries[..last]);
      InsertPreservesNoDuplicates(SaveAll(entries, summaries[..last]), summaries[last]);
    }
  }

  /** After a run of saves the store holds exactly the old entries and the saved texts. */
  lemma {:induction false} SaveAllContents(entries: seq<string>, summaries: seq<string>)
    ensures forall x :: x in SaveAll(entries, summaries) <==> x in entries || x in summaries
    ensures entries <= SaveAll(entries, summaries)
  {
    if summaries != [] {
      var last := |summaries| - 1;
      var before := SaveAll(entries, summaries[..last]);
      SaveAllContents(entries, summaries[..last]);
      InsertKeepsEntries(before, summaries[last]);
      assert summaries == summaries[..last] + [summaries[last]];
    }
  }

  /** Saving texts that are all stored already changes nothing. */
  lemma {:induction false} SaveAllStoredIsNoop(entries: seq<string>, summaries: seq<string>)
    requires forall k :: 0 <= k < |summaries| ==> summaries[k] in entries
    ensures SaveAll(entries, summaries) == entries
  {
    if summaries != [] {
      SaveAllStoredIsNoop(entries, summaries[..|summaries| - 1]);
    }
  }

  /** Loading the memory text, splitting it into lines and saving every line
      back leaves a non-empty store of newline-free summaries as it was. */
  lemma ReloadRoundTrip(entries: seq<string>)
    requires |entries| >= 1
    requires forall k :: 0 <= k < |entries| ==> '\n' !in entries[k]
    ensures SaveAll(entries, SplitLines(Memory(entries))) == entries
  {
    SplitJoin(entries);
    SaveAllStoredIsNoop(entries, entries);
  }

  /** For the empty store the round trip does not hold: its memory text is
      empty, which splits into one empty line. */
  lemma ReloadEmptyStore()
    ensures SaveAll([], SplitLines(Memory([]))) == [""]
  {
  }

  /** A summary that holds a newline does not survive the round trip: its
      lines come back as further summaries. */
  lemma ReloadSplitsSummary(a: string, b: string)
    requires '\n' !in a && '\n' !in b && a != b
    ensures SaveAll([a + "\n" + b], SplitLines(Memory([a + "\n" + b]))) == [a + "\n" + b, a, b]
  {
    SplitJoin([a, b]);
    assert JoinLines([a, b]) == a + "\n" + b;
    var joined := a + "\n" + b;
    assert SplitLines(Memory([joined])) == [a, b];
    assert [a, b][..1] == [a] && [a][..0] == [];
    assert |joined| > |a| && |joined| > |b|;
    assert SaveAll([joined], [a]) == [joined, a];
    assert b !in [joined, a];
  }

  /** A stored summary appears, as it is, in the memory text. */
  lemma StoredSummaryInMemory(entries: seq<string>, summary: string) returns (k: nat)
    requires summary in entries
    ensures k + |summary| <= |Memory(entries)|
    ensures Memory(entries)[k..k + |summary|] == summary
  {
    var i :| 0 <= i < |entries| && entries[i] == summary;
    k := PartOccurs(entries, i);
  }

  /** The TinyDB database `memory.json`. */
  class Store {
    var entries: seq<string>

    /** Opens a store already holding `persisted` (the records earlier runs wrote). */
    constructor (persisted: seq<string>)
      ensures entries == persisted
    {
      entries := persisted;
    }

    /** `db.contains(UserData.summary == summary)`. */
    method Contains(summary: string) returns (found: bool)
      ensures found <==> exists i :: 0 <= i < |entries| && entries[i] == summary
    {
      found := summary in entries;
    }

    /** `save_summary(summary)`. */
    method SaveSummary(summary: string)
      modifies this
      ensures entries == Insert(old(entries), summary)
    {
      var found := Contains(summary);
      if !found {
        entries := entries + [summary];
      }
    }

    /** `load_memory()`. */
    function LoadMemory(): string
      reads this
    {
      Memory(entries)
    }
  }
}
