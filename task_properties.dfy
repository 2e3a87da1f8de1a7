/** Properties of the task operations that relate several of them or that
    are about one function over all its inputs. */
module TaskProperties {
  import opened Optional
  import opened Strings
  import opened Numbers
  import opened StringSlices
  import opened Vocab
  import opened CmdLines
  import opened Tasks

  /** `Task.String` shows the ID in decimal, in front of the summary and
      separated from it by ": ", for a task with a positive ID; the ID can be
      read back from that prefix. Without a positive ID only the summary is
      shown. */
  lemma StringShowsId(t: Task)
    ensures t.id <= 0 ==> t.String() == t.summary
    ensures 0 < t.id && InInt64(t.id) ==>
      exists p :: t.String() == p + ": " + t.summary && ParseDecimalInt64(p) == Some(t.id)
  {
    if 0 < t.id && InInt64(t.id) {
      ItoaRoundTrip(t.id);
      var p := Itoa(t.id);
      assert t.String() == p + ": " + t.summary;
    }
  }

  /** An empty filter matches every task. */
  lemma EmptyFilterMatchesAll(t: Task)
    ensures t.MatchesFilter(EmptyCmdLine)
  {
  }

  /** What a context demands of a task on its own: its tags and anti-tags,
      its project and its priority (a context's other fields are not merged). */
  predicate ContextHolds(t: Task, context: CmdLine)
    reads t
  {
    && (forall x :: x in context.tags ==> x in t.tags)
    && (forall x :: x in context.antiTags ==> x !in t.tags)
    && (context.project != "" ==> t.project == context.project)
    && (context.priority != "" ==> t.priority == context.priority)
  }

  /** Without IDs, filtering by a command line with a context merged in is
      filtering by the command line and the context together. */
  lemma MergeConjoinsContext(t: Task, c: CmdLine, context: CmdLine)
    requires Merge(c, context).Merged? && c.ids == []
    ensures t.MatchesFilter(Merge(c, context).cmdLine) <==> t.MatchesFilter(c) && ContextHolds(t, context)
  {
    var m := Merge(c, context).cmdLine;
    assert m.ids == [];
    assert (forall x :: x in m.tags ==> x in t.tags)
       <==> (forall x :: x in c.tags ==> x in t.tags) && (forall x :: x in context.tags ==> x in t.tags);
    assert (forall x :: x in m.antiTags ==> x !in t.tags)
       <==> (forall x :: x in c.antiTags ==> x !in t.tags) && (forall x :: x in context.antiTags ==> x !in t.tags);
  }

  /** With IDs, a merged context changes nothing about which tasks match. */
  lemma MergeKeepsIdSelection(t: Task, c: CmdLine, context: CmdLine)
    requires Merge(c, context).Merged? && c.ids != []
    ensures t.MatchesFilter(Merge(c, context).cmdLine) == t.MatchesFilter(c)
  {
  }

  /** `Task.LongSummary` for notes whose last line is `latest`: the summary
      alone when that line is empty (empty notes, or notes ending in a
      newline), the summary, the note keyword and that line otherwise. */
  lemma LongSummaryShowsLastLine(t: Task, v: Vocabulary, earlier: string, latest: string)
    requires '\n' !in latest
    requires t.notes == latest || t.notes == earlier + "\n" + latest
    ensures t.LongSummary(v) == if latest == "" then t.summary
                                else t.summary + " " + v.noteModeKeyword + " " + latest
  {
    if t.notes == latest {
      LastLineWithoutNewline(latest);
    } else {
      LastLineAfterNewline(earlier, latest);
    }
  }

  /** Every string of notes has the shape `LongSummaryShowsLastLine` asks
      for: its last line has no newline, and it is either the whole string or
      the text after the newline that ends the earlier lines. */
  lemma NotesHaveLastLine(notes: string)
    ensures var latest := LastLine(notes);
      && '\n' !in latest
      && (notes == latest || notes == notes[..|notes| - |latest| - 1] + "\n" + latest)
  {
    var latest := LastLine(notes);
    var n := |notes| - |latest|;
    if latest != notes {
      assert notes[n - 1] == '\n';
      assert notes == notes[..n - 1] + [notes[n - 1]] + notes[n..];
    }
  }
}
