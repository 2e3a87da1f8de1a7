/** The task record and the operations of task.go: applying a standing
    context to a command line, deciding whether a task passes a filter,
    putting a task into canonical form, validating it, and the two summary
    renderings. */
module Tasks {
  import opened Optional
  import opened Strings
  import opened Numbers
  import opened StringSlices
  import opened Vocab
  import opened CmdLines

  datatype SubTask = SubTask(summary: string, resolved: bool)

  // ---------------------------------------------------------------------
  // MergeContext

  /** Which of the two irreconcilable cases stopped the merge. */
  datatype ConflictKind = ProjectConflict | PriorityConflict

  /** The outcome of applying a context: the merged command line, or the
      conflict that makes the program exit with an error. */
  datatype MergeResult = Merged(cmdLine: CmdLine) | Conflict(kind: ConflictKind)

  /** What `MergeContext` leaves in `cmdLine`: context tags and anti-tags not
      yet present are appended; a context project replaces an empty or equal
      one and conflicts with a different one; a context priority fills an
      empty one and conflicts with any other, even an equal one. The project
      is checked before the priority. */
  function Merge(c: CmdLine, context: CmdLine): MergeResult {
    if context.project != "" && c.project != "" && c.project != context.project then
      Conflict(ProjectConflict)
    else if context.priority != "" && c.priority != "" then
      Conflict(PriorityConflict)
    else
      Merged(c.(tags := AppendMissing(c.tags, context.tags),
                antiTags := AppendMissing(c.antiTags, context.antiTags),
                project := if context.project != "" then context.project else c.project,
                priority := if context.priority != "" then context.priority else c.priority))
  }

  lemma AppendMissingSnoc(base: seq<string>, extra: seq<string>, i: nat)
    requires i < |extra|
    ensures AppendMissing(base, extra[..i + 1])
            == var acc := AppendMissing(base, extra[..i]);
               if extra[i] in acc then acc else acc + [extra[i]]
  {
    assert extra[..i + 1][..i] == extra[..i];
  }

  /** `CmdLine.MergeContext`: the two appending loops, then the project and
      priority rules. */
  method MergeContext(cmdLine: CmdLine, context: CmdLine) returns (r: MergeResult)
    ensures r == Merge(cmdLine, context)
  {
    var c := cmdLine;
    for i := 0 to |context.tags|
      invariant c == cmdLine.(tags := AppendMissing(cmdLine.tags, context.tags[..i]))
    {
      AppendMissingSnoc(cmdLine.tags, context.tags, i);
      var tag := context.tags[i];
      if tag !in c.tags {
        c := c.(tags := c.tags + [tag]);
      }
    }
    assert context.tags[..|context.tags|] == context.tags;

    ghost var withTags := c;
    for i := 0 to |context.antiTags|
      invariant c == withTags.(antiTags := AppendMissing(cmdLine.antiTags, context.antiTags[..i]))
    {
      AppendMissingSnoc(cmdLine.antiTags, context.antiTags, i);
      var tag := context.antiTags[i];
      if tag !in c.antiTags {
        c := c.(antiTags := c.antiTags + [tag]);
      }
    }
    assert context.antiTags[..|context.antiTags|] == context.antiTags;

    if context.project != "" {
      if c.project != "" && c.project != context.project {
        return Conflict(ProjectConflict);
      } else {
        c := c.(project := context.project);
      }
    }

    if context.priority != "" {
      if c.priority != "" {
        return Conflict(PriorityConflict);
      } else {
        c := c.(priority := context.priority);
      }
    }
    return Merged(c);
  }

  /** Tags and anti-tags after merging: the original list is kept as a
      prefix, every context entry is present, and each appended entry was
      present neither before nor earlier in the appended part. */
  lemma MergeTagRule(c: CmdLine, context: CmdLine)
    requires Merge(c, context).Merged?
    ensures var m := Merge(c, context).cmdLine;
      && c.tags <= m.tags && c.antiTags <= m.antiTags
      && (forall t :: t in context.tags ==> t in m.tags)
      && (forall t :: t in context.antiTags ==> t in m.antiTags)
      && (forall t :: t in m.tags ==> t in c.tags || t in context.tags)
      && (forall t :: t in m.antiTags ==> t in c.antiTags || t in context.antiTags)
      && (forall j, k :: 0 <= j < k < |m.tags| && |c.tags| <= k ==> m.tags[j] != m.tags[k])
      && (forall j, k :: 0 <= j < k < |m.antiTags| && |c.antiTags| <= k ==> m.antiTags[j] != m.antiTags[k])
  {
  }

  /** The project rule: an empty context project leaves the project alone;
      otherwise an empty or equal project becomes the context's, and a
      different non-empty one is a conflict. */
  lemma MergeProjectRule(c: CmdLine, context: CmdLine)
    ensures context.project == "" ==> Merge(c, context) != Conflict(ProjectConflict)
    ensures context.project == "" && Merge(c, context).Merged? ==>
              Merge(c, context).cmdLine.project == c.project
    ensures (context.project != "" && (c.project == "" || c.project == context.project)
             && Merge(c, context).Merged?) ==> Merge(c, context).cmdLine.project == context.project
    ensures context.project != "" && c.project != "" && c.project != context.project ==>
              Merge(c, context) == Conflict(ProjectConflict)
  {
  }

  /** The priority rule: a context priority meeting any non-empty priority is
      a conflict, even an equal one; otherwise it is copied in. Without a
      project conflict the merge fails exactly in that case. */
  lemma MergePriorityRule(c: CmdLine, context: CmdLine)
    requires !(context.project != "" && c.project != "" && c.project != context.project)
    ensures Merge(c, context).Conflict? <==> context.priority != "" && c.priority != ""
    ensures context.priority != "" && c.priority != "" ==> Merge(c, context) == Conflict(PriorityConflict)
    ensures Merge(c, context).Merged? ==>
              Merge(c, context).cmdLine.priority == if context.priority != "" then context.priority else c.priority
  {
  }

  /** A merge touches nothing but tags, anti-tags, project and priority. */
  lemma MergeKeepsOtherFields(c: CmdLine, context: CmdLine)
    requires Merge(c, context).Merged?
    ensures var m := Merge(c, context).cmdLine;
      m.(tags := c.tags, antiTags := c.antiTags, project := c.project, priority := c.priority) == c
  {
  }

  // ---------------------------------------------------------------------
  // Loops of MatchesFilter and Validate

  /** The tag loop of `MatchesFilter`: fails at the first entry of `need`
      missing from `have`. */
  function AllContained(need: seq<string>, have: seq<string>): (r: bool)
    ensures r <==> forall x :: x in need ==> x in have
    decreases |need|
  {
    if |need| == 0 then true
    else if need[0] !in have then false
    else
      assert forall x :: x in need ==> x == need[0] || x in need[1..];
      AllContained(need[1..], have)
  }

  /** The anti-tag loop of `MatchesFilter`: fails at the first entry of `xs`
      found in `have`. */
  function NoneContained(xs: seq<string>, have: seq<string>): (r: bool)
    ensures r <==> forall x :: x in xs ==> x !in have
    decreases |xs|
  {
    if |xs| == 0 then true
    else if xs[0] in have then false
    else
      assert forall x :: x in xs ==> x == xs[0] || x in xs[1..];
      NoneContained(xs[1..], have)
  }

  /** The dependency loop of `Validate`: fails at the first invalid UUID. */
  function AllValidUuids(v: Vocabulary, uuids: seq<string>): (r: bool)
    ensures r <==> forall u :: u in uuids ==> v.isValidUuid4(u)
    decreases |uuids|
  {
    if |uuids| == 0 then true
    else if !v.isValidUuid4(uuids[0]) then false
    else
      assert forall u :: u in uuids ==> u == uuids[0] || u in uuids[1..];
      AllValidUuids(v, uuids[1..])
  }

  // ---------------------------------------------------------------------
  // Normalise

  function LowerAll(ts: seq<string>): (r: seq<string>)
    ensures |r| == |ts|
    ensures forall i :: 0 <= i < |ts| ==> r[i] == Lower(ts[i])
  {
    seq(|ts|, i requires 0 <= i < |ts| => Lower(ts[i]))
  }

  /** The tag list `Normalise` leaves: lower-cased, sorted, deduplicated. It
      is sorted, has no duplicates, holds only lower-case tags and holds
      exactly the lower-cased input tags. */
  function NormaliseTags(ts: seq<string>): (r: seq<string>)
    ensures Sorted(r) && NoDuplicates(r)
    ensures forall t :: t in r ==> IsLowerString(t)
    ensures forall x :: x in r <==> x in LowerAll(ts)
  {
    var lowered := LowerAll(ts);
    var sorted := SortStrings(lowered);
    assert forall x :: x in sorted <==> x in lowered by {
      forall x ensures x in sorted <==> x in lowered {
        assert x in sorted <==> x in multiset(sorted);
        assert x in lowered <==> x in multiset(lowered);
      }
    }
    DeduplicateKeepsSorted(sorted);
    var r := DeduplicateStrings(sorted);
    assert forall t :: t in r ==> IsLowerString(t) by {
      forall t | t in r ensures IsLowerString(t) {
        var i :| 0 <= i < |lowered| && lowered[i] == t;
        LowerIsLower(ts[i]);
      }
    }
    r
  }

  /** A tag list that is already normal is left as it is. */
  lemma NormalTagsAreFixed(ts: seq<string>)
    requires Sorted(ts) && NoDuplicates(ts)
    requires forall t :: t in ts ==> IsLowerString(t)
    ensures NormaliseTags(ts) == ts
  {
    assert LowerAll(ts) == ts by {
      forall i | 0 <= i < |ts| ensures LowerAll(ts)[i] == ts[i] {
        LowerOfLower(ts[i]);
      }
    }
    SortSortedIsIdentity(ts);
    DeduplicateDistinctIsIdentity(ts);
  }

  /** Normalising tags twice is normalising them once. */
  lemma NormaliseTagsIdempotent(ts: seq<string>)
    ensures NormaliseTags(NormaliseTags(ts)) == NormaliseTags(ts)
  {
    NormalTagsAreFixed(NormaliseTags(ts));
  }

  // ---------------------------------------------------------------------
  // The task

  /** Validation failures, in the order `Validate` checks for them. */
  datatype ValidationError = InvalidUuid | InvalidStatus | InvalidPriority | InvalidDependencyUuid

  /** A task. The time stamps (created, resolved, due) are not modelled. */
  class Task {
    var uuid: string
    var status: string
    var writePending: bool
    var id: int
    var summary: string
    var notes: string
    var tags: seq<string>
    var project: string
    var priority: string
    var delegatedTo: string
    var subtasks: seq<SubTask>
    var dependencies: seq<string>
    var schedule: string
    var parent: string

    /** `Task.String`: "<id>: <summary>" for a task with a positive ID, the
        summary alone otherwise. */
    function String(): string
      reads this
    {
      if id > 0 then Itoa(id) + ": " + summary else summary
    }

    /** `Task.MatchesFilter`, in the source's order: the ID list first, then
        tags, anti-tags, anti-projects, project, priority and text. */
    function MatchesFilter(c: CmdLine): (r: bool)
      reads this
      ensures id in c.ids ==> r
      ensures c.ids != [] && id !in c.ids ==> !r
      ensures c.ids == [] ==>
        (r <==>
          && (forall t :: t in c.tags ==> t in tags)
          && (forall t :: t in c.antiTags ==> t !in tags)
          && project !in c.antiProjects
          && (c.project != "" ==> project == c.project)
          && (c.priority != "" ==> priority == c.priority)
          && (c.text != "" ==> IsSubstring(Lower(c.text), Lower(summary + notes))))
    {
      if id in c.ids then true
      else if |c.ids| > 0 then false
      else if !AllContained(c.tags, tags) then false
      else if !NoneContained(c.antiTags, tags) then false
      else if project in c.antiProjects then false
      else if c.project != "" && project != c.project then false
      else if c.priority != "" && priority != c.priority then false
      else if c.text != "" && !Contains(Lower(summary + notes), Lower(c.text)) then false
      else true
    }

    /** The canonical form `Normalise` establishes: a lower-case project;
        lower-case, sorted, duplicate-free tags; no ID on a resolved task; a
        priority that is set unless the default priority is itself empty. */
    predicate IsNormal(v: Vocabulary)
      reads this
    {
      && IsLowerString(project)
      && Sorted(tags) && NoDuplicates(tags)
      && (forall t :: t in tags ==> IsLowerString(t))
      && (status == v.statusResolved ==> id == 0)
      && (priority == "" ==> v.priorityNormal == "")
    }

    /** `Task.Normalise`: lower-cases the project and the tags (tag by tag, in
        place), sorts and deduplicates the tags, clears the ID of a resolved
        task and gives an unset priority the default. The task is normal
        afterwards, and a task that was already normal is left unchanged, so
        normalising twice is normalising once. */
    method Normalise(v: Vocabulary)
      modifies this`project, this`tags, this`id, this`priority
      ensures project == Lower(old(project))
      ensures tags == NormaliseTags(old(tags))
      ensures id == if old(status) == v.statusResolved then 0 else old(id)
      ensures priority == if old(priority) == "" then v.priorityNormal else old(priority)
      ensures IsNormal(v)
      ensures old(IsNormal(v)) ==>
                project == old(project) && tags == old(tags) && id == old(id) && priority == old(priority)
    {
      ghost var wasNormal := IsNormal(v);
      project := Lower(project);

      NormaliseTagsInPlace();

      if status == v.statusResolved {
        id := 0;
      }
      if priority == "" {
        priority := v.priorityNormal;
      }

      LowerIsLower(old(project));
      assert IsNormal(v);
      if wasNormal {
        LowerOfLower(old(project));
        NormalTagsAreFixed(old(tags));
      }
    }

    /** The tag steps of `Normalise`. */
    method NormaliseTagsInPlace()
      modifies this`tags
      ensures tags == NormaliseTags(old(tags))
    {
      LowerTags();
      SortAndDeduplicateTags();
    }

    /** The sorting and deduplicating step of `Normalise`. */
    method SortAndDeduplicateTags()
      modifies this`tags
      ensures tags == DeduplicateStrings(SortStrings(old(tags)))
    {
      tags := SortStrings(tags);
      tags := DeduplicateStrings(tags);
    }

    /** The tag loop of `Normalise`: lower-cases each tag in place. */
    method LowerTags()
      modifies this`tags
      ensures tags == LowerAll(old(tags))
    {
      var i := 0;
      while i < |tags|
        invariant 0 <= i <= |tags| == |old(tags)|
        invariant forall k :: 0 <= k < i ==> tags[k] == Lower(old(tags)[k])
        invariant forall k :: i <= k < |tags| ==> tags[k] == old(tags)[k]
      {
        tags := tags[i := Lower(tags[i])];
        i := i + 1;
      }
    }

    /** `Task.Validate`: reports the first failing check, in the order UUID,
        status, priority, dependency UUIDs, and nothing when all pass. */
    function Validate(v: Vocabulary): (r: Option<ValidationError>)
      reads this
      ensures r == None <==>
        && v.isValidUuid4(uuid) && v.isValidStatus(status) && v.isValidPriority(priority)
        && (forall d :: d in dependencies ==> v.isValidUuid4(d))
      ensures r == Some(InvalidUuid) <==> !v.isValidUuid4(uuid)
      ensures r == Some(InvalidStatus) <==> v.isValidUuid4(uuid) && !v.isValidStatus(status)
      ensures r == Some(InvalidPriority) <==>
        v.isValidUuid4(uuid) && v.isValidStatus(status) && !v.isValidPriority(priority)
      ensures r == Some(InvalidDependencyUuid) <==>
        && v.isValidUuid4(uuid) && v.isValidStatus(status) && v.isValidPriority(priority)
        && (exists d :: d in dependencies && !v.isValidUuid4(d))
    {
      if !v.isValidUuid4(uuid) then Some(InvalidUuid)
      else if !v.isValidStatus(status) then Some(InvalidStatus)
      else if !v.isValidPriority(priority) then Some(InvalidPriority)
      else if !AllValidUuids(v, dependencies) then Some(InvalidDependencyUuid)
      else None
    }

    /** `Task.LongSummary`: the summary, followed by the note keyword and the
        last line of the notes when that line is not empty. */
    function LongSummary(v: Vocabulary): string
      reads this
    {
      var lastNote := LastLine(notes);
      if |lastNote| > 0 then summary + " " + v.noteModeKeyword + " " + lastNote
      else summary
    }
  }
}
