# dstask filter and query core, modelled in Dafny

dstask is a command-line task manager. Every invocation is a list of words,
and the program turns it into a `CmdLine` record:

- an optional command;
- leading task IDs;
- `+tag` and `-tag` selectors;
- `project:` and `-project:` selectors;
- a priority;
- the ignore-context keyword;
- free text;
- the words after the note keyword.

That record then filters tasks. A standing *context* (itself a `CmdLine`) can
be merged into a command line. Before a task is stored it is normalised and
validated.

This project models the two files that do this work: `cmdline.go` (the
classifier `ParseCmdLine` and the renderer `CmdLine.String`) and `task.go`
(the task record, `MergeContext`, `MatchesFilter`, `Normalise`, `Validate`,
`String` and `LongSummary`). It proves what these promise.

Layout:

- `optional.dfy`: `Option`.
- `strings.dfy`: ASCII `strings.ToLower`, `HasPrefix`, `Contains`, `Join`,
  and the last element of `strings.Split(s, "\n")`.
- `numbers.dfy`: `strconv.ParseInt(s, 10, 64)` and `strconv.Itoa`, with the
  round trip between them.
- `string_slices.dfy`: Go's string order, `sort.Strings`, the
  append-if-missing loop, and `DeduplicateStrings`.
- `vocabulary.dfy`: the reserved words and recognisers defined outside the
  core, passed in as a `Vocabulary` value.
- `cmdline.dfy`: the `CmdLine` record, the parser loop and the renderer.
- `cmdline_properties.dfy`: the classifier's rules and the render-then-parse
  round trip.
- `task.dfy`: the `Task` class and its operations, and `MergeContext`.
- `task_properties.dfy`: properties that relate several task operations.

How the pieces fit:

- **The parser.** `ParseCmdLine` is a method with the source's single loop
  and its twelve local variables.
  - Its invariant ties those variables to `Scan(v, args[..i])`.
  - `Scan` is the loop body `Step` folded over the arguments read so far.
  - The shape rules are lemmas about `Scan`: the sigil, project,
    ignore-context, note-keyword and plain-word rules. Each is stated for
    one more token after any prefix of the arguments.
  - The command rule (`StepCmd`) is stated about one `Step` from any state.
    So are the lemmas for a single tag, anti-tag, project, anti-project or
    priority token, from a state whose IDs are exhausted.
- **The renderer.** `String` builds the argument list with the source's
  loops and ifs, and joins it with single spaces.
- **MergeContext** is a method on `CmdLine` values, because `CmdLine` is a
  value record everywhere else in the model.
  - It runs the two appending loops, then the project and priority checks.
  - A fatal exit becomes a `Conflict` result.
  - Its contract ties the result to the function `Merge`. The rules are
    lemmas about `Merge`.
- **The Task class.** `Task` is a class because `Normalise` updates its
  fields in place. `MatchesFilter`, `Validate`, `String` and `LongSummary`
  are functions that read the task.

## Model

| member | source | states |
|---|---|---|
| CmdLines.ParseCmdLine | cmdline.go:74-140 | the loop over the arguments yields `Parse(v, args)`, the fold of the per-token step finished into a `CmdLine`, and the schedule is always empty |
| CmdLines.String | cmdline.go:31-66 | the rendering is the single-space join of `RenderArgs(c)`: IDs, `+tag`s, `-antitag`s, `project:p`, `-project:p`s, priority, quoted text, quoted schedule, each left out when empty |
| CmdLines.AppendIds | cmdline.go:34-36 | the ID loop appends `strconv.Itoa` of every ID, in order |
| CmdLines.AppendPrefixed | cmdline.go:38-51 | the tag, anti-tag and anti-project loops append every entry behind its sigil, in order |
| CmdLines.IdArgs | cmdline.go:34-36 | one token per ID, the k-th being the decimal form of the k-th ID |
| CmdLines.Prefixed | cmdline.go:38-51 | one token per entry, the k-th being the sigil followed by the k-th entry |
| CmdLineProperties.RunAppend | cmdline.go:90-125 | reading `a` and then `b` leaves the state that reading `a + b` leaves |
| CmdLineProperties.ParseAllIds | cmdline.go:90-139 | integer tokens with no command name among them give exactly those integers as IDs, in order, IDs not exhausted, and every other field empty |
| CmdLineProperties.ScanAllIds | cmdline.go:90-100 | the same for the loop state: only the ID list changes, one ID per token |
| CmdLineProperties.RunIdTokens | cmdline.go:97-100 | from a state with IDs not exhausted, tokens that all read as IDs append exactly their values |
| CmdLineProperties.ScanGrows | cmdline.go:90-125 | between any two points of the argument list every accumulator only grows, the exhaustion, note-mode and ignore-context flags stay set, and a set command is never replaced |
| CmdLineProperties.StepGrows | cmdline.go:90-124 | one token only grows the state |
| CmdLineProperties.ClassifyGrows | cmdline.go:104-124 | the shape rules only grow the state |
| CmdLineProperties.ClassifyKeepsIds | cmdline.go:104-124 | the shape rules never touch the IDs, the command or the exhaustion flag |
| CmdLineProperties.ExhaustedIsPermanent | cmdline.go:92-102 | once IDs are exhausted they stay exhausted, and no later token is added to the IDs or becomes the command |
| CmdLineProperties.StepOnExhausted | cmdline.go:92-102 | with IDs exhausted a token goes straight to the shape rules |
| CmdLineProperties.CmdAfterLeadingIds | cmdline.go:92-100 | a command name after leading IDs becomes the lower-cased command and stays so to the end; the IDs before it are kept and do not exhaust the IDs |
| CmdLineProperties.StepCmd | cmdline.go:92-95 | one token sets the command exactly when it is taken as the command, to its lower-cased form, and then changes no other field |
| CmdLineProperties.CmdComesFromToken | cmdline.go:92-95 | a non-empty command is the lower-cased form of some token in the command list, met while no command was set and IDs were not exhausted |
| CmdLineProperties.SigilTokenRule | cmdline.go:110-113 | after the project forms, a `+`/`-` token longer than 2 becomes a lower-cased tag or anti-tag without its sigil; a token of length at most 2 adds neither |
| CmdLineProperties.ProjectTokenRule | cmdline.go:104-109 | `project:x` and `+project:x` set the project to the lower-cased `x`, replacing any earlier one; `-project:x` appends `x` to the anti-projects |
| CmdLineProperties.IgnoreContextRule | cmdline.go:116-117 | the ignore-context keyword, when no earlier rule claims it, sets the ignore-context flag, exhausts the IDs and is stored nowhere |
| CmdLineProperties.NoteKeywordRule | cmdline.go:118-119 | the note keyword turns note mode on and is stored nowhere |
| CmdLineProperties.PlainWordRule | cmdline.go:120-124 | a token no rule claims becomes a note word in note mode and a text word otherwise |
| CmdLineProperties.NoteModeKeepsOtherRules | cmdline.go:92-124 | for every token that is not a plain word, being in note mode changes nothing but the note-mode flag |
| CmdLineProperties.ClassifyNoteMode | cmdline.go:104-119 | the same for the shape rules alone |
| CmdLineProperties.LateNumberIsWord | cmdline.go:97-124 | after the IDs are exhausted, a number that is not a long sigil token, a priority or a keyword becomes a text word, or a note word in note mode |
| CmdLineProperties.StepTagToken | cmdline.go:110-111 | `+t`, for a lower-case `t` of length at least 2 that is not a project form, appends `t` to the tags |
| CmdLineProperties.StepAntiTagToken | cmdline.go:112-113 | `-t` for such a `t` appends `t` to the anti-tags |
| CmdLineProperties.StepProjectToken | cmdline.go:104-105 | `project:p` for a lower-case `p` sets the project to `p` |
| CmdLineProperties.StepAntiProjectToken | cmdline.go:108-109 | `-project:p` for a lower-case `p` appends `p` to the anti-projects |
| CmdLineProperties.StepPriorityToken | cmdline.go:114-115 | a valid priority that no earlier rule claims sets the priority |
| CmdLineProperties.RunTags | cmdline.go:110-111 | a list of `+t` tokens appends the whole list of tags, in order |
| CmdLineProperties.RunAntiTags | cmdline.go:112-113 | a list of `-t` tokens appends the whole list of anti-tags, in order |
| CmdLineProperties.RunAntiProjects | cmdline.go:108-109 | a list of `-project:p` tokens appends the whole list of anti-projects, in order |
| CmdLineProperties.RunIdArgs | cmdline.go:97-100 | the rendered IDs, within 64 bits and not command names, read back as the same IDs |
| CmdLineProperties.RunFirstReaches | cmdline.go:92-102 | the first token that is neither a command name nor an integer behaves as though IDs were already exhausted |
| CmdLineProperties.RunSelectors | cmdline.go:38-55 | with IDs exhausted, the rendered selector tokens set exactly the tags, anti-tags, project, anti-projects and priority they came from |
| CmdLineProperties.RenderArgsSplit | cmdline.go:31-63 | without text and schedule, the rendering is the IDs followed by the selector tokens |
| CmdLineProperties.RenderThenParse | cmdline.go:31-139 | rendering a reparsable filter and parsing the tokens back gives the same IDs, tags, anti-tags, project, anti-projects and priority; command, note and ignore-context come back empty, and IDs are exhausted exactly when a token besides the IDs was rendered |
| CmdLineProperties.RenderIgnoresNonFilterFields | cmdline.go:31-66 | the command, the note, the ignore-context flag and the exhaustion flag never affect the rendering |
| CmdLineProperties.EmptyRendersEmpty | cmdline.go:31-66 | an empty command line renders as the empty string |
| Numbers.ParseDecimalInt64 | cmdline.go:97 | no contract: defined as the values `strconv.ParseInt(s, 10, 64)` accepts (optional sign, at least one digit, within 64 bits); `Numbers.ItoaRoundTrip` ties it to `Itoa` |
| Numbers.Itoa | cmdline.go:35 | the canonical decimal: a minus sign exactly for negative numbers, followed by the digits of the magnitude with no leading zero |
| Numbers.NatDigits | cmdline.go:35 | the shortest decimal digits of the number: non-empty, valued at the number, no leading zero unless it is 0 |
| Numbers.ItoaRoundTrip | cmdline.go:97 | `strconv.ParseInt` reads what `strconv.Itoa` wrote back as the same number, for every 64-bit integer |
| Strings.Lower | cmdline.go:91 | same length, every character lower-cased (ASCII) |
| Strings.HasPrefix | cmdline.go:104-108 | no contract: `strings.HasPrefix`, `s` begins with `p`; `Strings.HasPrefixOfConcat` and the token lemmas use it |
| Strings.Join | cmdline.go:65 | no contract: `strings.Join`, the parts with the separator between each two; `CmdLines.String` and `CmdLines.ParseCmdLine` state their results through it |
| Strings.LowerIsLower | task.go:140 | the result of lower-casing has no upper-case letter |
| Strings.LowerOfLower | task.go:140 | lower-casing a lower-case string changes nothing |
| Strings.LowerIdempotent | task.go:140 | lower-casing twice is lower-casing once |
| Strings.LowerConcat | cmdline.go:91 | lower-casing distributes over concatenation |
| Strings.HasPrefixOfConcat | cmdline.go:104-108 | a prefix test on `p + s` splits into a test on `p` and a test on `s` |
| Strings.Contains | task.go:132 | the left-to-right search succeeds exactly when the needle occurs somewhere in the haystack |
| Strings.LastLine | task.go:188-189 | the last element of the split on newlines: a suffix of the notes with no newline, either all of them or preceded by a newline |
| Strings.LastLineWithoutNewline | task.go:188-189 | notes without a newline are their own last line |
| Strings.LastLineAfterNewline | task.go:188-189 | the last line of `earlier + "\n" + latest` is `latest` when `latest` has no newline |
| StringSlices.SortStrings | task.go:148 | `sort.Strings`: sorted, and a permutation of the input |
| StringSlices.SortSortedIsIdentity | task.go:148 | sorting a sorted list gives it back |
| StringSlices.LessEq | task.go:148 | no contract: lexicographic order, character by character, as `sort.Strings` compares; `StringSlices.LessEqTotal` and `StringSlices.LessEqTransitive` make it a total preorder |
| StringSlices.LessEqTotal | task.go:148 | any two strings are ordered one way or the other |
| StringSlices.LessEqTransitive | task.go:148 | the string order is transitive |
| StringSlices.AppendMissing | task.go:66-76 | the appending loop keeps the original list as a prefix, holds exactly the original and the extra entries, and appends nothing already present |
| StringSlices.DeduplicateStrings | task.go:151 | the same set of strings, without duplicates |
| StringSlices.DeduplicateKeepsSorted | task.go:148-151 | deduplicating a sorted list keeps it sorted |
| StringSlices.DeduplicateDistinctIsIdentity | task.go:151 | deduplicating a list without duplicates gives it back |
| StringSlices.AppendMissingDistinct | task.go:151 | appending a duplicate-free list to nothing gives that list |
| Tasks.MergeContext | task.go:65-94 | the two loops and the project and priority checks give `Merge(cmdLine, context)`: the merged command line or the conflict |
| Tasks.MergeTagRule | task.go:66-76 | tags and anti-tags keep the original list as a prefix, gain every context entry, gain nothing else, and append each new entry once |
| Tasks.MergeProjectRule | task.go:79-85 | an empty context project leaves the project alone; otherwise an empty or equal project becomes the context's, and a different non-empty one is a conflict |
| Tasks.MergePriorityRule | task.go:87-93 | without a project conflict, the merge fails exactly when both priorities are set, even when they are equal, and that failure is a priority conflict; otherwise a set context priority is copied in |
| Tasks.MergeKeepsOtherFields | task.go:65-94 | a merge changes nothing but tags, anti-tags, project and priority (IDs, anti-projects, text, note, command and flags stay as they were) |
| Tasks.AllContained | task.go:108-112 | the tag loop succeeds exactly when every filter tag is among the task's tags |
| Tasks.NoneContained | task.go:114-118 | the anti-tag loop succeeds exactly when no anti-tag is among the task's tags |
| Tasks.AllValidUuids | task.go:177-181 | the dependency loop succeeds exactly when every dependency is a valid UUID |
| Tasks.LowerAll | task.go:143-145 | the k-th result is the lower-cased k-th tag, for every k (the value the in-place loop `Tasks.Task.LowerTags` produces) |
| Tasks.NormaliseTags | task.go:143-151 | the normalised tags are sorted, duplicate-free and lower-case, and are exactly the lower-cased input tags |
| Tasks.NormalTagsAreFixed | task.go:143-151 | tags that are already sorted, duplicate-free and lower-case are left as they are |
| Tasks.NormaliseTagsIdempotent | task.go:143-151 | normalising tags twice is normalising them once |
| Tasks.Task.String | task.go:56-62 | no contract: "<id>: <summary>" for a positive ID, the summary otherwise; the promise is proved in `TaskProperties.StringShowsId` |
| Tasks.Task.LongSummary | task.go:186-196 | no contract: the summary, then the note keyword and the last line of the notes when that line is not empty; the promise is proved in `TaskProperties.LongSummaryShowsLastLine` |
| Tasks.Task.MatchesFilter | task.go:96-137 | a listed ID matches whatever else the filter says; listed IDs without this one do not match; without IDs, the task matches exactly when all filter tags are present, no anti-tag is, its project is not an anti-project, project and priority agree when set, and the lower-cased text occurs in the lower-cased summary and notes |
| Tasks.Task.Normalise | task.go:139-161 | the project and tags as normalised, no ID on a resolved task and other IDs kept, an empty priority becoming the default and others kept; the task is normal afterwards, and an already normal task is left unchanged, so normalising twice is normalising once |
| Tasks.Task.NormaliseTagsInPlace | task.go:143-151 | the tags become `NormaliseTags` of the old tags |
| Tasks.Task.LowerTags | task.go:143-145 | each tag is lower-cased in place, and nothing else changes |
| Tasks.Task.SortAndDeduplicateTags | task.go:148-151 | the tags are sorted, then deduplicated |
| Tasks.Task.Validate | task.go:164-184 | no error exactly when the UUID, status, priority and every dependency UUID are valid; otherwise the first failing check, in that order, each error named with exactly the condition that selects it |
| TaskProperties.StringShowsId | task.go:56-62 | a task with a positive ID shows "<id>: <summary>", and its ID can be read back from the prefix; without a positive ID only the summary is shown |
| TaskProperties.EmptyFilterMatchesAll | task.go:96-137 | the empty filter matches every task |
| TaskProperties.MergeConjoinsContext | task.go:65-137 | without IDs, filtering by a command line with a context merged in is filtering by the command line and by the context's tags, anti-tags, project and priority together |
| TaskProperties.MergeKeepsIdSelection | task.go:97-106 | with IDs, merging a context changes nothing about which tasks match |
| TaskProperties.LongSummaryShowsLastLine | task.go:187-196 | the long summary is the summary alone when the last line of the notes is empty, and otherwise the summary, the note keyword and that line, separated by spaces |
| TaskProperties.NotesHaveLastLine | task.go:188-189 | every notes string is its last line, or the earlier lines, a newline and the last line, so the previous lemma covers every task |

## Left out

- `PrintContextDescription` (cmdline.go:68-72) is left out: it only writes to standard output, with terminal colour codes.
- The fatal exit in `MergeContext` (task.go:81, 89) ends the process. It is modelled as a `Conflict` result that names which check failed, and its message texts are not kept.
- The YAML tags on the task fields are left out, because persistence lies outside the core. The time fields `Created`, `Resolved` and `Due` are left out too, because no modelled operation reads them. `DelegatedTo`, `Subtasks`, `Schedule` and `Parent` are plain fields that nothing reads.
- Tasks.Task.String has no contract of its own, since its body is its meaning. What it promises is proved in `TaskProperties.StringShowsId`. `fmt.Sprintf("%v", id)` is modelled as `Itoa`.
- Tasks.Task.LongSummary has no contract of its own. What it promises is proved in `TaskProperties.LongSummaryShowsLastLine` and `TaskProperties.NotesHaveLastLine`.
- The error values of `Validate` are modelled as the `ValidationError` enumeration, without their message texts.
- Strings.Lower lower-cases ASCII letters only. Go's `strings.ToLower` also maps other Unicode letters; that case mapping is not modelled.
- CmdLines.ParseCmdLine compares the character count of a token where the source compares its byte count: `len(item) > 2` at cmdline.go:110 and 112 counts UTF-8 bytes of the original token, while the model's `|item|` counts characters. So `+é` (two characters, three bytes) becomes a text word in the model but a tag in the source.
- Strings are sequences of characters, and the string order compares characters. Go compares bytes, which gives the same order for ASCII and for UTF-8.
- Numbers.ParseDecimalInt64 is modelled by the values `strconv.ParseInt(s, 10, 64)` accepts, not by its algorithm: an optional sign, at least one digit, and a value within 64 bits. Its error values are not modelled.
- StringSlices.SortStrings is insertion sort, while `sort.Strings` uses a different algorithm. Only the result is specified (sorted and a permutation), and any correct sort gives that result.
- StringSlices.DeduplicateStrings is defined outside the core. It is modelled as keeping the first occurrence of each string in order, and its contract states the set and the absence of duplicates.
- The command list, the keywords, the resolved status, the default priority and the recognisers for priorities, statuses and UUIDs are defined outside the core. They are parameters collected in a `Vocabulary` value.
- Tasks.MergeContext works on `CmdLine` values and returns the merged value. It does not update the record in place through a pointer, and the `append`s at task.go:68 and task.go:74 are not modelled as writes into a backing array that another slice may share.
- Tasks.Task.Normalise keeps the tags as a sequence field. The in-place writes `task.Tags[i] = …` (task.go:144) and `sort.Strings(task.Tags)` (task.go:148) also change any other slice that shares the same backing array; that aliasing is not modelled.
- CmdLines.ParseCmdLine keeps every ID as the full 64-bit value `strconv.ParseInt` returns. The conversion `int(s)` at cmdline.go:98 would cut the value down on a platform where Go's `int` has 32 bits; the model assumes a 64-bit `int`.
- `MergeContext` ignores the context's IDs, anti-projects, text and note, as the source does.
- CmdLineProperties.RenderThenParse goes through the argument list, not the joined string: splitting the joined string back into arguments is the shell's job. It needs a reparsable filter: no text or schedule (which carry quotes), tags and projects the parser cannot read as another form, and a first non-ID token that is neither a command name nor an integer.
