/** The command-line classifier and renderer (cmdline.go): `ParseCmdLine`
    walks the argument list once, left to right, and sends every token to
    exactly one field; `String` renders the filter part of a `CmdLine` back
    to text. */
module CmdLines {
  import opened Strings
  import opened Numbers
  import opened Vocab

  /** The parse result. `note` holds the words after the note keyword,
      `schedule` a recurrence expression (never set by the parser). */
  datatype CmdLine = CmdLine(
    cmd: string,
    ids: seq<int>,
    tags: seq<string>,
    antiTags: seq<string>,
    project: string,
    antiProjects: seq<string>,
    priority: string,
    text: string,
    ignoreContext: bool,
    idsExhausted: bool,
    note: string,
    schedule: string)

  const EmptyCmdLine: CmdLine := CmdLine("", [], [], [], "", [], "", "", false, false, "", "")

  /** The local variables of `ParseCmdLine` between two tokens. */
  datatype ParseState = ParseState(
    cmd: string,
    ids: seq<int>,
    tags: seq<string>,
    antiTags: seq<string>,
    project: string,
    antiProjects: seq<string>,
    priority: string,
    words: seq<string>,
    notesMode: bool,
    notes: seq<string>,
    ignoreContext: bool,
    idsExhausted: bool)

  const Start: ParseState := ParseState("", [], [], [], "", [], "", [], false, [], false, false)

  /** The token is taken as the command: IDs are not exhausted, no command has
      been set and the lower-cased token is a command name. */
  predicate TakesAsCmd(v: Vocabulary, st: ParseState, item: string) {
    !st.idsExhausted && st.cmd == "" && Lower(item) in v.allCmds
  }

  /** The token is taken as an ID: IDs are not exhausted and it parses as a
      64-bit decimal integer. */
  predicate TakesAsId(v: Vocabulary, st: ParseState, item: string) {
    !st.idsExhausted && ParseDecimalInt64(item).Some?
  }

  /** The token is neither a command nor an ID, so it exhausts the IDs and is
      classified by its shape. */
  predicate Reaches(v: Vocabulary, st: ParseState, item: string) {
    !TakesAsCmd(v, st, item) && !TakesAsId(v, st, item)
  }

  /** The shape rules, first match wins: project, anti-project, tag,
      anti-tag, priority, ignore-context keyword, note keyword, and otherwise a
      text word (a note word once note mode is on). */
  function Classify(v: Vocabulary, st: ParseState, item: string): ParseState {
    var lc := Lower(item);
    if HasPrefix(lc, "project:") then st.(project := lc[8..])
    else if HasPrefix(lc, "+project:") then st.(project := lc[9..])
    else if HasPrefix(lc, "-project:") then st.(antiProjects := st.antiProjects + [lc[9..]])
    else if |item| > 2 && lc[0] == '+' then st.(tags := st.tags + [lc[1..]])
    else if |item| > 2 && lc[0] == '-' then st.(antiTags := st.antiTags + [lc[1..]])
    else if v.isValidPriority(item) then st.(priority := item)
    else if item == v.ignoreContextKeyword then st.(ignoreContext := true)
    else if item == v.noteModeKeyword then st.(notesMode := true)
    else if st.notesMode then st.(notes := st.notes + [item])
    else st.(words := st.words + [item])
  }

  /** One iteration of the parser's loop. */
  function Step(v: Vocabulary, st: ParseState, item: string): ParseState {
    if TakesAsCmd(v, st, item) then st.(cmd := Lower(item))
    else if TakesAsId(v, st, item) then st.(ids := st.ids + [ParseDecimalInt64(item).value])
    else Classify(v, st.(idsExhausted := true), item)
  }

  /** A loop body `step` run over `args` from state `st`. */
  function Fold(step: (ParseState, string) -> ParseState, st: ParseState, args: seq<string>): ParseState
    decreases |args|
  {
    if |args| == 0 then st
    else step(Fold(step, st, args[..|args| - 1]), args[|args| - 1])
  }

  /** `Step` for a fixed vocabulary, as a function value. */
  function StepFn(v: Vocabulary): (ParseState, string) -> ParseState {
    (s, x) => Step(v, s, x)
  }

  /** The parser's loop run over `args` from state `st`. */
  function Run(v: Vocabulary, st: ParseState, args: seq<string>): ParseState {
    Fold(StepFn(v), st, args)
  }

  /** The parser's state after reading `args`. */
  function Scan(v: Vocabulary, args: seq<string>): ParseState {
    Run(v, Start, args)
  }

  /** The record built after the loop: words and note words joined by single
      spaces, no schedule. */
  function Finish(st: ParseState): CmdLine {
    CmdLine(st.cmd, st.ids, st.tags, st.antiTags, st.project, st.antiProjects,
            st.priority, Join(st.words, " "), st.ignoreContext, st.idsExhausted,
            Join(st.notes, " "), "")
  }

  /** What `ParseCmdLine` returns for `args`. */
  function Parse(v: Vocabulary, args: seq<string>): CmdLine {
    Finish(Scan(v, args))
  }

  /** `ParseCmdLine`: the single classifying loop over the arguments. */
  method ParseCmdLine(v: Vocabulary, args: seq<string>) returns (c: CmdLine)
    ensures c == Parse(v, args)
    ensures c.schedule == ""
  {
    var cmd := "";
    var ids: seq<int> := [];
    var tags: seq<string> := [];
    var antiTags: seq<string> := [];
    var project := "";
    var antiProjects: seq<string> := [];
    var priority := "";
    var words: seq<string> := [];
    var notesModeActivated := false;
    var notes: seq<string> := [];
    var ignoreContext := false;
    var idsExhausted := false;

    var i := 0;
    while i < |args|
      invariant 0 <= i <= |args|
      invariant Scan(v, args[..i]) == ParseState(cmd, ids, tags, antiTags, project, antiProjects,
                                                 priority, words, notesModeActivated, notes,
                                                 ignoreContext, idsExhausted)
    {
      var item := args[i];
      var lcItem := Lower(item);
      var parsed := ParseDecimalInt64(item);
      if !idsExhausted && cmd == "" && lcItem in v.allCmds {
        cmd := lcItem;
      } else if !idsExhausted && parsed.Some? {
        ids := ids + [parsed.value];
      } else {
        idsExhausted := true;
        if HasPrefix(lcItem, "project:") {
          project := lcItem[8..];
        } else if HasPrefix(lcItem, "+project:") {
          project := lcItem[9..];
        } else if HasPrefix(lcItem, "-project:") {
          antiProjects := antiProjects + [lcItem[9..]];
        } else if |item| > 2 && lcItem[0] == '+' {
          tags := tags + [lcItem[1..]];
        } else if |item| > 2 && lcItem[0] == '-' {
          antiTags := antiTags + [lcItem[1..]];
        } else if v.isValidPriority(item) {
          priority := item;
        } else if item == v.ignoreContextKeyword {
          ignoreContext := true;
        } else if item == v.noteModeKeyword {
          notesModeActivated := true;
        } else if notesModeActivated {
          notes := notes + [item];
        } else {
          words := words + [item];
        }
      }
      assert args[..i + 1][..i] == args[..i];
      i := i + 1;
    }
    assert args[..|args|] == args;
    c := CmdLine(cmd, ids, tags, antiTags, project, antiProjects, priority,
                 Join(words, " "), ignoreContext, idsExhausted, Join(notes, " "), "");
  }

  /** The ID tokens, in order. */
  function IdArgs(ids: seq<int>): (r: seq<string>)
    ensures |r| == |ids|
    ensures forall k :: 0 <= k < |ids| ==> r[k] == Itoa(ids[k])
    decreases |ids|
  {
    if |ids| == 0 then [] else IdArgs(ids[..|ids| - 1]) + [Itoa(ids[|ids| - 1])]
  }

  /** Every string of `xs`, in order, behind the sigil `p`. */
  function Prefixed(p: string, xs: seq<string>): (r: seq<string>)
    ensures |r| == |xs|
    ensures forall k :: 0 <= k < |xs| ==> r[k] == p + xs[k]
    decreases |xs|
  {
    if |xs| == 0 then [] else Prefixed(p, xs[..|xs| - 1]) + [p + xs[|xs| - 1]]
  }

  lemma IdArgsSnoc(ids: seq<int>, k: nat)
    requires k < |ids|
    ensures IdArgs(ids[..k + 1]) == IdArgs(ids[..k]) + [Itoa(ids[k])]
  {
    assert ids[..k + 1][..k] == ids[..k];
  }

  lemma PrefixedSnoc(p: string, xs: seq<string>, k: nat)
    requires k < |xs|
    ensures Prefixed(p, xs[..k + 1]) == Prefixed(p, xs[..k]) + [p + xs[k]]
  {
    assert xs[..k + 1][..k] == xs[..k];
  }

  function Quoted(s: string): string {
    "\"" + s + "\""
  }

  /** The token `tok` when `present`, and nothing otherwise. */
  function OptionalArg(present: bool, tok: string): (r: seq<string>) {
    if present then [tok] else []
  }

  /** The argument list that `String` joins: the IDs, the `+tag`s, the
      `-antitag`s, `project:p`, the `-project:p`s, the priority, the quoted
      text and the quoted schedule, each part left out when empty. */
  function RenderArgs(c: CmdLine): seq<string> {
    IdArgs(c.ids)
    + Prefixed("+", c.tags)
    + Prefixed("-", c.antiTags)
    + OptionalArg(c.project != "", "project:" + c.project)
    + Prefixed("-project:", c.antiProjects)
    + OptionalArg(c.priority != "", c.priority)
    + OptionalArg(c.text != "", Quoted(c.text))
    + OptionalArg(c.schedule != "", Quoted(c.schedule))
  }

  /** The ID loop of `String`: appends the decimal form of every ID, in order. */
  method AppendIds(args0: seq<string>, ids: seq<int>) returns (args: seq<string>)
    ensures args == args0 + IdArgs(ids)
  {
    args := args0;
    for k := 0 to |ids|
      invariant args == args0 + IdArgs(ids[..k])
    {
      IdArgsSnoc(ids, k);
      args := args + [Itoa(ids[k])];
    }
    assert ids[..|ids|] == ids;
  }

  /** The tag, anti-tag and anti-project loops of `String`: append every
      entry behind the sigil `p`, in order. */
  method AppendPrefixed(args0: seq<string>, p: string, xs: seq<string>) returns (args: seq<string>)
    ensures args == args0 + Prefixed(p, xs)
  {
    args := args0;
    for k := 0 to |xs|
      invariant args == args0 + Prefixed(p, xs[..k])
    {
      PrefixedSnoc(p, xs, k);
      args := args + [p + xs[k]];
    }
    assert xs[..|xs|] == xs;
  }

  /** `CmdLine.String`: builds the argument list part by part, then joins it
      with single spaces. */
  method String(c: CmdLine) returns (s: string)
    ensures s == Join(RenderArgs(c), " ")
  {
    var args: seq<string> := [];
    args := AppendIds(args, c.ids);
    assert args == IdArgs(c.ids);
    args := AppendPrefixed(args, "+", c.tags);
    args := AppendPrefixed(args, "-", c.antiTags);
    ghost var before := args;
    if c.project != "" {
      args := args + ["project:" + c.project];
    }
    assert args == before + OptionalArg(c.project != "", "project:" + c.project);
    args := AppendPrefixed(args, "-project:", c.antiProjects);
    before := args;
    if c.priority != "" {
      args := args + [c.priority];
    }
    assert args == before + OptionalArg(c.priority != "", c.priority);
    before := args;
    if c.text != "" {
      args := args + [Quoted(c.text)];
    }
    assert args == before + OptionalArg(c.text != "", Quoted(c.text));
    before := args;
    if c.schedule != "" {
      args := args + [Quoted(c.schedule)];
    }
    assert args == before + OptionalArg(c.schedule != "", Quoted(c.schedule));
    s := Join(args, " ");
  }
}
