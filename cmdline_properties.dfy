/** What the command-line classifier and the renderer promise: how IDs and the
    command are recognised, that exhaustion of IDs is permanent, the
    first-match rules for tags, projects and note words, and that rendering a
    well-formed filter and parsing it back gives the same filter. */
module CmdLineProperties {
  import opened Optional
  import opened Strings
  import opened Numbers
  import opened Vocab
  import opened CmdLines

  // ---------------------------------------------------------------------
  // The loop as a left fold

  lemma RunSnoc(v: Vocabulary, st: ParseState, args: seq<string>, item: string)
    ensures Run(v, st, args + [item]) == Step(v, Run(v, st, args), item)
  {
    assert (args + [item])[..|args|] == args;
  }

  lemma ScanSnoc(v: Vocabulary, args: seq<string>, item: string)
    ensures Scan(v, args + [item]) == Step(v, Scan(v, args), item)
  {
    RunSnoc(v, Start, args, item);
  }

  /** Reading `a` and then `b` is reading `a + b`. */
  lemma {:induction false} RunAppend(v: Vocabulary, st: ParseState, a: seq<string>, b: seq<string>)
    ensures Run(v, st, a + b) == Run(v, Run(v, st, a), b)
    decreases |b|
  {
    if |b| == 0 {
      assert a + b == a;
    } else {
      var init := b[..|b| - 1];
      RunAppend(v, st, a, init);
      assert a + b == (a + init) + [b[|b| - 1]];
      RunSnoc(v, st, a + init, b[|b| - 1]);
      RunSnoc(v, Run(v, st, a), init, b[|b| - 1]);
      assert init + [b[|b| - 1]] == b;
    }
  }

  /** A fold whose every step leads from one listed state to the next ends
      in the last listed state. */
  lemma {:induction false} FoldTrace(f: (ParseState, string) -> ParseState, toks: seq<string>,
                                     states: seq<ParseState>)
    requires |states| == |toks| + 1
    requires forall k :: 0 <= k < |toks| ==> f(states[k], toks[k]) == states[k + 1]
    ensures Fold(f, states[0], toks) == states[|toks|]
    decreases |toks|
  {
    if |toks| > 0 {
      var n := |toks| - 1;
      var ts, ss := toks[..n], states[..n + 1];
      assert forall k :: 0 <= k < n ==> ts[k] == toks[k];
      assert forall k :: 0 <= k <= n ==> ss[k] == states[k];
      FoldTrace(f, ts, ss);
    }
  }

  /** A relation every step establishes, and that composes, holds between
      the states before and after any stretch of the fold. */
  lemma {:induction false} FoldGrows(f: (ParseState, string) -> ParseState, st: ParseState,
                                     args: seq<string>, i: nat, j: nat)
    requires i <= j <= |args|
    requires forall s, x :: Grows(s, f(s, x))
    ensures Grows(Fold(f, st, args[..i]), Fold(f, st, args[..j]))
    decreases j
  {
    if j > i {
      FoldGrows(f, st, args, i, j - 1);
      assert args[..j][..j - 1] == args[..j - 1];
      var a, b := Fold(f, st, args[..i]), Fold(f, st, args[..j - 1]);
      GrowsTransitive(a, b, f(b, args[j - 1]));
    }
  }

  /** Once a step has exhausted the IDs, no further step of the fold changes
      the exhaustion flag, the IDs or the command. */
  lemma {:induction false} FoldKeepsExhausted(f: (ParseState, string) -> ParseState, st: ParseState,
                                              args: seq<string>, i: nat, j: nat)
    requires i <= j <= |args|
    requires forall s: ParseState, x: string :: s.idsExhausted ==> KeepsIds(s, f(s, x))
    requires Fold(f, st, args[..i]).idsExhausted
    ensures KeepsIds(Fold(f, st, args[..i]), Fold(f, st, args[..j]))
    decreases j
  {
    if j > i {
      FoldKeepsExhausted(f, st, args, i, j - 1);
      assert args[..j][..j - 1] == args[..j - 1];
    }
  }

  /** `b` has the exhaustion flag, the IDs and the command of `a`. */
  predicate KeepsIds(a: ParseState, b: ParseState) {
    b.idsExhausted == a.idsExhausted && b.ids == a.ids && b.cmd == a.cmd
  }

  // ---------------------------------------------------------------------
  // Leading IDs and the command

  /** A command line made only of integers, none of them a command name,
      gives exactly those integers as IDs, in order, and nothing else: IDs are
      not exhausted and every other field is empty. */
  lemma {:induction false} ParseAllIds(v: Vocabulary, args: seq<string>)
    requires forall i :: 0 <= i < |args| ==> ParseDecimalInt64(args[i]).Some? && Lower(args[i]) !in v.allCmds
    ensures Parse(v, args) == EmptyCmdLine.(ids := Parse(v, args).ids)
    ensures |Parse(v, args).ids| == |args|
    ensures forall i :: 0 <= i < |args| ==> ParseDecimalInt64(args[i]) == Some(Parse(v, args).ids[i])
  {
    ScanAllIds(v, args);
  }

  lemma StepIdItem(v: Vocabulary, st: ParseState, item: string)
    requires !st.idsExhausted && ParseDecimalInt64(item).Some? && Lower(item) !in v.allCmds
    ensures Step(v, st, item) == st.(ids := st.ids + [ParseDecimalInt64(item).value])
  {
  }

  /** From a state whose IDs are not exhausted, tokens that all read as IDs
      (and none as a command) add exactly their values to the IDs. */
  lemma RunIdTokens(v: Vocabulary, st: ParseState, toks: seq<string>, ids: seq<int>)
    requires !st.idsExhausted && |toks| == |ids|
    requires forall k :: 0 <= k < |toks| ==>
               ParseDecimalInt64(toks[k]) == Some(ids[k]) && Lower(toks[k]) !in v.allCmds
    ensures Run(v, st, toks) == st.(ids := st.ids + ids)
  {
    var states := seq(|toks| + 1, k requires 0 <= k <= |toks| => st.(ids := st.ids + ids[..k]));
    forall k | 0 <= k < |toks|
      ensures StepFn(v)(states[k], toks[k]) == states[k + 1]
    {
      StepIdItem(v, states[k], toks[k]);
      AppendNext(st.ids, ids, k);
    }
    FoldTrace(StepFn(v), toks, states);
    assert st.ids + ids[..0] == st.ids;
    assert ids[..|toks|] == ids;
  }

  lemma ScanAllIds(v: Vocabulary, args: seq<string>)
    requires forall i :: 0 <= i < |args| ==> ParseDecimalInt64(args[i]).Some? && Lower(args[i]) !in v.allCmds
    ensures Scan(v, args) == Start.(ids := Scan(v, args).ids)
    ensures |Scan(v, args).ids| == |args|
    ensures forall i :: 0 <= i < |args| ==> ParseDecimalInt64(args[i]) == Some(Scan(v, args).ids[i])
  {
    var ids := seq(|args|, k requires 0 <= k < |args| => ParseDecimalInt64(args[k]).value);
    RunIdTokens(v, Start, args, ids);
    assert Start.ids + ids == ids;
  }

  /** `b` is a later state than `a`: the tag, anti-tag, anti-project, word,
      note and ID lists of `a` are prefixes of those of `b`; exhausted IDs,
      note mode and the ignore-context flag stay on; a command, once set, is
      never replaced. */
  predicate Grows(a: ParseState, b: ParseState) {
    && a.ids <= b.ids && a.tags <= b.tags && a.antiTags <= b.antiTags
    && a.antiProjects <= b.antiProjects && a.words <= b.words && a.notes <= b.notes
    && (a.idsExhausted ==> b.idsExhausted)
    && (a.notesMode ==> b.notesMode)
    && (a.ignoreContext ==> b.ignoreContext)
    && (a.cmd != "" ==> b.cmd == a.cmd)
  }

  lemma ClassifyGrows(v: Vocabulary, st: ParseState, item: string)
    ensures Grows(st, Classify(v, st, item))
  {
    var r := Classify(v, st, item);
    var lc := Lower(item);
    if HasPrefix(lc, "project:") || HasPrefix(lc, "+project:") {
      assert r.ids == st.ids && r.tags == st.tags && r.antiTags == st.antiTags;
      assert r.antiProjects == st.antiProjects && r.words == st.words && r.notes == st.notes;
    } else if HasPrefix(lc, "-project:") {
      assert r == st.(antiProjects := st.antiProjects + [lc[9..]]);
    } else if |item| > 2 && lc[0] == '+' {
      assert r == st.(tags := st.tags + [lc[1..]]);
    } else if |item| > 2 && lc[0] == '-' {
      assert r == st.(antiTags := st.antiTags + [lc[1..]]);
    } else if st.notesMode && r.notes != st.notes {
      assert r == st.(notes := st.notes + [item]);
    } else if !st.notesMode && r.words != st.words {
      assert r == st.(words := st.words + [item]);
    }
  }

  lemma StepGrows(v: Vocabulary, st: ParseState, item: string)
    ensures Grows(st, Step(v, st, item))
  {
    if !TakesAsCmd(v, st, item) && !TakesAsId(v, st, item) {
      ClassifyGrows(v, st.(idsExhausted := true), item);
    }
  }

  lemma GrowsTransitive(a: ParseState, b: ParseState, c: ParseState)
    requires Grows(a, b) && Grows(b, c)
    ensures Grows(a, c)
  {
  }

  lemma ClassifyKeepsIds(v: Vocabulary, st: ParseState, item: string)
    ensures Classify(v, st, item).ids == st.ids
    ensures Classify(v, st, item).cmd == st.cmd
    ensures Classify(v, st, item).idsExhausted == st.idsExhausted
  {
  }

  /** The accumulators only grow and the flags, once set, stay set, from any
      point of the argument list to any later point. */
  lemma ScanGrows(v: Vocabulary, args: seq<string>, i: nat, j: nat)
    requires i <= j <= |args|
    ensures Grows(Scan(v, args[..i]), Scan(v, args[..j]))
  {
    forall s, x ensures Grows(s, StepFn(v)(s, x)) {
      StepGrows(v, s, x);
    }
    FoldGrows(StepFn(v), Start, args, i, j);
  }

  /** Once a token has exhausted the IDs, no later token becomes an ID or the
      command. */
  lemma ExhaustedIsPermanent(v: Vocabulary, args: seq<string>, i: nat, j: nat)
    requires i <= j <= |args|
    requires Scan(v, args[..i]).idsExhausted
    ensures Scan(v, args[..j]).idsExhausted
    ensures Scan(v, args[..j]).ids == Scan(v, args[..i]).ids
    ensures Scan(v, args[..j]).cmd == Scan(v, args[..i]).cmd
  {
    forall s: ParseState, x: string | s.idsExhausted ensures KeepsIds(s, StepFn(v)(s, x)) {
      StepOnExhausted(v, s, x);
      ClassifyKeepsIds(v, s, x);
    }
    FoldKeepsExhausted(StepFn(v), Start, args, i, j);
  }

  /** A command name after leading IDs (none of them a command name) becomes
      the command, lower-cased, and keeps that place to the end; the IDs
      before it are kept and do not exhaust the IDs. */
  lemma CmdAfterLeadingIds(v: Vocabulary, args: seq<string>, k: nat)
    requires k < |args|
    requires forall j :: 0 <= j < k ==> ParseDecimalInt64(args[j]).Some? && Lower(args[j]) !in v.allCmds
    requires Lower(args[k]) in v.allCmds && Lower(args[k]) != ""
    ensures Parse(v, args).cmd == Lower(args[k])
    ensures !Scan(v, args[..k + 1]).idsExhausted
    ensures |Scan(v, args[..k + 1]).ids| == k
    ensures forall j :: 0 <= j < k ==> ParseDecimalInt64(args[j]) == Some(Scan(v, args[..k + 1]).ids[j])
  {
    var pre := args[..k];
    ScanAllIds(v, pre);
    assert args[..k + 1] == pre + [args[k]];
    ScanSnoc(v, pre, args[k]);
    ScanGrows(v, args, k + 1, |args|);
    assert args[..|args|] == args;
    assert Grows(Scan(v, args[..k + 1]), Scan(v, args));
  }

  /** One token sets the command exactly when it is taken as the command,
      and a command token is stored nowhere else. */
  lemma StepCmd(v: Vocabulary, st: ParseState, item: string)
    ensures Step(v, st, item).cmd == if TakesAsCmd(v, st, item) then Lower(item) else st.cmd
    ensures TakesAsCmd(v, st, item) ==> Step(v, st, item) == st.(cmd := Lower(item))
  {
  }

  /** Conversely, a non-empty command is the lower-cased form of a command
      name met while no command was set and IDs were not exhausted. */
  lemma {:induction false} CmdComesFromToken(v: Vocabulary, args: seq<string>)
    requires Scan(v, args).cmd != ""
    ensures exists k :: 0 <= k < |args| && Lower(args[k]) == Scan(v, args).cmd && Lower(args[k]) in v.allCmds
                        && Scan(v, args[..k]).cmd == "" && !Scan(v, args[..k]).idsExhausted
    decreases |args|
  {
    var n := |args|;
    var init := args[..n - 1];
    var last := args[n - 1];
    assert args == init + [last];
    ScanSnoc(v, init, last);
    var st := Scan(v, init);
    StepCmd(v, st, last);
    if TakesAsCmd(v, st, last) {
      assert Lower(args[n - 1]) == Scan(v, args).cmd;
      assert args[..n - 1] == init;
    } else {
      CmdComesFromToken(v, init);
      var k :| 0 <= k < |init| && Lower(init[k]) == st.cmd && Lower(init[k]) in v.allCmds
               && Scan(v, init[..k]).cmd == "" && !Scan(v, init[..k]).idsExhausted;
      assert init[..k] == args[..k] && init[k] == args[k];
    }
  }

  // ---------------------------------------------------------------------
  // The shape rules, stated for one more token after `args`

  /** A token of length > 2 behind `+` or `-` that is not a project form
      becomes a tag or anti-tag, lower-cased and without the sigil; one of
      length <= 2 leaves tags and anti-tags alone. */
  lemma SigilTokenRule(v: Vocabulary, args: seq<string>, item: string)
    requires Reaches(v, Scan(v, args), item)
    requires !HasPrefix(Lower(item), "project:") && !HasPrefix(Lower(item), "+project:")
    requires !HasPrefix(Lower(item), "-project:")
    ensures var st, r := Scan(v, args).(idsExhausted := true), Scan(v, args + [item]);
      && (|item| > 2 && item[0] == '+' ==> r == st.(tags := st.tags + [Lower(item)[1..]]))
      && (|item| > 2 && item[0] == '-' ==> r == st.(antiTags := st.antiTags + [Lower(item)[1..]]))
      && (|item| <= 2 ==> r.tags == st.tags && r.antiTags == st.antiTags)
  {
    ScanSnoc(v, args, item);
  }

  /** `project:x` and `+project:x` set the project to the lower-cased `x`,
      replacing any earlier one; `-project:x` appends `x` to the anti-projects
      (`-project:` alone appends the empty string). */
  lemma ProjectTokenRule(v: Vocabulary, args: seq<string>, item: string)
    requires Reaches(v, Scan(v, args), item)
    ensures var st, r, lc := Scan(v, args).(idsExhausted := true), Scan(v, args + [item]), Lower(item);
      && (HasPrefix(lc, "project:") ==> r == st.(project := lc[8..]))
      && (HasPrefix(lc, "+project:") ==> r == st.(project := lc[9..]))
      && (HasPrefix(lc, "-project:") ==> r == st.(antiProjects := st.antiProjects + [lc[9..]]))
  {
    ScanSnoc(v, args, item);
    var lc := Lower(item);
    if HasPrefix(lc, "+project:") {
      assert lc[0] == '+';
    } else if HasPrefix(lc, "-project:") {
      assert lc[0] == '-';
    }
  }

  /** The token matches one of the rules tried before a plain word:
      a project form, a long sigil token, a priority or the ignore-context
      keyword. */
  predicate MatchesEarlierRule(v: Vocabulary, item: string) {
    var lc := Lower(item);
    || HasPrefix(lc, "project:") || HasPrefix(lc, "+project:") || HasPrefix(lc, "-project:")
    || (|item| > 2 && (lc[0] == '+' || lc[0] == '-'))
    || v.isValidPriority(item)
    || item == v.ignoreContextKeyword
  }

  /** A token that no rule claims: it becomes a text or note word. */
  predicate IsPlainWord(v: Vocabulary, item: string) {
    !MatchesEarlierRule(v, item) && item != v.noteModeKeyword
  }

  /** The ignore-context keyword, when no earlier rule claims it, sets the
      ignore-context flag and is itself stored nowhere. */
  lemma IgnoreContextRule(v: Vocabulary, args: seq<string>, item: string)
    requires Reaches(v, Scan(v, args), item)
    requires var lc := Lower(item);
      !HasPrefix(lc, "project:") && !HasPrefix(lc, "+project:") && !HasPrefix(lc, "-project:")
    requires !(|item| > 2 && (Lower(item)[0] == '+' || Lower(item)[0] == '-'))
    requires !v.isValidPriority(item) && item == v.ignoreContextKeyword
    ensures Scan(v, args + [item]) == Scan(v, args).(idsExhausted := true, ignoreContext := true)
  {
    ScanSnoc(v, args, item);
  }

  /** The note keyword switches note mode on and is itself stored nowhere. */
  lemma NoteKeywordRule(v: Vocabulary, args: seq<string>, item: string)
    requires Reaches(v, Scan(v, args), item)
    requires !MatchesEarlierRule(v, item) && item == v.noteModeKeyword
    ensures Scan(v, args + [item]) == Scan(v, args).(idsExhausted := true, notesMode := true)
  {
    ScanSnoc(v, args, item);
  }

  /** A plain word goes to the note words once note mode is on, and to the
      text words before that. */
  lemma PlainWordRule(v: Vocabulary, args: seq<string>, item: string)
    requires Reaches(v, Scan(v, args), item)
    requires IsPlainWord(v, item)
    ensures var st, r := Scan(v, args).(idsExhausted := true), Scan(v, args + [item]);
      && (st.notesMode ==> r == st.(notes := st.notes + [item]))
      && (!st.notesMode ==> r == st.(words := st.words + [item]))
  {
    ScanSnoc(v, args, item);
  }

  /** Note mode changes nothing for a token that is not a plain word:
      commands, IDs, tags, projects, the priority and the ignore-context
      keyword are classified the same inside and outside note mode. */
  lemma NoteModeKeepsOtherRules(v: Vocabulary, st: ParseState, item: string)
    requires !IsPlainWord(v, item)
    ensures Step(v, st.(notesMode := true), item) == Step(v, st, item).(notesMode := true)
  {
    if !TakesAsCmd(v, st, item) && !TakesAsId(v, st, item) {
      ClassifyNoteMode(v, st.(idsExhausted := true), item);
      assert st.(notesMode := true).(idsExhausted := true) == st.(idsExhausted := true).(notesMode := true);
    }
  }

  lemma ClassifyNoteMode(v: Vocabulary, st: ParseState, item: string)
    requires !IsPlainWord(v, item)
    ensures Classify(v, st.(notesMode := true), item) == Classify(v, st, item).(notesMode := true)
  {
    var lc := Lower(item);
    if HasPrefix(lc, "project:") || HasPrefix(lc, "+project:") || HasPrefix(lc, "-project:") {
    } else if |item| > 2 && (lc[0] == '+' || lc[0] == '-') {
    } else if v.isValidPriority(item) || item == v.ignoreContextKeyword {
    } else {
      assert item == v.noteModeKeyword;
    }
  }

  /** After the IDs are exhausted, a numeric token that is not a long sigil
      token (a plain `12`, or a short `-3`) is an ordinary word, unless it is a
      priority or a keyword. */
  lemma LateNumberIsWord(v: Vocabulary, args: seq<string>, item: string)
    requires Scan(v, args).idsExhausted
    requires ParseDecimalInt64(item).Some?
    requires |item| <= 2 || IsDigit(item[0])
    requires !v.isValidPriority(item) && item != v.ignoreContextKeyword && item != v.noteModeKeyword
    ensures var st, r := Scan(v, args), Scan(v, args + [item]);
      && (st.notesMode ==> r == st.(notes := st.notes + [item]))
      && (!st.notesMode ==> r == st.(words := st.words + [item]))
  {
    ScanSnoc(v, args, item);
    assert IsLowerString(item);
    LowerOfLower(item);
  }

  // ---------------------------------------------------------------------
  // Rendering

  /** The rendering never depends on the command, the note, the
      ignore-context flag or the exhaustion flag. */
  lemma RenderIgnoresNonFilterFields(c: CmdLine, cmd: string, note: string, ignore: bool, exhausted: bool)
    ensures RenderArgs(c.(cmd := cmd, note := note, ignoreContext := ignore, idsExhausted := exhausted))
            == RenderArgs(c)
  {
  }

  /** An empty command line renders as the empty string. */
  lemma EmptyRendersEmpty()
    ensures Join(RenderArgs(EmptyCmdLine), " ") == ""
  {
  }

  /** A tag that renders as `+t` or `-t` and reads back as the same tag. */
  predicate IsTagWord(t: string) {
    |t| >= 2 && IsLowerString(t) && !HasPrefix(t, "project:")
  }

  /** A priority that no earlier rule of the classifier claims. */
  predicate IsPlainPriority(v: Vocabulary, p: string) {
    && v.isValidPriority(p)
    && !HasPrefix(Lower(p), "project:") && !HasPrefix(Lower(p), "+project:")
    && !HasPrefix(Lower(p), "-project:")
    && !(|p| > 2 && (p[0] == '+' || p[0] == '-'))
  }

  /** The tags, anti-tags, project, anti-projects and priority are such that
      the parser, with IDs exhausted, reads each rendered token back into the
      field it came from. */
  predicate SelectorsReparse(v: Vocabulary, c: CmdLine) {
    && (forall t :: t in c.tags ==> IsTagWord(t))
    && (forall t :: t in c.antiTags ==> IsTagWord(t))
    && IsLowerString(c.project)
    && (forall p :: p in c.antiProjects ==> IsLowerString(p))
    && (c.priority != "" ==> IsPlainPriority(v, c.priority))
  }

  /** A filter whose rendering reads back as itself: IDs within 64 bits that
      are not command names, lower-case tags and projects that the parser
      cannot mistake for anything else, a priority the vocabulary accepts,
      no text and no schedule (both render as quoted words), and a first
      token after the IDs that is neither a command name nor an integer. */
  predicate Reparsable(v: Vocabulary, c: CmdLine) {
    && (forall id :: id in c.ids ==> InInt64(id) && Itoa(id) !in v.allCmds)
    && SelectorsReparse(v, c)
    && c.text == "" && c.schedule == ""
    && (|RenderArgs(c)| > |c.ids| ==>
          Lower(RenderArgs(c)[|c.ids|]) !in v.allCmds && ParseDecimalInt64(RenderArgs(c)[|c.ids|]).None?)
  }

  lemma ItoaIsLower(n: int)
    ensures Lower(Itoa(n)) == Itoa(n)
  {
    assert IsLowerString(Itoa(n));
    LowerOfLower(Itoa(n));
  }

  lemma RunIdArgs(v: Vocabulary, st: ParseState, ids: seq<int>)
    requires !st.idsExhausted
    requires forall id :: id in ids ==> InInt64(id) && Itoa(id) !in v.allCmds
    ensures Run(v, st, IdArgs(ids)) == st.(ids := st.ids + ids)
  {
    var toks := IdArgs(ids);
    forall k | 0 <= k < |toks|
      ensures ParseDecimalInt64(toks[k]) == Some(ids[k]) && Lower(toks[k]) !in v.allCmds
    {
      assert ids[k] in ids;
      ItoaRoundTrip(ids[k]);
      ItoaIsLower(ids[k]);
    }
    RunIdTokens(v, st, toks, ids);
  }

  lemma StepOnExhausted(v: Vocabulary, st: ParseState, item: string)
    requires st.idsExhausted
    ensures Step(v, st, item) == Classify(v, st, item)
  {
    assert st.(idsExhausted := true) == st;
  }

  /** The first token after the IDs, when it is neither a command name nor an
      integer, behaves as if the IDs were already exhausted. */
  lemma RunFirstReaches(v: Vocabulary, st: ParseState, r: seq<string>)
    requires |r| > 0 && Reaches(v, st, r[0])
    ensures Run(v, st, r) == Run(v, st.(idsExhausted := true), r)
  {
    var st' := st.(idsExhausted := true);
    assert r == [r[0]] + r[1..];
    RunAppend(v, st, [r[0]], r[1..]);
    RunAppend(v, st', [r[0]], r[1..]);
    RunSnoc(v, st, [], r[0]);
    RunSnoc(v, st', [], r[0]);
    assert [] + [r[0]] == [r[0]];
    StepOnExhausted(v, st', r[0]);
  }

  lemma StepTagToken(v: Vocabulary, st: ParseState, t: string)
    requires st.idsExhausted && IsTagWord(t)
    ensures Step(v, st, "+" + t) == st.(tags := st.tags + [t])
  {
    var item := "+" + t;
    LowerConcat("+", t);
    LowerOfLower(t);
    var lc := Lower(item);
    assert lc == "+" + t;
    HasPrefixOfConcat("+", t, "+project:");
    assert "+project:"[1..] == "project:";
    assert !HasPrefix(lc, "project:") by { assert lc[0] != "project:"[0]; }
    assert !HasPrefix(lc, "-project:") by { assert lc[0] != "-project:"[0]; }
    assert lc[1..] == t;
    StepOnExhausted(v, st, item);
  }

  lemma StepAntiTagToken(v: Vocabulary, st: ParseState, t: string)
    requires st.idsExhausted && IsTagWord(t)
    ensures Step(v, st, "-" + t) == st.(antiTags := st.antiTags + [t])
  {
    var item := "-" + t;
    LowerConcat("-", t);
    LowerOfLower(t);
    var lc := Lower(item);
    assert lc == "-" + t;
    HasPrefixOfConcat("-", t, "-project:");
    assert "-project:"[1..] == "project:";
    assert !HasPrefix(lc, "project:") by { assert lc[0] != "project:"[0]; }
    assert !HasPrefix(lc, "+project:") by { assert lc[0] != "+project:"[0]; }
    assert lc[1..] == t;
    StepOnExhausted(v, st, item);
  }

  lemma StepProjectToken(v: Vocabulary, st: ParseState, p: string)
    requires st.idsExhausted && IsLowerString(p)
    ensures Step(v, st, "project:" + p) == st.(project := p)
  {
    var item := "project:" + p;
    LowerConcat("project:", p);
    LowerOfLower(p);
    LowerOfLower("project:");
    var lc := Lower(item);
    assert lc == item;
    assert lc[..8] == "project:" && lc[8..] == p;
    StepOnExhausted(v, st, item);
  }

  lemma StepAntiProjectToken(v: Vocabulary, st: ParseState, p: string)
    requires st.idsExhausted && IsLowerString(p)
    ensures Step(v, st, "-project:" + p) == st.(antiProjects := st.antiProjects + [p])
  {
    var item := "-project:" + p;
    LowerConcat("-project:", p);
    LowerOfLower(p);
    LowerOfLower("-project:");
    var lc := Lower(item);
    assert lc == item;
    assert !HasPrefix(lc, "project:") by { assert lc[0] != "project:"[0]; }
    assert !HasPrefix(lc, "+project:") by { assert lc[0] != "+project:"[0]; }
    assert lc[..9] == "-project:" && lc[9..] == p;
    StepOnExhausted(v, st, item);
  }

  lemma StepPriorityToken(v: Vocabulary, st: ParseState, p: string)
    requires st.idsExhausted && IsPlainPriority(v, p)
    ensures Step(v, st, p) == st.(priority := p)
  {
    StepOnExhausted(v, st, p);
  }

  /** The states a `+` token list passes through, one more word recorded each time. */
  function TagsStates(st: ParseState, tags: seq<string>): (r: seq<ParseState>)
    ensures |r| == |tags| + 1
    ensures forall k :: 0 <= k <= |tags| ==> r[k] == st.(tags := st.tags + tags[..k])
  {
    seq(|tags| + 1, k requires 0 <= k <= |tags| => st.(tags := st.tags + tags[..k]))
  }

  /** Any loop body that records each `+` token once IDs are exhausted
      records a whole list of them, in order. */
  lemma FoldTags(f: (ParseState, string) -> ParseState, st: ParseState, tags: seq<string>)
    requires forall s: ParseState, t: string :: s.idsExhausted && IsTagWord(t) ==> f(s, "+" + t) == s.(tags := s.tags + [t])
    requires st.idsExhausted && forall t :: t in tags ==> IsTagWord(t)
    ensures Fold(f, st, Prefixed("+", tags)) == st.(tags := st.tags + tags)
  {
    var states := TagsStates(st, tags);
    var toks := Prefixed("+", tags);
    forall k | 0 <= k < |tags|
      ensures f(states[k], toks[k]) == states[k + 1]
    {
      assert tags[k] in tags;
      AppendNext(st.tags, tags, k);
    }
    FoldTrace(f, toks, states);
    assert st.tags + tags[..0] == st.tags;
    assert tags[..|tags|] == tags;
  }

  lemma RunTags(v: Vocabulary, st: ParseState, tags: seq<string>)
    requires st.idsExhausted && forall t :: t in tags ==> IsTagWord(t)
    ensures Run(v, st, Prefixed("+", tags)) == st.(tags := st.tags + tags)
  {
    forall s: ParseState, t: string | s.idsExhausted && IsTagWord(t)
      ensures StepFn(v)(s, "+" + t) == s.(tags := s.tags + [t])
    {
      StepTagToken(v, s, t);
    }
    FoldTags(StepFn(v), st, tags);
  }

  /** The states a `-` token list passes through, one more word recorded each time. */
  function AntiTagsStates(st: ParseState, tags: seq<string>): (r: seq<ParseState>)
    ensures |r| == |tags| + 1
    ensures forall k :: 0 <= k <= |tags| ==> r[k] == st.(antiTags := st.antiTags + tags[..k])
  {
    seq(|tags| + 1, k requires 0 <= k <= |tags| => st.(antiTags := st.antiTags + tags[..k]))
  }

  /** Any loop body that records each `-` token once IDs are exhausted
      records a whole list of them, in order. */
  lemma FoldAntiTags(f: (ParseState, string) -> ParseState, st: ParseState, tags: seq<string>)
    requires forall s: ParseState, t: string :: s.idsExhausted && IsTagWord(t) ==> f(s, "-" + t) == s.(antiTags := s.antiTags + [t])
    requires st.idsExhausted && forall t :: t in tags ==> IsTagWord(t)
    ensures Fold(f, st, Prefixed("-", tags)) == st.(antiTags := st.antiTags + tags)
  {
    var states := AntiTagsStates(st, tags);
    var toks := Prefixed("-", tags);
    forall k | 0 <= k < |tags|
      ensures f(states[k], toks[k]) == states[k + 1]
    {
      assert tags[k] in tags;
      AppendNext(st.antiTags, tags, k);
    }
    FoldTrace(f, toks, states);
    assert st.antiTags + tags[..0] == st.antiTags;
    assert tags[..|tags|] == tags;
  }

  lemma RunAntiTags(v: Vocabulary, st: ParseState, tags: seq<string>)
    requires st.idsExhausted && forall t :: t in tags ==> IsTagWord(t)
    ensures Run(v, st, Prefixed("-", tags)) == st.(antiTags := st.antiTags + tags)
  {
    forall s: ParseState, t: string | s.idsExhausted && IsTagWord(t)
      ensures StepFn(v)(s, "-" + t) == s.(antiTags := s.antiTags + [t])
    {
      StepAntiTagToken(v, s, t);
    }
    FoldAntiTags(StepFn(v), st, tags);
  }

  /** The states a `-project:` token list passes through, one more word recorded each time. */
  function AntiProjectsStates(st: ParseState, ps: seq<string>): (r: seq<ParseState>)
    ensures |r| == |ps| + 1
    ensures forall k :: 0 <= k <= |ps| ==> r[k] == st.(antiProjects := st.antiProjects + ps[..k])
  {
    seq(|ps| + 1, k requires 0 <= k <= |ps| => st.(antiProjects := st.antiProjects + ps[..k]))
  }

  /** Any loop body that records each `-project:` token once IDs are exhausted
      records a whole list of them, in order. */
  lemma FoldAntiProjects(f: (ParseState, string) -> ParseState, st: ParseState, ps: seq<string>)
    requires forall s: ParseState, p: string :: s.idsExhausted && IsLowerString(p) ==> f(s, "-project:" + p) == s.(antiProjects := s.antiProjects + [p])
    requires st.idsExhausted && forall p :: p in ps ==> IsLowerString(p)
    ensures Fold(f, st, Prefixed("-project:", ps)) == st.(antiProjects := st.antiProjects + ps)
  {
    var states := AntiProjectsStates(st, ps);
    var toks := Prefixed("-project:", ps);
    forall k | 0 <= k < |ps|
      ensures f(states[k], toks[k]) == states[k + 1]
    {
      assert ps[k] in ps;
      AppendNext(st.antiProjects, ps, k);
    }
    FoldTrace(f, toks, states);
    assert st.antiProjects + ps[..0] == st.antiProjects;
    assert ps[..|ps|] == ps;
  }

  lemma RunAntiProjects(v: Vocabulary, st: ParseState, ps: seq<string>)
    requires st.idsExhausted && forall p :: p in ps ==> IsLowerString(p)
    ensures Run(v, st, Prefixed("-project:", ps)) == st.(antiProjects := st.antiProjects + ps)
  {
    forall s: ParseState, p: string | s.idsExhausted && IsLowerString(p)
      ensures StepFn(v)(s, "-project:" + p) == s.(antiProjects := s.antiProjects + [p])
    {
      StepAntiProjectToken(v, s, p);
    }
    FoldAntiProjects(StepFn(v), st, ps);
  }

  lemma RunOptional(v: Vocabulary, st: ParseState, present: bool, tok: string)
    ensures Run(v, st, OptionalArg(present, tok)) == if present then Step(v, st, tok) else st
  {
    if present {
      RunSnoc(v, st, [], tok);
      assert [] + [tok] == [tok];
    }
  }

  /** The tokens after the IDs, when there is no text and no schedule. */
  function SelectorArgs(c: CmdLine): seq<string> {
    Prefixed("+", c.tags)
    + Prefixed("-", c.antiTags)
    + OptionalArg(c.project != "", "project:" + c.project)
    + Prefixed("-project:", c.antiProjects)
    + OptionalArg(c.priority != "", c.priority)
  }

  lemma ConcatAssoc(I: seq<string>, T: seq<string>, A: seq<string>, P: seq<string>,
                    AP: seq<string>, PR: seq<string>)
    ensures I + T + A + P + AP + PR == I + (T + A + P + AP + PR)
  {
    assert I + T + A == I + (T + A);
    assert I + T + A + P == I + (T + A + P);
    assert I + T + A + P + AP == I + (T + A + P + AP);
  }

  lemma RenderArgsSplit(c: CmdLine)
    requires c.text == "" && c.schedule == ""
    ensures RenderArgs(c) == IdArgs(c.ids) + SelectorArgs(c)
  {
    var I := IdArgs(c.ids);
    var T := Prefixed("+", c.tags);
    var A := Prefixed("-", c.antiTags);
    var P := OptionalArg(c.project != "", "project:" + c.project);
    var AP := Prefixed("-project:", c.antiProjects);
    var PR := OptionalArg(c.priority != "", c.priority);
    var E: seq<string> := [];
    assert OptionalArg(c.text != "", Quoted(c.text)) == E;
    assert OptionalArg(c.schedule != "", Quoted(c.schedule)) == E;
    assert RenderArgs(c) == I + T + A + P + AP + PR + E + E;
    assert I + T + A + P + AP + PR + E + E == I + T + A + P + AP + PR;
    ConcatAssoc(I, T, A, P, AP, PR);
  }

  /** From a state with IDs exhausted, the selector tokens set exactly the
      fields they were rendered from. */
  lemma RunSelectors(v: Vocabulary, st: ParseState, c: CmdLine)
    requires st.idsExhausted && SelectorsReparse(v, c)
    requires st.tags == [] && st.antiTags == [] && st.antiProjects == []
    ensures Run(v, st, SelectorArgs(c))
            == st.(tags := c.tags, antiTags := c.antiTags, antiProjects := c.antiProjects,
                   project := if c.project != "" then c.project else st.project,
                   priority := if c.priority != "" then c.priority else st.priority)
  {
    var T := Prefixed("+", c.tags);
    var A := Prefixed("-", c.antiTags);
    var P := OptionalArg(c.project != "", "project:" + c.project);
    var AP := Prefixed("-project:", c.antiProjects);
    var PR := OptionalArg(c.priority != "", c.priority);

    RunTags(v, st, c.tags);
    assert st.tags + c.tags == c.tags;
    var s3 := st.(tags := c.tags);
    assert Run(v, st, T) == s3;

    RunAntiTags(v, s3, c.antiTags);
    assert s3.antiTags + c.antiTags == c.antiTags;
    var s4 := s3.(antiTags := c.antiTags);
    RunAppend(v, st, T, A);
    assert Run(v, st, T + A) == s4;

    RunOptional(v, s4, c.project != "", "project:" + c.project);
    if c.project != "" {
      StepProjectToken(v, s4, c.project);
    }
    var s5 := s4.(project := if c.project != "" then c.project else st.project);
    RunAppend(v, st, T + A, P);
    assert Run(v, st, T + A + P) == s5;

    RunAntiProjects(v, s5, c.antiProjects);
    assert s5.antiProjects + c.antiProjects == c.antiProjects;
    var s6 := s5.(antiProjects := c.antiProjects);
    RunAppend(v, st, T + A + P, AP);
    assert Run(v, st, T + A + P + AP) == s6;

    RunOptional(v, s6, c.priority != "", c.priority);
    if c.priority != "" {
      StepPriorityToken(v, s6, c.priority);
    }
    RunAppend(v, st, T + A + P + AP, PR);
  }

  /** Rendering a reparsable filter and parsing the tokens back gives the same
      IDs, tags, anti-tags, project, anti-projects and priority; the command,
      the note and the ignore-context flag come back empty, and IDs are
      exhausted exactly when some token besides the IDs was rendered. */
  lemma RenderThenParse(v: Vocabulary, c: CmdLine)
    requires Reparsable(v, c)
    ensures Parse(v, RenderArgs(c))
            == c.(cmd := "", note := "", ignoreContext := false, idsExhausted := |RenderArgs(c)| > |c.ids|)
  {
    var I := IdArgs(c.ids);
    var R := SelectorArgs(c);
    RenderArgsSplit(c);
    RunAppend(v, Start, I, R);
    RunIdArgs(v, Start, c.ids);
    var s1 := Start.(ids := c.ids);
    assert Start.ids + c.ids == c.ids;
    assert Scan(v, RenderArgs(c)) == Run(v, s1, R);
    if |R| == 0 {
      assert c.tags == [] && c.antiTags == [] && c.antiProjects == [];
      assert c.project == "" && c.priority == "";
    } else {
      assert (I + R)[|c.ids|] == R[0];
      RunFirstReaches(v, s1, R);
      RunSelectors(v, s1.(idsExhausted := true), c);
    }
  }
}
