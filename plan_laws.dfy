/**
 * Properties of the plans the shell builds: how `;`, `|` and `<`/`>` split a
 * command line, which steps survive in the shell's own process, what the
 * built-ins and `prev` do, and how scripts are run.
 */
module ShellLaws {
  import opened Wrappers
  import opened TokenizeLib
  import opened ShellPlan

  // ---------------------------------------------------------------------------
  // Finding operators

  /** FindOperator finds the first unquoted operator: none comes before it. */
  lemma {:induction false} FindOperatorFirst(ts: seq<Token>, ops: set<string>)
    ensures Clean(ts[..FindOperator(ts, ops)], ops)
    decreases |ts|
  {
    var k := FindOperator(ts, ops);
    if ts != [] && !IsOperatorIn(ts[0], ops) {
      FindOperatorFirst(ts[1..], ops);
      assert forall j :: 1 <= j < k ==> ts[..k][j] == ts[1..][..k - 1][j - 1];
    }
  }

  /** A clean prefix is skipped by the operator search. */
  lemma {:induction false} FindOperatorAfterClean(a: seq<Token>, b: seq<Token>, ops: set<string>)
    requires Clean(a, ops)
    ensures FindOperator(a + b, ops) == |a| + FindOperator(b, ops)
    decreases |a|
  {
    if a != [] {
      assert (a + b)[0] == a[0];
      assert (a + b)[1..] == a[1..] + b;
      FindOperatorAfterClean(a[1..], b, ops);
    } else {
      assert a + b == b;
    }
  }

  /** The tokens before the first operator are clean. */
  lemma FindOperatorPrefix(ts: seq<Token>, ops: set<string>)
    ensures Clean(ts[..FindOperator(ts, ops)], ops)
    ensures FindOperator(ts[..FindOperator(ts, ops)], ops) == FindOperator(ts, ops)
  {
    var k := FindOperator(ts, ops);
    FindOperatorFirst(ts, ops);
    FindOperatorAfterClean(ts[..k], [], ops);
    assert ts[..k] + [] == ts[..k];
  }

  // ---------------------------------------------------------------------------
  // Split and Join

  /** Putting the segments back together with the operator gives the line. */
  lemma {:induction false} SplitJoin(ts: seq<Token>, op: string)
    ensures Join(Split(ts, {op}), Token(op, false)) == ts
    decreases |ts|
  {
    var k := FindOperator(ts, {op});
    if k < |ts| {
      var rest := Split(ts[k + 1..], {op});
      SplitJoin(ts[k + 1..], op);
      assert ([ts[..k]] + rest)[1..] == rest;
      assert ts[k] == Token(op, false);
      assert ts[..k] + [ts[k]] + ts[k + 1..] == ts;
    }
  }

  /** No segment contains the operator. */
  lemma {:induction false} SplitClean(ts: seq<Token>, ops: set<string>)
    ensures forall k :: 0 <= k < |Split(ts, ops)| ==> Clean(Split(ts, ops)[k], ops)
    decreases |ts|
  {
    var k := FindOperator(ts, ops);
    var segs := Split(ts, ops);
    FindOperatorFirst(ts, ops);
    if k == |ts| {
      assert ts[..k] == ts;
      assert segs == [ts];
    } else {
      var rest := Split(ts[k + 1..], ops);
      SplitClean(ts[k + 1..], ops);
      assert segs == [ts[..k]] + rest;
      assert forall j :: 1 <= j < |segs| ==> segs[j] == rest[j - 1];
    }
  }

  lemma SplitAt(ts: seq<Token>, ops: set<string>, k: nat)
    requires k == FindOperator(ts, ops) && k < |ts|
    ensures Split(ts, ops) == [ts[..k]] + Split(ts[k + 1..], ops)
  {
  }

  lemma SplitNone(ts: seq<Token>, ops: set<string>)
    requires FindOperator(ts, ops) == |ts|
    ensures Split(ts, ops) == [ts]
  {
  }

  /** Splitting clean segments joined with the operator gives them back. */
  lemma {:induction false} JoinSplit(segs: seq<seq<Token>>, op: string)
    requires |segs| > 0 && forall k :: 0 <= k < |segs| ==> Clean(segs[k], {op})
    ensures Split(Join(segs, Token(op, false)), {op}) == segs
    decreases |segs|
  {
    var sep := Token(op, false);
    if |segs| == 1 {
      FindOperatorAfterClean(segs[0], [], {op});
      assert segs[0] + [] == segs[0];
      SplitNone(segs[0], {op});
    } else {
      var tail := Join(segs[1..], sep);
      var line := segs[0] + [sep] + tail;
      assert Join(segs, sep) == line;
      FindOperatorAfterClean(segs[0], [sep] + tail, {op});
      assert FindOperator([sep] + tail, {op}) == 0;
      assert segs[0] + ([sep] + tail) == line;
      var k := |segs[0]|;
      SplitAt(line, {op}, k);
      assert line[..k] == segs[0];
      assert line[k + 1..] == tail;
      assert forall m :: 0 <= m < |segs[1..]| ==> segs[1..][m] == segs[m + 1];
      JoinSplit(segs[1..], op);
      assert [segs[0]] + segs[1..] == segs;
    }
  }

  // ---------------------------------------------------------------------------
  // Command sequences

  /**
   * The segments between unquoted `;` run strictly left to right, each but
   * the last in a child; a line is evaluable exactly when each segment is.
   */
  lemma {:induction false} SequenceBySegments(ts: seq<Token>)
    ensures SequenceDefined(ts) ==>
      forall k :: 0 <= k < |Split(ts, SequenceOps)| ==> PipeDefined(Split(ts, SequenceOps)[k])
    ensures (forall k :: 0 <= k < |Split(ts, SequenceOps)| ==> PipeDefined(Split(ts, SequenceOps)[k]))
      ==> SequenceDefined(ts)
    ensures SequenceDefined(ts) ==> SequencePlan(ts) == RunSegments(Split(ts, SequenceOps))
    decreases |ts|
  {
    var k := FindOperator(ts, SequenceOps);
    var segs := Split(ts, SequenceOps);
    if k == |ts| {
      assert segs == [ts];
      assert (forall j :: 0 <= j < |segs| ==> PipeDefined(segs[j])) <==> PipeDefined(ts) by {
        assert segs[0] == ts;
      }
    } else {
      var rest := Split(ts[k + 1..], SequenceOps);
      SequenceBySegments(ts[k + 1..]);
      assert segs == [ts[..k]] + rest;
      assert segs[0] == ts[..k] && segs[1..] == rest;
      assert forall j :: 0 <= j < |rest| ==> segs[j + 1] == rest[j];
      assert forall j :: 1 <= j < |segs| ==> segs[j] == rest[j - 1];
      assert SequenceDefined(ts) <==> PipeDefined(ts[..k]) && SequenceDefined(ts[k + 1..]);
      if forall j :: 0 <= j < |segs| ==> PipeDefined(segs[j]) {
        assert PipeDefined(ts[..k]);
        assert forall j :: 0 <= j < |rest| ==> PipeDefined(rest[j]);
      }
      if SequenceDefined(ts) {
        assert SequenceDefined(ts[k + 1..]);
        assert forall j :: 0 <= j < |rest| ==> PipeDefined(rest[j]);
        forall j | 0 <= j < |segs| ensures PipeDefined(segs[j]) {
          if j > 0 {
            assert segs[j] == rest[j - 1];
          }
        }
        assert SequencePlan(ts) == Then(Forked(PipePlan(ts[..k], true)), SequencePlan(ts[k + 1..]));
        assert RunSegments(segs) == Then(Forked(PipePlan(segs[0], true)), RunSegments(rest));
      }
    }
  }

  /**
   * Only the last `;` segment runs in the shell's own process: the cd and
   * source steps that persist are those of the last segment.
   */
  lemma {:induction false} OnlyLastSegmentPersists(ts: seq<Token>)
    requires SequenceDefined(ts)
    ensures InterpreterEffects(SequencePlan(ts)) == InterpreterEffects(PipePlan(LastSegment(ts), true))
    decreases |ts|
  {
    var k := FindOperator(ts, SequenceOps);
    if k < |ts| {
      OnlyLastSegmentPersists(ts[k + 1..]);
      assert InterpreterEffects(SequencePlan(ts)) == [] + InterpreterEffects(SequencePlan(ts[k + 1..]));
    }
  }

  /** The last segment is the last piece of the split. */
  lemma {:induction false} LastSegmentIsLastPiece(ts: seq<Token>)
    ensures LastSegment(ts) == Split(ts, SequenceOps)[|Split(ts, SequenceOps)| - 1]
    decreases |ts|
  {
    var k := FindOperator(ts, SequenceOps);
    if k < |ts| {
      SplitAt(ts, SequenceOps, k);
      assert LastSegment(ts) == LastSegment(ts[k + 1..]);
      LastSegmentIsLastPiece(ts[k + 1..]);
    } else {
      SplitNone(ts, SequenceOps);
      assert LastSegment(ts) == ts;
    }
  }

  /** In `cd x ; ls`, the cd runs in a child and changes nothing in the shell. */
  lemma CdBeforeSemicolonDoesNotPersist()
    ensures var ts := [Token("cd", false), Token("x", false), Token(";", false), Token("ls", false)];
      SequenceDefined(ts) && InterpreterEffects(SequencePlan(ts)) == []
  {
    var ts := [Token("cd", false), Token("x", false), Token(";", false), Token("ls", false)];
    assert FindOperator(ts, SequenceOps) == 2;
    assert ts[..2] == [Token("cd", false), Token("x", false)];
    assert ts[3..] == [Token("ls", false)];
  }

  /** In `ls ; cd x`, the cd is the last segment and does change directory. */
  lemma CdAfterSemicolonPersists()
    ensures var ts := [Token("ls", false), Token(";", false), Token("cd", false), Token("x", false)];
      SequenceDefined(ts) && InterpreterEffects(SequencePlan(ts)) == [Cd("x")]
  {
    var ts := [Token("ls", false), Token(";", false), Token("cd", false), Token("x", false)];
    assert FindOperator(ts, SequenceOps) == 1;
    assert ts[..1] == [Token("ls", false)];
    assert ts[2..] == [Token("cd", false), Token("x", false)];
  }

  // ---------------------------------------------------------------------------
  // The line buffer

  /** Steps with no source among them leave the line buffer as it was. */
  lemma {:induction false} BufferKeptWithoutSource(effects: seq<Plan>, files: map<string, seq<string>>, cli: Option<string>)
    requires forall k :: 0 <= k < |effects| ==> !effects[k].Source?
    ensures BufferAfter(effects, files, cli) == cli
    decreases |effects|
  {
    if effects != [] {
      BufferKeptWithoutSource(effects[1..], files, cli);
    }
  }

  /**
   * The line buffer after a command line: the last line, without its
   * newline, of the script that a `source` opens in the last `;` segment;
   * otherwise the line itself.  A source in an earlier segment runs in a
   * child and leaves the shell's buffer alone.
   */
  lemma LineBuffer(ts: seq<Token>, files: map<string, seq<string>>, line: string)
    requires SequenceDefined(ts) && ScriptsDefined(files)
    ensures var seg := LastSegment(ts);
      BufferAfter(InterpreterEffects(SequencePlan(ts)), files, Some(line)) ==
      if seg[0].text == "source" && |seg| > 1 && seg[1].text in files
      then Some(StripNewline(files[seg[1].text][|files[seg[1].text]| - 1]))
      else Some(line)
  {
    OnlyLastSegmentPersists(ts);
    var seg := LastSegment(ts);
    var effects := InterpreterEffects(PipePlan(seg, true));
    if seg[0].text == "source" && |seg| > 1 {
      assert effects == [Source(seg[1].text, true)];
    } else {
      assert forall k :: 0 <= k < |effects| ==> !effects[k].Source?;
      BufferKeptWithoutSource(effects, files, Some(line));
    }
  }

  /** `source s`, where s holds the line `ls`, leaves `ls` in the buffer for prev. */
  lemma ExampleSourceSetsBuffer()
    ensures var ts := [Token("source", false), Token("s", false)];
      SequenceDefined(ts) && BufferAfter(InterpreterEffects(SequencePlan(ts)), map["s" := ["ls\n"]], Some("source s")) == Some("ls")
  {
    var ts := [Token("source", false), Token("s", false)];
    assert FindOperator(ts, SequenceOps) == 2;
    assert StripNewline("ls\n") == "ls";
  }

  /** In `source s ; ls` the script runs in a child: the buffer keeps the line. */
  lemma ExampleForkedSourceKeepsBuffer()
    ensures var ts := [Token("source", false), Token("s", false), Token(";", false), Token("ls", false)];
      SequenceDefined(ts) &&
      BufferAfter(InterpreterEffects(SequencePlan(ts)), map["s" := ["ls\n"]], Some("source s ; ls")) == Some("source s ; ls")
  {
    var ts := [Token("source", false), Token("s", false), Token(";", false), Token("ls", false)];
    assert FindOperator(ts, SequenceOps) == 2;
    assert ts[..2] == [Token("source", false), Token("s", false)];
    assert ts[3..] == [Token("ls", false)];
  }

  // ---------------------------------------------------------------------------
  // Pipelines and built-ins

  /** PipePlan at the first `|` after a command that is not a built-in. */
  lemma PipePlanAt(ts: seq<Token>, hasBuffer: bool, k: nat)
    requires PipeDefined(ts) && ts[0].text !in Builtins
    requires k == FindOperator(ts, PipeOps) && k < |ts|
    ensures PipeDefined(ts[k + 1..])
    ensures PipePlan(ts, hasBuffer) == Forked(Pipe(RedirectPlan(ts[..k]), PipePlan(ts[k + 1..], false)))
  {
    assert ts[0].text != "cd" && ts[0].text != "source" && ts[0].text != "help";
  }

  /** PipePlan of a command that is not a built-in and has no `|`. */
  lemma PipePlanNone(ts: seq<Token>, hasBuffer: bool)
    requires |ts| > 0 && ts[0].text !in Builtins && FindOperator(ts, PipeOps) == |ts|
    ensures PipeDefined(ts) && PipePlan(ts, hasBuffer) == RedirectPlan(ts)
  {
  }

  lemma PipeDefinedAt(ts: seq<Token>, k: nat)
    requires |ts| > 0 && ts[0].text !in Builtins
    requires k == FindOperator(ts, PipeOps) && k < |ts| && PipeDefined(ts[k + 1..])
    ensures PipeDefined(ts)
  {
  }

  lemma RunStagesAt(stages: seq<seq<Token>>)
    requires |stages| > 1
    ensures RunStages(stages) == Forked(Pipe(RedirectPlan(stages[0]), RunStages(stages[1..])))
  {
  }

  /** SequencePlan of a list with no `;`. */
  lemma SequencePlanNone(ts: seq<Token>)
    requires FindOperator(ts, SequenceOps) == |ts| && PipeDefined(ts)
    ensures SequenceDefined(ts) && SequencePlan(ts) == PipePlan(ts, true)
  {
  }

  /**
   * Without built-in names at the start of a stage, `a | b | c` nests to the
   * right: each stage feeds the pipeline made of the stages after it.
   */
  lemma {:induction false} PipeByStages(ts: seq<Token>, hasBuffer: bool)
    requires forall k :: 0 <= k < |Split(ts, PipeOps)| ==>
      |Split(ts, PipeOps)[k]| > 0 && Split(ts, PipeOps)[k][0].text !in Builtins
    ensures PipeDefined(ts)
    ensures PipePlan(ts, hasBuffer) == RunStages(Split(ts, PipeOps))
    decreases |ts|
  {
    var stages: seq<seq<Token>> := Split(ts, PipeOps);
    var k := FindOperator(ts, PipeOps);
    assert |stages[0]| > 0 && stages[0][0].text !in Builtins;
    if k < |ts| {
      SplitAt(ts, PipeOps, k);
      var rest := Split(ts[k + 1..], PipeOps);
      assert stages[0] == ts[..k] && stages[1..] == rest;
      assert ts[0] == stages[0][0];
      assert forall j :: 0 <= j < |rest| ==> rest[j] == stages[j + 1];
      PipeByStages(ts[k + 1..], false);
      PipeDefinedAt(ts, k);
      PipePlanAt(ts, hasBuffer, k);
      RunStagesAt(stages);
    } else {
      SplitNone(ts, PipeOps);
      assert stages == [ts];
      PipePlanNone(ts, hasBuffer);
    }
  }

  /**
   * A segment starting with cd or source and an argument is that built-in
   * alone, whatever follows the argument, pipes included.
   */
  lemma BuiltinTakesWholeSegment(ts: seq<Token>, rest: seq<Token>, hasBuffer: bool)
    requires |ts| == 2 && ts[0].text in {"cd", "source"}
    ensures PipeDefined(ts + rest) && PipeDefined(ts)
    ensures PipePlan(ts + rest, hasBuffer) == PipePlan(ts, hasBuffer)
    ensures Execs(PipePlan(ts + rest, hasBuffer)) == []
  {
    assert (ts + rest)[0] == ts[0] && (ts + rest)[1] == ts[1];
  }

  /** cd and source without an argument do nothing; help ignores whatever follows it. */
  lemma BuiltinWithoutArgument(quoted: bool, rest: seq<Token>, hasBuffer: bool)
    ensures PipeDefined([Token("cd", quoted)]) && PipePlan([Token("cd", quoted)], hasBuffer) == Nothing
    ensures PipeDefined([Token("source", quoted)]) && PipePlan([Token("source", quoted)], hasBuffer) == Nothing
    ensures PipeDefined([Token("help", quoted)] + rest)
    ensures PipePlan([Token("help", quoted)] + rest, hasBuffer) == Help
  {
    assert ([Token("help", quoted)] + rest)[0] == Token("help", quoted);
  }

  /** Built-in names are matched by text: a quoted "cd" is still cd. */
  lemma QuotedBuiltinStillBuiltin(path: Token, hasBuffer: bool)
    ensures PipeDefined([Token("cd", true), path])
    ensures PipePlan([Token("cd", true), path], hasBuffer) == Cd(path.text)
  {
  }

  lemma ExamplePipeline()
    ensures var ts := [Token("a", false), Token("|", false), Token("b", false), Token("|", false), Token("c", false)];
      PipeDefined(ts) &&
      PipePlan(ts, true) == Forked(Pipe(Exec(["a"]), Forked(Pipe(Exec(["b"]), Exec(["c"])))))
  {
    var ts := [Token("a", false), Token("|", false), Token("b", false), Token("|", false), Token("c", false)];
    var bc := [Token("b", false), Token("|", false), Token("c", false)];
    assert FindOperator(ts, PipeOps) == 1;
    assert ts[2..] == bc && ts[..1] == [Token("a", false)];
    assert FindOperator(bc, PipeOps) == 1;
    assert bc[2..] == [Token("c", false)] && bc[..1] == [Token("b", false)];
    assert FindOperator([Token("a", false)], RedirectOps) == 1;
    assert FindOperator([Token("b", false)], RedirectOps) == 1;
    assert FindOperator([Token("c", false)], RedirectOps) == 1;
    assert FindOperator([Token("c", false)], PipeOps) == 1;
    assert Texts([Token("a", false)]) == ["a"];
    assert Texts([Token("b", false)]) == ["b"];
    assert Texts([Token("c", false)]) == ["c"];
  }

  // ---------------------------------------------------------------------------
  // Redirections

  /** A list without an unquoted `<`/`>` is one command. */
  lemma NoRedirectIsOneCommand(ts: seq<Token>)
    requires Clean(ts, RedirectOps)
    ensures RedirectPlan(ts) == Exec(Texts(ts))
  {
    FindOperatorAfterClean(ts, [], RedirectOps);
    assert ts + [] == ts;
  }

  /**
   * Redirects do not accumulate: the body of every redirection is a single
   * command, never a further redirection.
   */
  lemma {:induction false} RedirectsDoNotAccumulate(ts: seq<Token>)
    ensures RedirectsFlat(RedirectPlan(ts))
    decreases |ts|
  {
    var k := FindOperator(ts, RedirectOps);
    if k + 1 < |ts| {
      FindOperatorPrefix(ts, RedirectOps);
      NoRedirectIsOneCommand(ts[..k]);
      RedirectsDoNotAccumulate(ts[k + 2..]);
    }
  }

  lemma ExampleRedirectsDoNotAccumulate()
    ensures var ts := [Token("cmd", false), Token("<", false), Token("in", false), Token(">", false), Token("out", false)];
      RedirectPlan(ts) ==
        Then(Forked(Redirect(FromFile, "in", Exec(["cmd"]))),
             Then(Forked(Redirect(ToFile, "out", Exec([]))), Exec([])))
  {
    var ts := [Token("cmd", false), Token("<", false), Token("in", false), Token(">", false), Token("out", false)];
    var tail := [Token(">", false), Token("out", false)];
    assert FindOperator(ts, RedirectOps) == 1;
    assert ts[..1] == [Token("cmd", false)] && ts[3..] == tail;
    assert FindOperator([Token("cmd", false)], RedirectOps) == 1;
    assert Texts([Token("cmd", false)]) == ["cmd"];
    assert FindOperator(tail, RedirectOps) == 0;
    assert tail[..0] == [] && tail[2..] == [];
    assert Texts([]) == [];
  }

  /** A redirect operator with nothing after it reports and runs nothing. */
  lemma MissingRedirectFileRunsNothing(ts: seq<Token>)
    requires |ts| > 0 && FindOperator(ts, RedirectOps) == |ts| - 1
    ensures Execs(RedirectPlan(ts)) == [] && Reports(RedirectPlan(ts)) == [NoRedirectFile]
  {
    RedirectPlanMissing(ts);
  }

  lemma RedirectPlanMissing(ts: seq<Token>)
    requires |ts| > 0 && FindOperator(ts, RedirectOps) == |ts| - 1
    ensures RedirectPlan(ts) == Report(NoRedirectFile)
  {
  }

  function Prepend(a: seq<Token>, rest: Option<seq<Token>>): Option<seq<Token>>
  {
    match rest
    case None => None
    case Some(r) => Some(a + r)
  }

  /** Unredirected keeps a clean prefix and resumes after the first operator's pair. */
  lemma {:induction false} UnredirectedAtFirst(ts: seq<Token>)
    ensures var k := FindOperator(ts, RedirectOps);
      Unredirected(ts) ==
        if k == |ts| then Some(ts)
        else if k + 1 == |ts| then None
        else Prepend(ts[..k], Unredirected(ts[k + 2..]))
    decreases |ts|
  {
    if ts != [] && IsOperatorIn(ts[0], RedirectOps) && |ts| > 1 {
      assert ts[..0] == [];
      match Unredirected(ts[2..])
      case None =>
      case Some(r) =>
        assert [] + r == r;
    } else if ts != [] && !IsOperatorIn(ts[0], RedirectOps) {
      var k := FindOperator(ts, RedirectOps);
      UnredirectedAtFirst(ts[1..]);
      assert FindOperator(ts[1..], RedirectOps) == k - 1;
      if k == |ts| {
        assert [ts[0]] + ts[1..] == ts;
      } else if k + 1 < |ts| {
        assert ts[1..][..k - 1] == ts[1..k];
        assert ts[1..][k + 1..] == ts[k + 2..];
        assert [ts[0]] + ts[1..k] == ts[..k];
        match Unredirected(ts[k + 2..])
        case None =>
        case Some(r) =>
          assert [ts[0]] + (ts[1..k] + r) == ts[..k] + r;
      }
    }
  }

  lemma {:induction false} FlattenAppend(a: seq<seq<string>>, b: seq<seq<string>>)
    ensures Flatten(a + b) == Flatten(a) + Flatten(b)
    decreases |a|
  {
    if a != [] {
      assert (a + b)[1..] == a[1..] + b;
      FlattenAppend(a[1..], b);
    } else {
      assert a + b == b;
    }
  }

  lemma TextsAppend(a: seq<Token>, b: seq<Token>)
    ensures Texts(a + b) == Texts(a) + Texts(b)
  {
  }

  /** The first redirection applies to a plain command; the rest follows it. */
  lemma RedirectPlanShape(ts: seq<Token>, k: nat)
    requires k == FindOperator(ts, RedirectOps) && k + 1 < |ts|
    ensures RedirectPlan(ts) ==
      Then(Forked(Redirect(DirectionOf(ts[k].text), ts[k + 1].text, Exec(Texts(ts[..k])))),
           RedirectPlan(ts[k + 2..]))
  {
    RedirectPlanUnfold(ts, k);
    FindOperatorPrefix(ts, RedirectOps);
    NoRedirectIsOneCommand(ts[..k]);
  }

  lemma RedirectPlanUnfold(ts: seq<Token>, k: nat)
    requires k == FindOperator(ts, RedirectOps) && k + 1 < |ts|
    ensures RedirectPlan(ts) ==
      Then(Forked(Redirect(DirectionOf(ts[k].text), ts[k + 1].text, RedirectPlan(ts[..k]))),
           RedirectPlan(ts[k + 2..]))
  {
  }

  lemma RedirectedCommand(dir: Direction, file: string, argv: seq<string>, rest: Plan)
    ensures Execs(Then(Forked(Redirect(dir, file, Exec(argv))), rest)) == [argv] + Execs(rest)
    ensures Reports(Then(Forked(Redirect(dir, file, Exec(argv))), rest)) == Reports(rest)
  {
    var body := Redirect(dir, file, Exec(argv));
    assert Execs(Exec(argv)) == [argv] && Reports(Exec(argv)) == [];
    assert Execs(body) == [argv] && Reports(body) == [];
  }

  /** After the first redirection, the redirect stage goes on with the rest. */
  lemma RedirectPlanAtFirst(ts: seq<Token>, k: nat)
    requires k == FindOperator(ts, RedirectOps) && k + 1 < |ts|
    ensures Execs(RedirectPlan(ts)) == [Texts(ts[..k])] + Execs(RedirectPlan(ts[k + 2..]))
    ensures Reports(RedirectPlan(ts)) == Reports(RedirectPlan(ts[k + 2..]))
  {
    RedirectPlanShape(ts, k);
    RedirectedCommand(DirectionOf(ts[k].text), ts[k + 1].text, Texts(ts[..k]),
      RedirectPlan(ts[k + 2..]));
  }

  /** The redirect stage reports a missing file exactly when an operator is the last token. */
  lemma {:induction false} RedirectReportsMissingFile(ts: seq<Token>)
    ensures Reports(RedirectPlan(ts)) == if Unredirected(ts).None? then [NoRedirectFile] else []
    decreases |ts|
  {
    var k := FindOperator(ts, RedirectOps);
    UnredirectedAtFirst(ts);
    if k == |ts| {
      FindOperatorFirst(ts, RedirectOps);
      assert ts[..k] == ts;
      NoRedirectIsOneCommand(ts);
      assert Reports(Exec(Texts(ts))) == [];
    } else if k + 1 == |ts| {
      RedirectPlanMissing(ts);
    } else {
      RedirectPlanAtFirst(ts, k);
      RedirectReportsMissingFile(ts[k + 2..]);
    }
  }

  /**
   * No word is lost or duplicated by the redirect stage: the commands it
   * runs, taken together, are exactly the tokens other than the redirect
   * operators and their file names.
   */
  lemma {:induction false} RedirectKeepsWords(ts: seq<Token>)
    requires Unredirected(ts).Some?
    ensures Flatten(Execs(RedirectPlan(ts))) == Texts(Unredirected(ts).value)
    decreases |ts|
  {
    var k := FindOperator(ts, RedirectOps);
    UnredirectedAtFirst(ts);
    if k == |ts| {
      assert Flatten([Texts(ts)]) == Texts(ts) + [];
    } else {
      var pre := ts[..k];
      var r := Unredirected(ts[k + 2..]).value;
      RedirectPlanAtFirst(ts, k);
      RedirectKeepsWords(ts[k + 2..]);
      FlattenAppend([Texts(pre)], Execs(RedirectPlan(ts[k + 2..])));
      assert Flatten([Texts(pre)]) == Texts(pre) + [];
      TextsAppend(pre, r);
    }
  }

  // ---------------------------------------------------------------------------
  // Quoting

  /**
   * A line whose operator characters all came from inside quotes is one
   * command: quoted `;`, `|`, `<` and `>` are ordinary words.
   */
  lemma QuotedOperatorsInert(ts: seq<Token>)
    requires |ts| > 0 && ts[0].text !in Builtins
    requires Clean(ts, SequenceOps) && Clean(ts, PipeOps) && Clean(ts, RedirectOps)
    ensures SequenceDefined(ts) && SequencePlan(ts) == Exec(Texts(ts))
  {
    FindOperatorAfterClean(ts, [], SequenceOps);
    FindOperatorAfterClean(ts, [], PipeOps);
    assert ts + [] == ts;
    PipePlanNone(ts, true);
    SequencePlanNone(ts);
    NoRedirectIsOneCommand(ts);
  }

  /**
   * echo "a;b" (tokenized as in TokenizeLib.ExampleQuotedOperator) runs
   * echo with the single argument a;b.
   */
  lemma ExampleQuotedSemicolon()
    ensures SequenceDefined([Token("echo", false), Token("a;b", true)])
    ensures SequencePlan([Token("echo", false), Token("a;b", true)]) == Exec(["echo", "a;b"])
  {
    var ts := [Token("echo", false), Token("a;b", true)];
    QuotedOperatorsInert(ts);
    assert Texts(ts) == ["echo", "a;b"];
  }

  // ---------------------------------------------------------------------------
  // prev

  /** tokenize drops the newline of `ls\n` in the input buffer itself, so the buffer is left holding `ls`. */
  lemma ExampleNewlineLeavesBuffer()
    ensures LineDefined("ls\n") && !StartsWithPrev("ls\n")
    ensures EvaluatedLine("ls\n", []) == "ls"
  {
    var ts := [Token("ls", false)];
    assert StripNewline("ls\n") == "ls";
    assert WellFormed(ts[0]);
    assert Render(ts) == "ls";
    RenderLexRoundTrip(ts);
  }

  /** With nothing stored, prev reports and runs nothing. */
  lemma PrevWithoutHistory(input: string)
    requires LineDefined(input) && StartsWithPrev(input)
    ensures InputDefined(input, [])
    ensures InputPlan(input, []) == Report(NoPreviousCommand)
    ensures Execs(InputPlan(input, [])) == []
  {
  }

  /**
   * With a stored line, prev echoes it and evaluates it as if typed; the
   * rest of the prev line plays no part.
   */
  lemma PrevReplaysStoredLine(input: string, other: string, prev: string)
    requires InputDefined(input, prev) && StartsWithPrev(input) && prev != []
    requires LineDefined(other) && StartsWithPrev(other)
    ensures InputDefined(other, prev)
    ensures InputPlan(input, prev) == Then(Echo(prev), SequencePlan(LexLine(prev).value))
    ensures InputPlan(other, prev) == InputPlan(input, prev)
  {
  }

  // ---------------------------------------------------------------------------
  // source

  /**
   * source bypasses operator handling: the script's argument vectors reach
   * execvp unchanged and in order, nothing reports an error, and nothing in
   * a script changes the shell's own process.
   */
  lemma {:induction false} SourceRunsEachLine(argvs: seq<seq<string>>)
    ensures Execs(SourceScript(argvs)) == argvs
    ensures InterpreterEffects(SourceScript(argvs)) == [] && Reports(SourceScript(argvs)) == []
    decreases |argvs|
  {
    if argvs != [] {
      var init := argvs[..|argvs| - 1];
      SourceRunsEachLine(init);
      assert init + [argvs[|argvs| - 1]] == argvs;
    }
  }
}
